/**
  Giving references back: the mutual recursion of `soinfo_unload` and `soinfo_unload_impl`, and the history of
  everything it has taken down.
 */
module Unloading {
  import opened Basics
  import opened Soinfo
  import opened Peeling
  import opened UnloadLoop
  import opened Teardown
  import opened Leftovers

  /** A group that was taken down: the state before, the references that were pending then, the root, and
      the libraries that were unloaded, in the order in which their destructors ran. */
  datatype TornDown = TornDown(before: State, pending: seq<Lib>, root: Lib, order: seq<Lib>)

  /** Nothing that stays loaded depended on what was unloaded, and dependants were unloaded first. */
  ghost predicate Safe(e: TornDown)
  {
    var s := e.before;
    && WellFormed(s) && Starts(s, e.root)
    && GroupOf(s, e.root).Valid() && PeelOrder(GroupOf(s, e.root), e.order)
    && (e.root in s.linked ==> Unreferenced(s, e.pending, e.root))
    && forall l :: l in e.order ==> l !in e.pending
  }

  /** The history only ever grows. */
  ghost predicate Extends(log: seq<TornDown>, longer: seq<TornDown>)
  {
    log <= longer
  }

  lemma SameLog(log: seq<TornDown>)
    ensures Extends(log, log)
  {
  }

  lemma StillLonger(a: seq<TornDown>, b: seq<TornDown>, c: seq<TornDown>)
    requires Extends(a, b) && Extends(b, c)
    ensures Extends(a, c)
  {
  }

  /** What was added to the history starts with the teardown of the group of `root` in state `s`. */
  ghost predicate Began(log: seq<TornDown>, longer: seq<TornDown>, s: State, pending: seq<Lib>, root: Lib)
  {
    |log| < |longer| && longer[|log|].before == s && longer[|log|].pending == pending && longer[|log|].root == root
  }

  lemma StillBegan(a: seq<TornDown>, b: seq<TornDown>, c: seq<TornDown>, s: State, pending: seq<Lib>, root: Lib)
    requires Began(a, b, s, pending, root) && Extends(b, c)
    ensures Began(a, c, s, pending, root)
  {
  }

  /** Every teardown from the `n`th on took everything that hung on its root. */
  ghost predicate AllWhole(log: seq<TornDown>, n: nat)
  {
    forall i :: n <= i < |log| ==> Whole(log[i].before, log[i].root)
  }

  lemma NoneAdded(log: seq<TornDown>)
    ensures AllWhole(log, |log|)
  {
  }

  lemma OneAdded(log: seq<TornDown>, e: TornDown)
    ensures AllWhole(log + [e], |log|) <==> Whole(e.before, e.root)
  {
    assert (log + [e])[|log|] == e;
  }

  lemma WholeTwice(a: seq<TornDown>, b: seq<TornDown>, c: seq<TornDown>)
    requires Extends(a, b) && Extends(b, c)
    ensures AllWhole(c, |a|) <==> AllWhole(b, |a|) && AllWhole(c, |b|)
  {
    forall i | |a| <= i < |b| ensures b[i] == c[i] { }
  }

  /** From `s` with history `log` to `t` with history `longer`: what is left behind is told by the teardowns in between. */
  ghost predicate Neat(s: State, log: seq<TornDown>, t: State, longer: seq<TornDown>)
  {
    Extends(log, longer) && Tidy(s, t, AllWhole(longer, |log|))
  }

  lemma NeatTwice(s: State, a: seq<TornDown>, t: State, b: seq<TornDown>, u: State, c: seq<TornDown>)
    requires Neat(s, a, t, b) && Neat(t, b, u, c)
    ensures Neat(s, a, u, c)
  {
    WholeTwice(a, b, c);
    TidyTwice(s, t, u, AllWhole(b, |a|), AllWhole(c, |b|));
  }

  lemma NeatSame(s: State, t: State, log: seq<TornDown>)
    requires SameGroups(s, t)
    ensures Neat(s, log, t, log)
  {
    NoneAdded(log);
    TidySame(s, t);
  }

  ghost predicate FreedIn(log: seq<TornDown>, l: Lib)
  {
    exists i :: 0 <= i < |log| && l in log[i].order
  }

  /** The libraries that are not loaded any more are those that were unloaded, each of them once. */
  ghost predicate Once(log: seq<TornDown>, live: set<Lib>, next: nat)
  {
    && (forall l: Lib :: l < next ==> (l in live <==> !FreedIn(log, l)))
    && (forall l: Lib :: FreedIn(log, l) ==> l < next)
    && (forall i, j :: 0 <= i < j < |log| ==> Elems(log[i].order) !! Elems(log[j].order))
  }

  /** Every teardown so far was safe, and nothing was unloaded twice. */
  ghost predicate History(log: seq<TornDown>, live: set<Lib>, next: nat)
  {
    (forall i :: 0 <= i < |log| ==> Safe(log[i])) && Once(log, live, next)
  }

  lemma OrderIsLoaded(e: TornDown, l: Lib)
    requires Safe(e) && l in e.order
    ensures l in e.before.live && l < e.before.next
  {
    PeelMembers(GroupOf(e.before, e.root), e.order, l);
  }

  /** What is loaded was not unloaded before. */
  lemma NotFreedAgain(log: seq<TornDown>, order: seq<Lib>, live: set<Lib>, next: nat, i: nat)
    requires Once(log, live, next) && (forall l :: l in order ==> l in live && l < next) && i < |log|
    ensures Elems(log[i].order) !! Elems(order)
  {
    forall l | l in log[i].order ensures l !in order {
      assert FreedIn(log, l);
    }
  }

  lemma OnceGrows(log: seq<TornDown>, e: TornDown, live: set<Lib>, next: nat)
    requires Once(log, live, next) && forall l :: l in e.order ==> l in live && l < next
    ensures Once(log + [e], live - Elems(e.order), next)
  {
    var longer := log + [e];
    forall l: Lib ensures FreedIn(longer, l) <==> FreedIn(log, l) || l in e.order {
      FreedInGrows(log, e, l);
    }
    forall i, j | 0 <= i < j < |longer| ensures Elems(longer[i].order) !! Elems(longer[j].order) {
      if j == |log| {
        NotFreedAgain(log, e.order, live, next, i);
      }
    }
  }

  lemma HistoryGrows(log: seq<TornDown>, e: TornDown, live: set<Lib>, next: nat)
    requires History(log, live, next) && Safe(e)
    requires e.before.live == live && e.before.next == next
    ensures History(log + [e], live - Elems(e.order), next)
  {
    forall l | l in e.order ensures l in live && l < next {
      OrderIsLoaded(e, l);
    }
    OnceGrows(log, e, live, next);
    StillSafe(log, e);
  }

  lemma StillSafe(log: seq<TornDown>, e: TornDown)
    requires (forall i :: 0 <= i < |log| ==> Safe(log[i])) && Safe(e)
    ensures forall i :: 0 <= i < |log + [e]| ==> Safe((log + [e])[i])
  {
  }

  lemma OnceMore(log: seq<TornDown>, live: set<Lib>, next: nat, live': set<Lib>, next': nat)
    requires Once(log, live, next) && Grew(live, next, live', next')
    ensures Once(log, live', next')
  {
  }

  lemma HistoryMore(log: seq<TornDown>, live: set<Lib>, next: nat, live': set<Lib>, next': nat)
    requires History(log, live, next) && Grew(live, next, live', next')
    ensures History(log, live', next')
  {
    OnceMore(log, live, next, live', next');
  }

  lemma FreedInGrows(log: seq<TornDown>, e: TornDown, l: Lib)
    ensures FreedIn(log + [e], l) <==> FreedIn(log, l) || l in e.order
  {
    var longer := log + [e];
    assert longer[|log|] == e;
    if FreedIn(log, l) {
      var i :| 0 <= i < |log| && l in log[i].order;
      assert longer[i] == log[i];
    }
  }

  /** Takes the group of `root` down, up to the release of its external references. */
  method TearDown(s: State, root: Lib, ghost rest: seq<Lib>, ghost log: seq<TornDown>)
    returns (t: State, ext: seq<Lib>, ghost longer: seq<TornDown>)
    requires Inv(s, rest) && Starts(s, root) && History(log, s.live, s.next)
    ensures Inv(t, Waits(s, root, ext, rest)) && Shrunk(s, t)
    ensures History(longer, t.live, t.next) && Extends(log, longer)
    ensures TotalRefs(t.refs, t.next) == TotalRefs(s.refs, s.next)
    ensures root !in t.live && |longer| == |log| + 1 && Began(log, longer, s, rest, root)
    ensures Removed(s, t, longer[|log|].order)
    ensures if root in s.linked then Neat(s, log, t, longer) else forall l :: l in s.linked ==> l in t.linked
  {
    ghost var g := GroupOf(s, root);
    GroupOverEdges(s, root);
    var edges, local;
    edges, local, ext := TakeApart(Edges(s.children, s.parents), s.linked, s.groupRoot, root, g);
    var severed := s.(children := edges.children, parents := edges.parents);
    TakenApart(s, severed, root, g, local, ext, rest);
    TakenFreeable(s, severed, root, g, local, ext, rest);
    t := FreeAll(severed, local);
    FreeSeqInv(severed, local, Waits(s, root, ext, rest));
    AfterFreeing(s, severed, local, Waits(s, root, ext, rest), t);
    WasSafe(s, root, local, ext, rest);
    ghost var e := TornDown(s, rest, root, local);
    HistoryGrows(log, e, s.live, s.next);
    longer := log + [e];
    assert root == local[0];
    if root in s.linked {
      TakenTidily(s, root, local, t);
      OneAdded(log, e);
    } else {
      LinkedStay(s, root, local);
    }
  }

  /** The teardown of a group of unlinked libraries leaves all linked ones. */
  lemma LinkedStay(s: State, root: Lib, local: seq<Lib>)
    requires WellFormed(s) && root in s.live && root !in s.linked
    requires GroupOf(s, root).Valid() && PeelOrder(GroupOf(s, root), local)
    ensures forall l :: l in s.linked ==> l !in local
  {
    forall l | l in local ensures l !in s.linked {
      var i :| 0 <= i < |local| && local[i] == l;
      MembersAlike(s, root, GroupOf(s, root), local, i);
    }
  }

  lemma AfterFreeing(s: State, severed: State, local: seq<Lib>, pending: seq<Lib>, t: State)
    requires Domains(s) && Symmetric(s) && severed == s.(children := severed.children, parents := severed.parents)
    requires EdgesOf(s).Valid() && Severed(EdgesOf(s), EdgesOf(severed), local)
    requires Domains(severed) && AllFreeable(severed, local, pending) && t == FreeSeq(severed, local)
    ensures t.live == s.live - Elems(local) && TotalRefs(t.refs, t.next) == TotalRefs(s.refs, s.next)
    ensures Removed(s, t, local)
  {
    Freed(s, severed, local, pending, t);
    DependantsStay(s, severed, local, t);
  }

  lemma Freed(s: State, severed: State, local: seq<Lib>, pending: seq<Lib>, t: State)
    requires severed == s.(children := severed.children, parents := severed.parents)
    requires Domains(severed) && AllFreeable(severed, local, pending) && t == FreeSeq(severed, local)
    ensures t.live == s.live - Elems(local) && TotalRefs(t.refs, t.next) == TotalRefs(s.refs, s.next)
    ensures Shrunk(s, t) && SameRefs(s, t)
  {
    FreeSeqRefs(severed, local);
    FreeSeqShrinks(severed, local, pending);
  }

  lemma WasSafe(s: State, root: Lib, local: seq<Lib>, ext: seq<Lib>, rest: seq<Lib>)
    requires Inv(s, rest) && Starts(s, root)
    requires GroupOf(s, root).Valid() && PeelOrder(GroupOf(s, root), local)
    requires forall i :: 0 <= i < |local| ==> local[i] !in Waits(s, root, ext, rest)
    ensures Safe(TornDown(s, rest, root, local))
  {
    if root in s.linked {
      assert Balanced(s, rest, root);
      ZeroMeansUnreferenced(s, rest, root);
    }
  }

  /** `decrement_ref_count` on the group of `r`. */
  function Decremented(s: State, r: Lib): State
    requires r in s.refs && s.refs[r] > 0
  {
    s.(refs := s.refs[r := s.refs[r] - 1])
  }

  lemma ReleaseAccounts(s: State, si: Lib, rest: seq<Lib>, root: Lib)
    requires Accounts(s, [si] + rest)
    requires si in s.groupRoot && s.groupRoot[si] == root && root in s.live && root in s.refs && s.refs[root] > 0
    ensures Accounts(Decremented(s, root), rest)
  {
    var t := Decremented(s, root);
    assert ([si] + rest)[1..] == rest;
    forall r: Lib ensures Balanced(t, rest, r) {
      assert Balanced(s, [si] + rest, r);
      HeldSame(s, t, r, s.next);
    }
  }

  /** A pending reference keeps the root of its group loaded, with a reference count above zero. */
  lemma ReleaseRoot(s: State, si: Lib, rest: seq<Lib>)
    requires Inv(s, [si] + rest)
    ensures si in s.linked
    ensures s.groupRoot[si] in s.live && s.groupRoot[si] < s.next
    ensures LeadsItself(s, s.groupRoot[si]) && s.refs[s.groupRoot[si]] > 0
  {
    assert si in [si] + rest;
    ReferredRootIsLive(s, [si] + rest, si);
  }

  lemma ReleaseInv(s: State, si: Lib, rest: seq<Lib>, root: Lib)
    requires Inv(s, [si] + rest)
    requires si in s.linked && s.groupRoot[si] == root && root in s.live && s.refs[root] > 0
    ensures Inv(Decremented(s, root), rest)
  {
    ReleaseAccounts(s, si, rest, root);
    RefsOnly(s, Decremented(s, root));
    forall p | p in rest ensures p in s.linked {
      assert p in [si] + rest;
    }
  }

  /** Releasing a pending reference takes one off the reference count of its group, which is never zero. */
  lemma Release(s: State, si: Lib, rest: seq<Lib>) returns (r: Lib, t: State)
    requires Inv(s, [si] + rest)
    ensures si in s.linked && r == s.groupRoot[si] && r in s.live && s.refs[r] > 0 && t == Decremented(s, r)
    ensures Inv(t, rest) && r in t.live && t.groupRoot[r] == r && Shrunk(s, t)
    ensures TotalRefs(t.refs, t.next) == TotalRefs(s.refs, s.next) - 1
  {
    ReleaseRoot(s, si, rest);
    r := s.groupRoot[si];
    t := Decremented(s, r);
    ReleaseInv(s, si, rest, r);
    TotalDrops(s.refs, r, s.next);
  }

  lemma NextReference(s: State, ext: seq<Lib>, rest: seq<Lib>)
    requires Inv(s, ext + rest) && ext != []
    ensures ext + rest == [ext[0]] + (ext[1..] + rest)
    ensures ext[0] in s.linked && ext[0] in s.live
  {
    assert ext[0] in ext + rest;
  }

  /** The reference on the group of `l` is its last, and the group is not flagged to stay. */
  ghost predicate Last(s: State, l: Lib)
  {
    l in s.linked ==> l in s.groupRoot && s.groupRoot[l] in s.refs && s.refs[s.groupRoot[l]] == 1 && s.groupRoot[l] !in s.keep
  }

  /** The root of the group that a reference on `l` is about. */
  function RootOf(s: State, l: Lib): Lib
  {
    if l in s.linked && l in s.groupRoot then s.groupRoot[l] else l
  }

  /** The state when a reference on `l` has been given back, and nothing has been unloaded yet. */
  function GivenBack(s: State, l: Lib): State
  {
    var r := RootOf(s, l);
    if l in s.linked && r in s.refs && s.refs[r] > 0 then Decremented(s, r) else s
  }

  lemma StillUsed(s: State, t: State, root: Lib)
    requires UsedBut(s, root) && Shrunk(s, t) && SameRefs(s, t) && root !in t.live
    ensures AllUsed(t)
  {
    forall r ensures !Unused(t, r) {
      assert Unused(t, r) ==> Unused(s, r);
    }
  }

  lemma LessUsed(s: State, r: Lib)
    requires AllUsed(s) && r in s.refs && s.refs[r] > 0
    ensures UsedBut(Decremented(s, r), r)
    ensures s.refs[r] > 1 || r in s.keep ==> AllUsed(Decremented(s, r))
  {
    var t := Decremented(s, r);
    forall x ensures Unused(t, x) ==> x == r && t.refs[r] == 0 && r !in t.keep {
      assert Unused(t, x) && x != r ==> Unused(s, x);
    }
  }

  /** The books are in order while the references in `pending` wait to be released, and so is the history. */
  ghost predicate Books(s: State, pending: seq<Lib>, log: seq<TornDown>)
  {
    Inv(s, pending) && History(log, s.live, s.next)
  }

  /** One teardown that took no linked library. */
  ghost predicate TookLoose(s: State, log: seq<TornDown>, t: State, longer: seq<TornDown>)
  {
    |longer| == |log| + 1 && Removed(s, t, longer[|log|].order) && forall l :: l in s.linked ==> l in t.linked
  }

  /** `soinfo_unload`: gives one reference on the group of `si` back. The reference has left the books already,
      `rest` are the references that the calls this one is nested in have still to release. */
  method SoinfoUnload(s0: State, si: Lib, ghost rest: seq<Lib>, ghost log0: seq<TornDown>) returns (s: State, ghost log: seq<TornDown>)
    requires si in s0.live && Books(s0, if si in s0.linked then [si] + rest else rest, log0) && AllUsed(s0)
    ensures Books(s, rest, log) && Shrunk(s0, s) && Extends(log0, log) && AllUsed(s)
    ensures if Last(s0, si) then RootOf(s0, si) !in s.live && Began(log0, log, GivenBack(s0, si), rest, RootOf(s0, si))
            else s == GivenBack(s0, si) && log == log0
    ensures if si in s0.linked then Neat(s0, log0, s, log) else TookLoose(s0, log0, s, log)
    ensures TotalRefs(s.refs, s.next) <= TotalRefs(s0.refs, s0.next) - if si in s0.linked then 1 else 0
    decreases TotalRefs(s0.refs, s0.next), 1
  {
    if si in s0.linked {
      ghost var _, _ := Release(s0, si, rest);
      var root := s0.groupRoot[si];
      LessUsed(s0, root);
      s, log := Decremented(s0, root), log0;
      SameLog(log);
      NeatSame(s0, s, log);
      if s.refs[root] == 0 {
        ghost var before := s;
        s, log := SoinfoUnloadImpl(s, root, rest, log);
        ShrinkTwice(s0, before, s);
        NeatTwice(s0, log0, before, log0, s, log);
      }
    } else {
      s, log := SoinfoUnloadImpl(s0, si, rest, log0);
    }
  }

  /** `soinfo_unload_impl`: takes the group of `root` down unless it is flagged to stay, and releases the references
      it held on other groups. */
  method SoinfoUnloadImpl(s0: State, root: Lib, ghost rest: seq<Lib>, ghost log0: seq<TornDown>) returns (s: State, ghost log: seq<TornDown>)
    requires Books(s0, rest, log0) && root in s0.live
    requires root in s0.linked ==> s0.groupRoot[root] == root && s0.refs[root] == 0
    requires UsedBut(s0, root)
    ensures Books(s, rest, log) && Shrunk(s0, s) && Extends(log0, log) && AllUsed(s)
    ensures if root in s0.linked && root in s0.keep then s == s0 && log == log0
            else root !in s.live && Began(log0, log, s0, rest, root)
    ensures if root in s0.linked then Neat(s0, log0, s, log) else TookLoose(s0, log0, s, log)
    ensures TotalRefs(s.refs, s.next) <= TotalRefs(s0.refs, s0.next)
    decreases TotalRefs(s0.refs, s0.next) + (if root in s0.linked then 1 else 0), 0
  {
    if root in s0.linked && root in s0.keep {
      SameLog(log0);
      NeatSame(s0, s0, log0);
      return s0, log0;
    }
    var ext;
    s, ext, log := TearDown(s0, root, rest, log0);
    StillUsed(s0, s, root);
    if root in s0.linked {
      ghost var before, sofar := s, log;
      s, log := ReleaseAll(s, ext, rest, log);
      ShrinkTwice(s0, before, s);
      StillLonger(log0, sofar, log);
      StillBegan(log0, sofar, log, s0, rest, root);
      NeatTwice(s0, log0, before, sofar, s, log);
    }
  }

  /** The loop at the end of `soinfo_unload_impl`: releases the external references. */
  method ReleaseAll(s0: State, external: seq<Lib>, ghost rest: seq<Lib>, ghost log0: seq<TornDown>) returns (s: State, ghost log: seq<TornDown>)
    requires Books(s0, external + rest, log0) && AllUsed(s0)
    ensures Books(s, rest, log) && Shrunk(s0, s) && Extends(log0, log) && AllUsed(s) && Neat(s0, log0, s, log)
    ensures TotalRefs(s.refs, s.next) <= TotalRefs(s0.refs, s0.next)
    decreases TotalRefs(s0.refs, s0.next), 2
  {
    s, log := s0, log0;
    var ext := external;
    ghost var pending := external + rest;
    SameLog(log);
    NeatSame(s, s, log);
    while ext != []
      invariant pending == ext + rest && Books(s, pending, log) && Shrunk(s0, s) && Extends(log0, log) && AllUsed(s) && Neat(s0, log0, s, log)
      invariant TotalRefs(s.refs, s.next) <= TotalRefs(s0.refs, s0.next)
      decreases |ext|
    {
      NextReference(s, ext, rest);
      pending := ext[1..] + rest;
      ghost var before, sofar := s, log;
      s, log := SoinfoUnload(s, ext[0], pending, log);
      ShrinkTwice(s0, before, s);
      StillLonger(log0, sofar, log);
      NeatTwice(s0, log0, before, sofar, s, log);
      ext := ext[1..];
    }
    assert ext + rest == rest;
  }

  /** Gives one reference back, with nothing else pending. */
  method GiveBack(s0: State, l: Lib, ghost log0: seq<TornDown>) returns (s: State, ghost log: seq<TornDown>)
    requires Books(s0, [l], log0) && AllUsed(s0)
    ensures Books(s, [], log) && Shrunk(s0, s) && Extends(log0, log) && AllUsed(s) && Neat(s0, log0, s, log)
    ensures if Last(s0, l) then RootOf(s0, l) !in s.live && Began(log0, log, GivenBack(s0, l), [], RootOf(s0, l))
            else s == GivenBack(s0, l) && log == log0
  {
    assert [l] + [] == [l];
    assert l in [l];
    s, log := SoinfoUnload(s0, l, [], log0);
  }
}
