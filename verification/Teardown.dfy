/**
  The effect of tearing down one load group on the loader's state: edges are taken away one by
  one, edges into other groups become pending references, and the libraries taken are freed.
 */
module Teardown {
  import opened Basics
  import opened Soinfo
  import opened Peeling
  import opened UnloadLoop

  /** The group that is torn down with `root`. */
  ghost function GroupOf(s: State, root: Lib): Group
  {
    Group(root,
          set l | l in s.live && Candidate(s.linked, s.groupRoot, root, l),
          map l | l in s.parents :: Elems(s.parents[l]))
  }

  // ---------------------------------------------------------------------------------
  // Accounting
  // ---------------------------------------------------------------------------------

  /** The libraries in `local` have given up their children. */
  ghost function Emptied(children: map<Lib, seq<Lib>>, local: seq<Lib>): map<Lib, seq<Lib>>
  {
    map l | l in children :: if l in local then [] else children[l]
  }

  /** Only edges into other groups count for other groups. */
  lemma {:induction false} OutsideCounts(linked: set<Lib>, groupRoot: map<Lib, Lib>, root: Lib, libs: seq<Lib>, r: Lib)
    requires linked <= groupRoot.Keys
    requires forall c :: c in libs ==> c in linked
    ensures CountInto(Outside(linked, groupRoot, root, libs), groupRoot, r) == if r == root then 0 else CountInto(libs, groupRoot, r)
  {
    if libs != [] {
      var n := |libs| - 1;
      assert libs == libs[..n] + [libs[n]];
      OutsideCounts(linked, groupRoot, root, libs[..n], r);
      CountConcat(libs[..n], [libs[n]], groupRoot, r);
      CountConcat(Outside(linked, groupRoot, root, libs[..n]), if Candidate(linked, groupRoot, root, libs[n]) then [] else [libs[n]], groupRoot, r);
    }
  }

  /** `l` can give up its edges as a member of the linked group of `root`. */
  ghost predicate Member(s: State, root: Lib, l: Lib)
  {
    && l < s.next && l in s.live && l in s.linked && l in s.groupRoot && s.groupRoot[l] == root && l != s.exe && l in s.children
    && forall c :: c in s.children[l] ==> c in s.linked
  }

  lemma SeverOne(s: State, root: Lib, local: seq<Lib>, l: Lib, r: Lib)
    requires s.linked <= s.groupRoot.Keys
    requires Member(s, root, l) && l !in local
    ensures Held(s.(children := Emptied(s.children, local + [l])), r, s.next)
            + CountInto(Outside(s.linked, s.groupRoot, root, s.children[l]), s.groupRoot, r)
            == Held(s.(children := Emptied(s.children, local)), r, s.next)
  {
    var a := s.(children := Emptied(s.children, local));
    var b := s.(children := Emptied(s.children, local + [l]));
    HeldChange(a, b, r, s.next, l);
    OutsideCounts(s.linked, s.groupRoot, root, s.children[l], r);
  }

  /** What the members of the group held on other groups is what goes on the external unload list. */
  lemma {:induction false} SeverHeld(s: State, root: Lib, local: seq<Lib>, r: Lib)
    requires s.linked <= s.groupRoot.Keys
    requires forall i, j :: 0 <= i < j < |local| ==> local[i] != local[j]
    requires forall i :: 0 <= i < |local| ==> Member(s, root, local[i])
    ensures Held(s.(children := Emptied(s.children, local)), r, s.next)
            + CountInto(OutsideAll(s.children, s.linked, s.groupRoot, root, local), s.groupRoot, r) == Held(s, r, s.next)
  {
    if local == [] {
      assert Emptied(s.children, local) == s.children;
    } else {
      var n := |local| - 1;
      var l, short := local[n], local[..n];
      SeverHeld(s, root, short, r);
      assert Member(s, root, local[n]);
      assert local == short + [l];
      SeverOne(s, root, short, l, r);
      OutsideAllGrows(s.children, s.linked, s.groupRoot, root, short, l);
      CountConcat(OutsideAll(s.children, s.linked, s.groupRoot, root, short),
                  Outside(s.linked, s.groupRoot, root, s.children[l]), s.groupRoot, r);
    }
  }

  /** The references that wait while the group of `root` is taken apart: an unlinked library never took any. */
  ghost function Waits(s: State, root: Lib, ext: seq<Lib>, rest: seq<Lib>): seq<Lib>
  {
    if root in s.linked then ext + rest else rest
  }

  lemma SeverAccounts(s: State, t: State, root: Lib, local: seq<Lib>, rest: seq<Lib>)
    requires Accounts(s, rest)
    requires t == s.(children := Emptied(s.children, local), parents := t.parents)
    requires s.linked <= s.groupRoot.Keys
    requires forall i, j :: 0 <= i < j < |local| ==> local[i] != local[j]
    requires forall i :: 0 <= i < |local| ==> if root in s.linked then Member(s, root, local[i]) else local[i] !in s.linked
    ensures Accounts(t, Waits(s, root, OutsideAll(s.children, s.linked, s.groupRoot, root, local), rest))
  {
    var ext := OutsideAll(s.children, s.linked, s.groupRoot, root, local);
    var u := s.(children := Emptied(s.children, local));
    forall r: Lib ensures Balanced(t, Waits(s, root, ext, rest), r) {
      assert Balanced(s, rest, r);
      HeldSame(t, u, r, s.next);
      if root in s.linked {
        SeverHeld(s, root, local, r);
        CountConcat(ext, rest, s.groupRoot, r);
      } else {
        HeldSame(s, u, r, s.next);
      }
    }
  }

  // ---------------------------------------------------------------------------------
  // Freeing
  // ---------------------------------------------------------------------------------

  /** `remove_all_links`: `x` disappears from every list. */
  function DropLib(m: map<Lib, seq<Lib>>, x: Lib): (m': map<Lib, seq<Lib>>)
    ensures m'.Keys == m.Keys - {x}
    ensures forall l :: l in m' ==> m'[l] == Without(m[l], x)
  {
    map l | l in m && l != x :: Without(m[l], x)
  }

  /** `soinfo_free`. */
  function FreeOne(s: State, x: Lib): State
  {
    s.(live := s.live - {x}, linked := s.linked - {x},
       children := DropLib(s.children, x), parents := DropLib(s.parents, x),
       refs := s.refs - {x}, opens := s.opens - {x}, image := s.image - {x},
       namespace := s.namespace - {x}, secondary := s.secondary - {x})
  }

  /** What the unloader has made sure of before it frees a library. */
  ghost predicate Freeable(s: State, x: Lib)
    requires Domains(s)
  {
    && x in s.live && (x == s.exe ==> x !in s.linked)
    && s.children[x] == []
    && s.refs[x] == 0 && s.opens[x] == 0 && DsoIn(s.dso, s.image[x]) == {}
    && (x in s.linked ==>
          && s.groupRoot[x] !in s.keep
          && forall p {:trigger p in s.parents[x]} :: p in s.parents[x] && p in s.linked ==> s.groupRoot[p] == s.groupRoot[x])
  }

  lemma FreeKeepsShape(s: State, x: Lib)
    requires WellFormed(s) && Freeable(s, x)
    ensures WellFormed(FreeOne(s, x))
  {
    FreeKeepsEdges(s, x);
    FreeKeepsGroups(s, x);
    FreeKeepsPinned(s, x);
    FreeKeepsHandles(s, x);
  }

  lemma FreeKeepsEdges(s: State, x: Lib)
    requires Domains(s) && Symmetric(s)
    ensures Domains(FreeOne(s, x)) && Symmetric(FreeOne(s, x))
  {
  }

  lemma FreeKeepsGroups(s: State, x: Lib)
    requires Domains(s) && Symmetric(s) && GroupsFormed(s) && Freeable(s, x)
    ensures Domains(FreeOne(s, x)) && GroupsFormed(FreeOne(s, x))
  {
    var t := FreeOne(s, x);
    FreeKeepsDomains(s, x);
    forall l | l in t.linked && t.groupRoot[l] in t.live ensures LeadsItself(t, t.groupRoot[l]) {
      assert LeadsItself(s, s.groupRoot[l]);
    }
  }

  lemma FreeKeepsPinned(s: State, x: Lib)
    requires Domains(s) && GroupsFormed(s) && Pinned(s) && Freeable(s, x)
    ensures Domains(FreeOne(s, x)) && Pinned(FreeOne(s, x))
  {
    var t := FreeOne(s, x);
    FreeKeepsDomains(s, x);
    if t.exe in t.linked {
      forall c | c in t.children[t.exe] && c in t.linked ensures t.groupRoot[c] in t.live && t.groupRoot[c] in t.keep {
        assert c in s.children[s.exe];
        assert LeadsItself(s, s.groupRoot[c]);
      }
    }
  }

  lemma FreeKeepsHandles(s: State, x: Lib)
    requires Domains(s) && HandlesOwned(s) && Freeable(s, x)
    ensures Domains(FreeOne(s, x)) && HandlesOwned(FreeOne(s, x))
  {
    DropImage(s.linked, s.image, s.dso, x);
  }

  lemma DropImage(linked: set<Lib>, images: map<Lib, set<Address>>, dso: map<Address, nat>, x: Lib)
    requires Apart(images) && Owned(linked, images, dso)
    requires x in images && DsoIn(dso, images[x]) == {}
    ensures Apart(images - {x}) && Owned(linked - {x}, images - {x}, dso)
  {
    forall h | h in dso && dso[h] > 0 ensures exists l :: l in linked - {x} && l in images - {x} && h in (images - {x})[l] {
      var l :| l in linked && l in images && h in images[l];
      assert h !in DsoIn(dso, images[x]);
      assert l in images - {x};
    }
  }

  lemma FreeKeepsBalance(s: State, pending: seq<Lib>, x: Lib, r: Lib)
    requires WellFormed(s) && Freeable(s, x)
    requires Balanced(s, pending, r)
    ensures Balanced(FreeOne(s, x), pending, r)
  {
    var t := FreeOne(s, x);
    forall l: Lib | l < s.next ensures Contribution(s, l, r) == Contribution(t, l, r) {
      FreeKeepsContribution(s, x, l, r);
    }
    HeldSame(s, t, r, s.next);
  }

  lemma FreeKeepsContribution(s: State, x: Lib, l: Lib, r: Lib)
    requires WellFormed(s) && Freeable(s, x)
    ensures Contribution(s, l, r) == Contribution(FreeOne(s, x), l, r)
  {
    if l != x && l in s.linked && s.groupRoot[l] != r && l != s.exe {
      if x in s.linked && s.groupRoot[x] == r {
        assert x !in s.children[l];
      } else if x in s.linked {
        CountWithout(s.children[l], x, s.groupRoot, r);
      } else {
        assert x !in s.children[l];
      }
    }
  }

  lemma FreeKeepsFreeable(s: State, x: Lib, y: Lib)
    requires Domains(s) && Freeable(s, x) && Freeable(s, y) && x != y
    ensures Domains(FreeOne(s, x)) && Freeable(FreeOne(s, x), y)
  {
  }

  // ---------------------------------------------------------------------------------
  // The unload loop
  // ---------------------------------------------------------------------------------

  ghost function EdgesOf(s: State): Edges {
    Edges(s.children, s.parents)
  }

  lemma GroupOverEdges(s: State, root: Lib)
    requires Domains(s) && Symmetric(s)
    requires root in s.live && Candidate(s.linked, s.groupRoot, root, root)
    ensures EdgesOf(s).Valid() && Over(EdgesOf(s), GroupOf(s, root))
  {
  }

  ghost predicate Starts(s: State, root: Lib)
    requires Domains(s)
  {
    root in s.live && (root in s.linked ==> s.groupRoot[root] == root && s.refs[root] == 0 && root !in s.keep)
  }

  /** Members of a linked group are linked, and members of an unlinked one are not. */
  lemma {:induction false} MembersAlike(s: State, root: Lib, g: Group, local: seq<Lib>, i: nat)
    requires WellFormed(s) && Starts(s, root) && g == GroupOf(s, root)
    requires g.Valid() && PeelPrefix(g, local)
    requires i < |local|
    ensures local[i] in s.live
    ensures if root in s.linked then local[i] in s.linked && s.groupRoot[local[i]] == root else local[i] !in s.linked
  {
    var x := local[i];
    PeelMembers(g, local, x);
    if i > 0 && root in s.linked {
      assert Ready(g, Elems(local[..i]), x);
      var p :| p in g.dependants[x];
      DependantsFirst(g, local, i, p);
      var j :| 0 <= j < i && local[j] == p;
      MembersAlike(s, root, g, local, j);
      assert p in s.parents[x];
      assert x in s.children[p];
    } else if i > 0 {
      assert !LeadsItself(s, root);
    }
  }

  /** What a linked root reaches inside its group is linked, with this root. */
  lemma {:induction false} ChainAlike(s: State, root: Lib, p: seq<Lib>, l: Lib)
    requires WellFormed(s) && root in s.linked && s.groupRoot[root] == root && ChainTo(GroupOf(s, root), p, l)
    ensures l in s.linked && s.groupRoot[l] == root
    decreases |p|
  {
    var g := GroupOf(s, root);
    if |p| > 1 {
      var n := |p| - 1;
      var q := p[..n];
      forall i | 0 <= i < |q| - 1 ensures Step(g, q, i) {
        assert Step(g, p, i);
      }
      assert Step(g, p, n - 1);
      ChainAlike(s, root, q, p[n - 1]);
      assert p[n - 1] in s.parents[l];
      assert l in s.children[p[n - 1]];
    }
  }

  /** A library of the group of `root`. */
  ghost predicate Led(s: State, root: Lib, l: Lib)
  {
    l in s.live && l in s.linked && l in s.groupRoot && s.groupRoot[l] == root
  }

  ghost predicate WholeGroup(s: State, root: Lib, libs: seq<Lib>)
  {
    forall l :: Led(s, root, l) ==> l in libs
  }

  ghost predicate HangsTogether(s: State, root: Lib)
  {
    forall l :: Led(s, root, l) ==> Reach(GroupOf(s, root), l)
  }

  /** A teardown leaves no member behind whose root is gone exactly if the group is collectable and hangs together. */
  lemma NoneStranded(s: State, root: Lib, order: seq<Lib>)
    requires WellFormed(s) && root in s.linked && s.groupRoot[root] == root
    requires GroupOf(s, root).Valid() && PeelOrder(GroupOf(s, root), order)
    ensures WholeGroup(s, root, order) <==> Collectable(GroupOf(s, root)) && HangsTogether(s, root)
  {
    var g := GroupOf(s, root);
    TeardownComplete(g, order);
    if WholeGroup(s, root, order) {
      forall l | Reach(g, l) ensures l in order {
        var p :| ChainTo(g, p, l);
        ChainAlike(s, root, p, l);
        assert Led(s, root, l);
      }
    }
  }

  lemma SeveredEdges(s0: State, s: State, local: seq<Lib>)
    requires Domains(s0) && Symmetric(s0)
    requires s == s0.(children := s.children, parents := s.parents)
    requires EdgesOf(s0).Valid() && Severed(EdgesOf(s0), EdgesOf(s), local)
    ensures Domains(s) && Symmetric(s)
    ensures forall l :: l in s0.live ==> s.children[l] == [] || s.children[l] == s0.children[l]
  {
    SeveredIsValid(EdgesOf(s0), EdgesOf(s), local);
  }

  lemma SeveredGroups(s0: State, s: State)
    requires Domains(s0) && GroupsFormed(s0) && Pinned(s0)
    requires s == s0.(children := s.children, parents := s.parents) && Domains(s)
    requires forall l :: l in s0.live ==> s.children[l] == [] || s.children[l] == s0.children[l]
    ensures GroupsFormed(s) && Pinned(s)
  {
    forall l | l in s.linked && s.groupRoot[l] in s.live ensures LeadsItself(s, s.groupRoot[l]) {
      assert LeadsItself(s0, s0.groupRoot[l]);
    }
  }

  lemma SeveredHandles(s0: State, s: State)
    requires Domains(s0) && HandlesOwned(s0)
    requires s == s0.(children := s.children, parents := s.parents) && Domains(s)
    ensures HandlesOwned(s)
  {
  }

  lemma SeveredShape(s0: State, s: State, local: seq<Lib>)
    requires WellFormed(s0)
    requires s == s0.(children := s.children, parents := s.parents)
    requires EdgesOf(s0).Valid() && Severed(EdgesOf(s0), EdgesOf(s), local)
    ensures WellFormed(s)
  {
    SeveredEdges(s0, s, local);
    SeveredGroups(s0, s);
    SeveredHandles(s0, s);
  }

  /** The invariant when the libraries of the unload order have no edges left. */
  lemma SeveredInv(s0: State, s: State, root: Lib, local: seq<Lib>, ext: seq<Lib>, rest: seq<Lib>)
    requires Inv(s0, rest)
    requires s == s0.(children := s.children, parents := s.parents)
    requires EdgesOf(s0).Valid() && Severed(EdgesOf(s0), EdgesOf(s), local)
    requires Accounts(s, Waits(s0, root, ext, rest))
    requires forall c :: c in ext ==> c in s0.linked && s0.groupRoot[c] != root
    ensures Inv(s, Waits(s0, root, ext, rest))
  {
    SeveredShape(s0, s, local);
  }

  lemma ReadyToFree(s0: State, s: State, root: Lib, local: seq<Lib>, rest: seq<Lib>, i: nat)
    requires Inv(s0, rest) && Starts(s0, root)
    requires GroupOf(s0, root).Valid() && PeelPrefix(GroupOf(s0, root), local)
    requires s == s0.(children := s.children, parents := s.parents) && Domains(s)
    requires EdgesOf(s0).Valid() && Severed(EdgesOf(s0), EdgesOf(s), local)
    requires i < |local|
    ensures Freeable(s, local[i]) && local[i] !in rest
  {
    var x := local[i];
    MembersAlike(s0, root, GroupOf(s0, root), local, i);
    assert x in local;
    assert Balanced(s0, rest, x);
    if root in s0.linked {
      assert Balanced(s0, rest, root);
      ZeroMeansUnreferenced(s0, rest, root);
    } else {
      LooseHasNoHandles(s0, x);
    }
    if x != root || root !in s0.linked {
      NobodyLed(s0, rest, x);
    }
  }

  lemma FreeKeepsAccounts(s: State, pending: seq<Lib>, x: Lib)
    requires WellFormed(s) && Accounts(s, pending) && Freeable(s, x)
    ensures Accounts(FreeOne(s, x), pending)
  {
    forall r: Lib ensures Balanced(FreeOne(s, x), pending, r) {
      assert Balanced(s, pending, r);
      FreeKeepsBalance(s, pending, x, r);
    }
  }

  lemma FreeShrinks(s: State, x: Lib)
    requires Domains(s) && Freeable(s, x)
    ensures TotalRefs(FreeOne(s, x).refs, s.next) == TotalRefs(s.refs, s.next)
    ensures Shrunk(s, FreeOne(s, x))
  {
    TotalSame(s.refs, FreeOne(s, x).refs, s.next);
  }

  /** Freeing one library keeps the invariant. */
  lemma FreeKeepsInv(s: State, pending: seq<Lib>, x: Lib)
    requires Inv(s, pending) && Freeable(s, x) && x !in pending
    ensures Inv(FreeOne(s, x), pending)
  {
    FreeKeepsShape(s, x);
    FreeKeepsAccounts(s, pending, x);
  }

  /** The state after the unload loop: the invariant holds, with the external unload list pending. */
  lemma TakenApart(s0: State, s: State, root: Lib, g: Group, local: seq<Lib>, ext: seq<Lib>, rest: seq<Lib>)
    requires Inv(s0, rest) && Starts(s0, root) && g == GroupOf(s0, root)
    requires g.Valid() && PeelPrefix(g, local)
    requires s == s0.(children := s.children, parents := s.parents)
    requires EdgesOf(s0).Valid() && Severed(EdgesOf(s0), EdgesOf(s), local)
    requires ext == OutsideAll(s0.children, s0.linked, s0.groupRoot, root, local)
    ensures Inv(s, Waits(s0, root, ext, rest))
  {
    forall i | 0 <= i < |local|
      ensures if root in s0.linked then Member(s0, root, local[i]) else local[i] !in s0.linked
    {
      LocalIsMember(s0, root, g, local, i);
    }
    SeveredIsEmptied(EdgesOf(s0), EdgesOf(s), local);
    SeverAccounts(s0, s, root, local, rest);
    OutsideAllMembers(s0, root, local);
    SeveredInv(s0, s, root, local, ext, rest);
  }

  /** Every library of the unload list can be freed. */
  lemma TakenFreeable(s0: State, s: State, root: Lib, g: Group, local: seq<Lib>, ext: seq<Lib>, rest: seq<Lib>)
    requires Inv(s0, rest) && Starts(s0, root) && g == GroupOf(s0, root)
    requires g.Valid() && PeelPrefix(g, local)
    requires s == s0.(children := s.children, parents := s.parents) && Domains(s)
    requires EdgesOf(s0).Valid() && Severed(EdgesOf(s0), EdgesOf(s), local)
    requires ext == OutsideAll(s0.children, s0.linked, s0.groupRoot, root, local)
    ensures AllFreeable(s, local, Waits(s0, root, ext, rest))
  {
    OutsideAllMembers(s0, root, local);
    forall i | 0 <= i < |local| ensures Freeable(s, local[i]) && local[i] !in Waits(s0, root, ext, rest) {
      ReadyToFree(s0, s, root, local, rest, i);
      LocalIsMember(s0, root, g, local, i);
    }
  }

  lemma SeveredIsEmptied(e0: Edges, e: Edges, local: seq<Lib>)
    requires e0.Valid() && Severed(e0, e, local)
    ensures e.children == Emptied(e0.children, local)
  {
  }

  lemma LocalIsMember(s: State, root: Lib, g: Group, local: seq<Lib>, i: nat)
    requires WellFormed(s) && Starts(s, root) && g == GroupOf(s, root)
    requires g.Valid() && PeelPrefix(g, local)
    requires i < |local|
    ensures if root in s.linked then Member(s, root, local[i]) else local[i] !in s.linked
  {
    MembersAlike(s, root, g, local, i);
  }

  /** External references are to linked libraries of other groups. */
  lemma {:induction false} OutsideAllMembers(s: State, root: Lib, local: seq<Lib>)
    requires s.linked <= s.groupRoot.Keys
    ensures forall c :: c in OutsideAll(s.children, s.linked, s.groupRoot, root, local) ==>
              c in s.linked && s.groupRoot[c] != root
  {
    if local != [] {
      OutsideAllMembers(s, root, local[..|local| - 1]);
      var l := local[|local| - 1];
      if l in s.children {
        OutsideMembers(s, root, s.children[l]);
      }
    }
  }

  lemma {:induction false} OutsideMembers(s: State, root: Lib, libs: seq<Lib>)
    requires s.linked <= s.groupRoot.Keys
    ensures forall c :: c in Outside(s.linked, s.groupRoot, root, libs) ==> c in s.linked && s.groupRoot[c] != root
  {
    if libs != [] {
      OutsideMembers(s, root, libs[..|libs| - 1]);
    }
  }

  /** All of `libs` can be freed, one after the other. */
  ghost predicate AllFreeable(s: State, libs: seq<Lib>, pending: seq<Lib>)
    requires Domains(s)
  {
    && (forall i, j :: 0 <= i < j < |libs| ==> libs[i] != libs[j])
    && (forall i :: 0 <= i < |libs| ==> Freeable(s, libs[i]) && libs[i] !in pending)
  }

  lemma NextFreeable(s: State, libs: seq<Lib>, pending: seq<Lib>)
    requires Domains(s) && libs != [] && AllFreeable(s, libs, pending)
    ensures Domains(FreeOne(s, libs[0])) && AllFreeable(FreeOne(s, libs[0]), libs[1..], pending)
  {
    var x, t := libs[0], FreeOne(s, libs[0]);
    assert Freeable(s, libs[0]);
    forall i | 0 <= i < |libs[1..]| ensures Domains(t) && Freeable(t, libs[1..][i]) && libs[1..][i] !in pending {
      assert libs[1..][i] == libs[i + 1];
      FreeKeepsFreeable(s, x, libs[i + 1]);
    }
    FreeKeepsDomains(s, x);
  }

  lemma FreeKeepsDomains(s: State, x: Lib)
    requires Domains(s)
    ensures Domains(FreeOne(s, x))
  {
  }

  /** `soinfo_free` on one library after the other. */
  function FreeSeq(s: State, libs: seq<Lib>): State
    decreases |libs|
  {
    if libs == [] then s else FreeSeq(FreeOne(s, libs[0]), libs[1..])
  }

  lemma {:induction false} FreeSeqInv(s: State, libs: seq<Lib>, pending: seq<Lib>)
    requires Inv(s, pending)
    requires AllFreeable(s, libs, pending)
    ensures Inv(FreeSeq(s, libs), pending)
    decreases |libs|
  {
    if libs != [] {
      assert Freeable(s, libs[0]) && libs[0] !in pending;
      NextFreeable(s, libs, pending);
      FreeKeepsInv(s, pending, libs[0]);
      FreeSeqInv(FreeOne(s, libs[0]), libs[1..], pending);
    }
  }

  lemma {:induction false} FreeSeqShrinks(s: State, libs: seq<Lib>, pending: seq<Lib>)
    requires Domains(s) && AllFreeable(s, libs, pending)
    ensures Shrunk(s, FreeSeq(s, libs)) && FreeSeq(s, libs).live == s.live - Elems(libs)
    ensures TotalRefs(FreeSeq(s, libs).refs, FreeSeq(s, libs).next) == TotalRefs(s.refs, s.next)
    decreases |libs|
  {
    if libs != [] {
      var t := FreeOne(s, libs[0]);
      assert Freeable(s, libs[0]);
      NextFreeable(s, libs, pending);
      FreeShrinks(s, libs[0]);
      FreeSeqShrinks(t, libs[1..], pending);
      ShrinkTwice(s, t, FreeSeq(t, libs[1..]));
      GoneTogether(s.live, libs);
    }
  }

  /** The counts of the libraries that stay are the same. */
  ghost predicate SameRefs(s: State, t: State)
  {
    forall l :: l in t.refs ==> l in s.refs && t.refs[l] == s.refs[l]
  }

  /** What depends on the libraries that stay are those of before that stay. */
  ghost predicate SameDependants(s: State, t: State)
  {
    forall l, p :: SameDependant(s, t, l, p)
  }

  ghost predicate SameDependant(s: State, t: State, l: Lib, p: Lib)
  {
    l in t.parents ==> l in s.parents && (p in t.parents[l] <==> p in s.parents[l] && p in t.live)
  }

  /** The edges when `libs` have been freed. */
  lemma {:induction false} FreeSeqParents(s: State, libs: seq<Lib>, l: Lib, p: Lib)
    requires l in FreeSeq(s, libs).parents
    ensures l in s.parents && (p in FreeSeq(s, libs).parents[l] <==> p in s.parents[l] && p !in libs)
    decreases |libs|
  {
    if libs != [] {
      FreeSeqParents(FreeOne(s, libs[0]), libs[1..], l, p);
      assert p in libs <==> p == libs[0] || p in libs[1..];
    }
  }

  lemma DependantsStay(s: State, severed: State, libs: seq<Lib>, t: State)
    requires Domains(s) && Symmetric(s) && severed == s.(children := severed.children, parents := severed.parents)
    requires EdgesOf(s).Valid() && Severed(EdgesOf(s), EdgesOf(severed), libs)
    requires t == FreeSeq(severed, libs) && t.live == s.live - Elems(libs)
    ensures SameDependants(s, t)
  {
    forall l, p ensures SameDependant(s, t, l, p) {
      if l in t.parents {
        DependantStays(s, severed, libs, t, l, p);
      }
    }
  }

  lemma DependantStays(s: State, severed: State, libs: seq<Lib>, t: State, l: Lib, p: Lib)
    requires Domains(s) && Symmetric(s) && severed == s.(children := severed.children, parents := severed.parents)
    requires EdgesOf(s).Valid() && Severed(EdgesOf(s), EdgesOf(severed), libs)
    requires t == FreeSeq(severed, libs) && t.live == s.live - Elems(libs) && l in t.parents
    ensures l in s.parents && (p in t.parents[l] <==> p in s.parents[l] && p in t.live)
  {
    FreeSeqParents(severed, libs, l, p);
    var e0, e := EdgesOf(s), EdgesOf(severed);
    assert l in e0.children && (p in e.parents[l] <==> p in e0.parents[l] && p !in libs);
  }

  lemma {:induction false} FreeSeqRefs(s: State, libs: seq<Lib>)
    ensures SameRefs(s, FreeSeq(s, libs))
    decreases |libs|
  {
    if libs != [] {
      FreeSeqRefs(FreeOne(s, libs[0]), libs[1..]);
    }
  }

  lemma GoneTogether(live: set<Lib>, libs: seq<Lib>)
    requires libs != []
    ensures live - {libs[0]} - Elems(libs[1..]) == live - Elems(libs)
  {
    assert Elems(libs) == {libs[0]} + Elems(libs[1..]);
  }

  /** The loop that frees every library of the unload list. */
  method FreeAll(s: State, local: seq<Lib>) returns (t: State)
    ensures t == FreeSeq(s, local)
  {
    t := s;
    var todo := local;
    while todo != []
      invariant FreeSeq(t, todo) == FreeSeq(s, local)
      decreases |todo|
    {
      t := FreeOne(t, todo[0]);
      todo := todo[1..];
    }
  }

  lemma ShrinkTwice(a: State, b: State, c: State)
    requires Shrunk(a, b) && Shrunk(b, c)
    requires b.opens.Keys == b.live
    ensures Shrunk(a, c)
  {
  }
}
