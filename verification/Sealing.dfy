/**
  Step 7 of `find_libraries`: the new libraries are marked as linked, and a reference is taken for every dependency
  between groups.
 */
module Sealing {
  import opened Basics
  import opened Soinfo
  import opened Groups
  import opened Linking
  import opened Opening

  /** Linked libraries keep their group root. */
  ghost predicate SameRoots(s: State, gr: map<Lib, Lib>)
  {
    forall l :: l in s.linked ==> l in gr && l in s.groupRoot && gr[l] == s.groupRoot[l]
  }

  /** The groups after step 6: linked libraries keep their root, new libraries have a new one. */
  ghost predicate Grouped(s0: State, s: State, gr: map<Lib, Lib>)
  {
    && SameRoots(s, gr)
    && (forall n :: New(s0, s, n) ==> n in gr && New(s0, s, gr[n]) && gr[n] in gr && gr[gr[n]] == gr[n])
  }

  lemma GroupedNow(s0: State, s: State, gr: map<Lib, Lib>)
    requires SameRoots(s, gr) && FreshLed(s0.next, s.next, gr)
    ensures Grouped(s0, s, gr)
  {
    forall n | New(s0, s, n) ensures n in gr && New(s0, s, gr[n]) && gr[n] in gr && gr[gr[n]] == gr[n] {
      assert Fresh(s0.next, s.next, n);
    }
  }

  // ---------------------------------------------------------------------------------
  // The references
  // ---------------------------------------------------------------------------------

  /** The number of references that step 7 takes on the group of `r`. */
  ghost function CrossCount(tasks: seq<Task>, gr: map<Lib, Lib>, apart: Option<Lib>, r: Lib): nat
  {
    if tasks == [] then 0
    else
      var last := tasks[|tasks| - 1];
      CrossCount(tasks[..|tasks| - 1], gr, apart, r) + if Counted(last, gr, apart) && gr[last.si] == r then 1 else 0
  }

  lemma CrossMore(tasks: seq<Task>, k: nat, gr: map<Lib, Lib>, apart: Option<Lib>, r: Lib)
    requires k < |tasks|
    ensures CrossCount(tasks[..k + 1], gr, apart, r) ==
            CrossCount(tasks[..k], gr, apart, r) + if Counted(tasks[k], gr, apart) && gr[tasks[k].si] == r then 1 else 0
  {
    assert tasks[..k + 1][..k] == tasks[..k];
  }

  /** What the new library `n` holds on the group of `r`. */
  ghost function NewTerm(tasks: seq<Task>, gr: map<Lib, Lib>, apart: Option<Lib>, r: Lib, n: Lib): nat
  {
    if Some(n) == apart || n !in gr || gr[n] == r then 0 else CountInto(Sis(tasks, n), gr, r)
  }

  ghost function NewHeld(tasks: seq<Task>, gr: map<Lib, Lib>, apart: Option<Lib>, r: Lib, lo: nat, hi: nat): nat
  {
    if hi <= lo then 0 else NewHeld(tasks, gr, apart, r, lo, hi - 1) + NewTerm(tasks, gr, apart, r, hi - 1)
  }

  lemma {:induction false} NewHeldSame(a: seq<Task>, b: seq<Task>, gr: map<Lib, Lib>, apart: Option<Lib>, r: Lib, lo: nat, hi: nat)
    requires forall n :: lo <= n < hi ==> NewTerm(a, gr, apart, r, n) == NewTerm(b, gr, apart, r, n)
    ensures NewHeld(a, gr, apart, r, lo, hi) == NewHeld(b, gr, apart, r, lo, hi)
    decreases hi
  {
    if hi > lo {
      NewHeldSame(a, b, gr, apart, r, lo, hi - 1);
    }
  }

  lemma {:induction false} NewHeldChange(a: seq<Task>, b: seq<Task>, gr: map<Lib, Lib>, apart: Option<Lib>, r: Lib, lo: nat, hi: nat, k: nat)
    requires lo <= k < hi
    requires forall n :: lo <= n < hi && n != k ==> NewTerm(a, gr, apart, r, n) == NewTerm(b, gr, apart, r, n)
    ensures NewHeld(a, gr, apart, r, lo, hi) - NewTerm(a, gr, apart, r, k) == NewHeld(b, gr, apart, r, lo, hi) - NewTerm(b, gr, apart, r, k)
    decreases hi
  {
    if k == hi - 1 {
      NewHeldSame(a, b, gr, apart, r, lo, hi - 1);
    } else {
      NewHeldChange(a, b, gr, apart, r, lo, hi - 1, k);
    }
  }

  lemma {:induction false} NewHeldEmpty(gr: map<Lib, Lib>, apart: Option<Lib>, r: Lib, lo: nat, hi: nat)
    ensures NewHeld([], gr, apart, r, lo, hi) == 0
    decreases hi
  {
    if hi > lo {
      NewHeldEmpty(gr, apart, r, lo, hi - 1);
    }
  }

  /** Whoever needs something has a group, and so has what is needed. */
  ghost predicate InGroups(tasks: seq<Task>, gr: map<Lib, Lib>, apart: Option<Lib>, lo: nat, hi: nat)
  {
    forall k :: 0 <= k < |tasks| ==>
      && tasks[k].si in gr
      && (tasks[k].neededBy.Some? && tasks[k].neededBy != apart ==> lo <= tasks[k].neededBy.value < hi && tasks[k].neededBy.value in gr)
  }

  /** Counting by the needing library and counting by task is the same. */
  lemma {:induction false} TasksCountEdges(tasks: seq<Task>, gr: map<Lib, Lib>, apart: Option<Lib>, r: Lib, lo: nat, hi: nat)
    requires InGroups(tasks, gr, apart, lo, hi)
    ensures NewHeld(tasks, gr, apart, r, lo, hi) == CrossCount(tasks, gr, apart, r)
  {
    if tasks == [] {
      NewHeldEmpty(gr, apart, r, lo, hi);
    } else {
      var last, short := tasks[|tasks| - 1], tasks[..|tasks| - 1];
      TasksCountEdges(short, gr, apart, r, lo, hi);
      forall n | lo <= n < hi && (last.neededBy != Some(n) || Some(n) == apart)
        ensures NewTerm(short, gr, apart, r, n) == NewTerm(tasks, gr, apart, r, n)
      {
        assert Sis(short, n) + [] == Sis(short, n);
      }
      if last.neededBy.None? || last.neededBy == apart {
        NewHeldSame(short, tasks, gr, apart, r, lo, hi);
      } else {
        var n := last.neededBy.value;
        NewHeldChange(short, tasks, gr, apart, r, lo, hi, n);
        CountConcat(Sis(short, n), [last.si], gr, r);
      }
    }
  }

  ghost predicate RefsTaken(refs0: map<Lib, nat>, refs: map<Lib, nat>, tasks: seq<Task>, gr: map<Lib, Lib>, apart: Option<Lib>)
  {
    && refs.Keys == refs0.Keys
    && forall r: Lib :: var n := CrossCount(tasks, gr, apart, r); if r in refs0 then refs[r] == refs0[r] + n else n == 0
  }

  /** The second loop of step 7: a reference for every dependency between groups. It touches a freed root, and
      has no defined outcome, if a dependency leads to a library whose group root is gone. */
  method TakeRefs(refs0: map<Lib, nat>, tasks: seq<Task>, gr: map<Lib, Lib>, apart: Option<Lib>)
    returns (ok: bool, refs: map<Lib, nat>)
    ensures ok <==> forall k :: 0 <= k < |tasks| && Counted(tasks[k], gr, apart) ==> gr[tasks[k].si] in refs0
    ensures ok ==> RefsTaken(refs0, refs, tasks, gr, apart)
  {
    refs := refs0;
    for k := 0 to |tasks|
      invariant forall j :: 0 <= j < k && Counted(tasks[j], gr, apart) ==> gr[tasks[j].si] in refs0
      invariant RefsTaken(refs0, refs, tasks[..k], gr, apart)
    {
      forall r: Lib ensures CrossCount(tasks[..k + 1], gr, apart, r) ==
                       CrossCount(tasks[..k], gr, apart, r) + if Counted(tasks[k], gr, apart) && gr[tasks[k].si] == r then 1 else 0 {
        CrossMore(tasks, k, gr, apart, r);
      }
      if Counted(tasks[k], gr, apart) {
        var root := gr[tasks[k].si];
        if root !in refs {
          ok := false;
          return;
        }
        refs := refs[root := refs[root] + 1];
      }
    }
    assert tasks[..|tasks|] == tasks;
    ok := true;
  }

  // ---------------------------------------------------------------------------------
  // The state
  // ---------------------------------------------------------------------------------

  function SiSet(tasks: seq<Task>): set<Lib>
  {
    set k | 0 <= k < |tasks| :: tasks[k].si
  }

  /** Step 7 marks all libraries of the load tasks as linked. */
  function Sealed(s: State, tasks: seq<Task>, gr: map<Lib, Lib>): State
  {
    s.(linked := s.linked + SiSet(tasks), groupRoot := gr)
  }

  /** No task was resolved to an unlinked library of an earlier, failed call. */
  ghost predicate NoLeftovers(s0: State, s: State, tasks: seq<Task>)
  {
    forall k :: 0 <= k < |tasks| ==> tasks[k].si in s.linked || New(s0, s, tasks[k].si)
  }

  /** Exactly the new libraries become linked. */
  ghost predicate NewLinked(s0: State, s: State, t: State)
  {
    forall l :: l in t.linked <==> l in s.linked || New(s0, s, l)
  }

  lemma SealedLinked(s0: State, s: State, tasks: seq<Task>, startWith: Option<Lib>, gr: map<Lib, Lib>)
    requires TasksKnown(s0, s, tasks, startWith) && NoLeftovers(s0, s, tasks)
    ensures NewLinked(s0, s, Sealed(s, tasks, gr))
  {
    forall l ensures l in Sealed(s, tasks, gr).linked <==> l in s.linked || New(s0, s, l) {
      if New(s0, s, l) {
        var j :| 0 <= j < |tasks| && tasks[j].si == l;
      }
    }
  }

  /** The state before and after libraries are marked, up to the reference counts. */
  ghost predicate Marked(s0: State, s: State, t: State, gr: map<Lib, Lib>)
  {
    t == s.(linked := t.linked, groupRoot := gr) && NewLinked(s0, s, t) && Grouped(s0, s, gr)
  }

  /** The new libraries, with their edges. The executable counts as apart, and nobody else that is new does. */
  ghost predicate NewEdges(s0: State, s: State, tasks: seq<Task>, apart: Option<Lib>)
  {
    forall n :: New(s0, s, n) ==>
      && n in s.live && n !in s.linked && Handles(s, n) == 0
      && n in s.children && s.children[n] == Sis(tasks, n) && (n == s.exe <==> Some(n) == apart)
  }

  /** A new library starts to count when it is linked. */
  lemma SealedNew(s0: State, s: State, t: State, tasks: seq<Task>, gr: map<Lib, Lib>, apart: Option<Lib>, n: Lib, r: Lib)
    requires Marked(s0, s, t, gr) && NewEdges(s0, s, tasks, apart) && New(s0, s, n)
    ensures Contribution(t, n, r) == NewTerm(tasks, gr, apart, r, n) && Contribution(s, n, r) == 0
  {
    assert Handles(t, n) == Handles(s, n);
  }

  /** What a linked library depends on is linked. */
  ghost predicate ClosedOver(s: State)
  {
    && s.linked <= s.live && s.linked <= s.children.Keys
    && forall l, c {:trigger c in s.children[l]} :: l in s.linked && c in s.children[l] ==> c in s.linked
  }

  /** For all others nothing changes. */
  lemma SealedOld(s0: State, s: State, t: State, gr: map<Lib, Lib>, l: Lib, r: Lib)
    requires Marked(s0, s, t, gr) && ClosedOver(s) && !New(s0, s, l)
    ensures Contribution(t, l, r) == Contribution(s, l, r)
  {
    if l in s.linked {
      assert Handles(t, l) == Handles(s, l);
      CountSameRoots(s.children[l], s.groupRoot, gr, r);
    }
  }

  lemma {:induction false} SealedHeld(s0: State, s: State, t: State, tasks: seq<Task>, gr: map<Lib, Lib>, apart: Option<Lib>, r: Lib, n: nat)
    requires Marked(s0, s, t, gr) && ClosedOver(s) && NewEdges(s0, s, tasks, apart) && n <= s.next
    ensures Held(t, r, n) == Held(s, r, n) + NewHeld(tasks, gr, apart, r, s0.next, n)
    decreases n
  {
    if n > 0 {
      SealedHeld(s0, s, t, tasks, gr, apart, r, n - 1);
      if New(s0, s, n - 1) {
        SealedNew(s0, s, t, tasks, gr, apart, n - 1, r);
      } else {
        SealedOld(s0, s, t, gr, n - 1, r);
        assert NewHeld(tasks, gr, apart, r, s0.next, n) == 0;
      }
    }
  }

  /** Linking the new libraries adds exactly the references that step 7 takes. */
  lemma SealedBalanced(s0: State, s: State, t: State, tasks: seq<Task>, gr: map<Lib, Lib>, apart: Option<Lib>, refs: map<Lib, nat>, r: Lib)
    requires Marked(s0, s, t, gr) && ClosedOver(s) && NewEdges(s0, s, tasks, apart) && InGroups(tasks, gr, apart, s0.next, s.next)
    requires Balanced(s, [], r) && s.refs.Keys == s.live && RefsTaken(s.refs, refs, tasks, gr, apart)
    ensures Balanced(t.(refs := refs), [], r)
  {
    SealedHeld(s0, s, t, tasks, gr, apart, r, s.next);
    TasksCountEdges(tasks, gr, apart, r, s0.next, s.next);
    HeldSame(t, t.(refs := refs), r, s.next);
  }

  lemma SealedAccounts(s0: State, s: State, t: State, tasks: seq<Task>, gr: map<Lib, Lib>, apart: Option<Lib>, refs: map<Lib, nat>)
    requires Marked(s0, s, t, gr) && ClosedOver(s) && NewEdges(s0, s, tasks, apart) && InGroups(tasks, gr, apart, s0.next, s.next)
    requires Accounts(s, []) && s.refs.Keys == s.live && RefsTaken(s.refs, refs, tasks, gr, apart)
    ensures Accounts(t.(refs := refs), [])
  {
    forall r: Lib ensures Balanced(t.(refs := refs), [], r) {
      assert Balanced(s, [], r);
      SealedBalanced(s0, s, t, tasks, gr, apart, refs, r);
    }
  }

  // The shape ----------------------------------------------------------------------

  lemma SealedDomains(s0: State, s: State, t: State, gr: map<Lib, Lib>)
    requires Domains(s) && Marked(s0, s, t, gr) && forall n :: New(s0, s, n) ==> n in s.live
    ensures Domains(t)
  {
  }

  lemma {:induction false} SisAreTasks(tasks: seq<Task>, n: Lib, c: Lib)
    requires c in Sis(tasks, n)
    ensures c in SiSet(tasks)
  {
    var k := |tasks| - 1;
    if c in Sis(tasks[..k], n) {
      SisAreTasks(tasks[..k], n, c);
      var j :| 0 <= j < k && tasks[..k][j].si == c;
      assert tasks[j].si == c;
    } else {
      assert tasks[k].si == c;
    }
  }

  lemma SealedGroups(s0: State, s: State, t: State, tasks: seq<Task>, gr: map<Lib, Lib>)
    requires Domains(s) && GroupsFormed(s) && Domains(t) && Marked(s0, s, t, gr) && ChildrenAre(s0, s, tasks) && SiSet(tasks) <= t.linked
    ensures GroupsFormed(t)
  {
    forall l, c {:trigger c in t.children[l]} | l in t.linked && c in t.children[l] ensures c in t.linked {
      if New(s0, s, l) {
        SisAreTasks(tasks, l, c);
      }
    }
    forall l | l in t.linked && t.groupRoot[l] in t.live ensures LeadsItself(t, t.groupRoot[l]) {
      if l in s.linked {
        assert LeadsItself(s, s.groupRoot[l]);
      }
    }
  }

  lemma SealedPinned(s0: State, s: State, t: State, gr: map<Lib, Lib>)
    requires Domains(s) && GroupsFormed(s) && Pinned(s) && Domains(t) && Marked(s0, s, t, gr) && !New(s0, s, s.exe)
    ensures Pinned(t)
  {
  }

  lemma SealedHandles(s: State, t: State)
    requires Domains(s) && HandlesOwned(s) && Symmetric(s)
    requires t == s.(linked := t.linked, groupRoot := t.groupRoot) && s.linked <= t.linked && Domains(t)
    ensures HandlesOwned(t) && Symmetric(t)
  {
    forall h | h in t.dso && t.dso[h] > 0 ensures exists l :: l in t.linked && l in t.image && h in t.image[l] {
      var l :| l in s.linked && l in s.image && h in s.image[l];
      assert l in t.linked;
    }
  }

  /** What step 7 relies on. */
  ghost predicate ToSeal(s0: State, s: State, tasks: seq<Task>, startWith: Option<Lib>, gr: map<Lib, Lib>)
  {
    && Domains(s0) && Added(s0, s) && ChildrenAre(s0, s, tasks) && TasksKnown(s0, s, tasks, startWith)
    && NoLeftovers(s0, s, tasks) && Grouped(s0, s, gr)
  }

  lemma MarkedNow(s0: State, s: State, tasks: seq<Task>, startWith: Option<Lib>, gr: map<Lib, Lib>)
    requires ToSeal(s0, s, tasks, startWith, gr)
    ensures Marked(s0, s, Sealed(s, tasks, gr), gr) && SiSet(tasks) <= Sealed(s, tasks, gr).linked
  {
    SealedLinked(s0, s, tasks, startWith, gr);
  }

  lemma SealedShape(s0: State, s: State, t: State, tasks: seq<Task>, gr: map<Lib, Lib>)
    requires WellFormed(s) && Marked(s0, s, t, gr) && ChildrenAre(s0, s, tasks) && SiSet(tasks) <= t.linked
    requires (forall n :: New(s0, s, n) ==> n in s.live) && Domains(t) && Pinned(t)
    ensures WellFormed(t)
  {
    SealedGroups(s0, s, t, tasks, gr);
    SealedHandles(s, t);
  }

  lemma EdgesAreNew(s0: State, s: State, tasks: seq<Task>, apart: Option<Lib>)
    requires Domains(s0) && Domains(s) && HandlesOwned(s) && Added(s0, s) && ChildrenAre(s0, s, tasks)
    requires forall n :: New(s0, s, n) ==> (n == s.exe <==> Some(n) == apart)
    ensures NewEdges(s0, s, tasks, apart)
  {
    forall n | New(s0, s, n) ensures n in s.live && n !in s.linked && Handles(s, n) == 0 {
      LooseHasNoHandles(s, n);
    }
  }

  /** What the tasks are about has a group. */
  lemma TasksInGroups(s0: State, s: State, tasks: seq<Task>, startWith: Option<Lib>, apart: Option<Lib>, gr: map<Lib, Lib>)
    requires TasksKnown(s0, s, tasks, startWith) && NoLeftovers(s0, s, tasks) && Grouped(s0, s, gr)
    requires startWith == apart || startWith.None?
    ensures InGroups(tasks, gr, apart, s0.next, s.next)
  {
    forall k | 0 <= k < |tasks|
      ensures && tasks[k].si in gr
              && (tasks[k].neededBy.Some? && tasks[k].neededBy != apart ==>
                    s0.next <= tasks[k].neededBy.value < s.next && tasks[k].neededBy.value in gr)
    {
      assert NeedKnown(s0, s, tasks, startWith, k, tasks[k].neededBy);
      assert tasks[k].si in s.linked || New(s0, s, tasks[k].si);
    }
  }

  lemma LinkedIsClosed(s: State)
    requires Domains(s) && GroupsFormed(s)
    ensures ClosedOver(s)
  {
  }

  /** The accounts after step 7. */
  lemma SealedBooks(s0: State, s: State, tasks: seq<Task>, startWith: Option<Lib>, gr: map<Lib, Lib>, apart: Option<Lib>, refs: map<Lib, nat>)
    requires ToSeal(s0, s, tasks, startWith, gr) && Domains(s) && GroupsFormed(s) && HandlesOwned(s) && Accounts(s, [])
    requires (startWith == apart || startWith.None?) && (forall n :: New(s0, s, n) ==> (n == s.exe <==> Some(n) == apart))
    requires RefsTaken(s.refs, refs, tasks, gr, apart)
    ensures Accounts(Sealed(s, tasks, gr).(refs := refs), [])
  {
    MarkedNow(s0, s, tasks, startWith, gr);
    LinkedIsClosed(s);
    EdgesAreNew(s0, s, tasks, apart);
    TasksInGroups(s0, s, tasks, startWith, apart, gr);
    SealedAccounts(s0, s, Sealed(s, tasks, gr), tasks, gr, apart, refs);
  }

  /** The shape after step 7, if the executable was linked before. */
  lemma SealedWellFormed(s0: State, s: State, tasks: seq<Task>, startWith: Option<Lib>, gr: map<Lib, Lib>)
    requires ToSeal(s0, s, tasks, startWith, gr) && WellFormed(s) && !New(s0, s, s.exe)
    ensures WellFormed(Sealed(s, tasks, gr))
  {
    var t := Sealed(s, tasks, gr);
    MarkedNow(s0, s, tasks, startWith, gr);
    SealedDomains(s0, s, t, gr);
    SealedPinned(s0, s, t, gr);
    SealedShape(s0, s, t, tasks, gr);
  }

  /** The invariant after step 7. */
  lemma SealedInv(s0: State, s: State, tasks: seq<Task>, startWith: Option<Lib>, gr: map<Lib, Lib>, refs: map<Lib, nat>)
    requires ToSeal(s0, s, tasks, startWith, gr) && Inv(s, [])
    requires (startWith.Some? ==> startWith.value < s0.next) && !New(s0, s, s.exe)
    requires RefsTaken(s.refs, refs, tasks, gr, startWith)
    ensures Inv(Sealed(s, tasks, gr).(refs := refs), [])
  {
    SealedWellFormed(s0, s, tasks, startWith, gr);
    SealedBooks(s0, s, tasks, startWith, gr, startWith, refs);
    RefsOnly(Sealed(s, tasks, gr), Sealed(s, tasks, gr).(refs := refs));
  }

  // ---------------------------------------------------------------------------------
  // Every group is needed
  // ---------------------------------------------------------------------------------

  lemma {:induction false} CrossPositive(tasks: seq<Task>, gr: map<Lib, Lib>, apart: Option<Lib>, k: nat)
    requires k < |tasks| && Counted(tasks[k], gr, apart)
    ensures CrossCount(tasks, gr, apart, gr[tasks[k].si]) > 0
  {
    var m := |tasks| - 1;
    if k < m {
      assert tasks[..m][k] == tasks[k];
      CrossPositive(tasks[..m], gr, apart, k);
    }
  }

  /** After step 7 no group is loaded without need, but for the one that the handle will be on. */
  lemma SealedUsed(s0: State, s: State, tasks: seq<Task>, startWith: Option<Lib>, gr: map<Lib, Lib>, refs: map<Lib, nat>)
    requires ToSeal(s0, s, tasks, startWith, gr) && AllUsed(s)
    requires tasks != [] && tasks[0].si in gr && NewNeeded(tasks, s0.next, s.next, gr, startWith)
    requires RefsTaken(s.refs, refs, tasks, gr, startWith)
    ensures UsedBut(Sealed(s, tasks, gr).(refs := refs), gr[tasks[0].si])
  {
    var u := Sealed(s, tasks, gr).(refs := refs);
    SealedLinked(s0, s, tasks, startWith, gr);
    forall r | Unused(u, r) ensures r == gr[tasks[0].si] {
      assert !Unused(s, r);
      assert CrossCount(tasks, gr, startWith, r) == 0;
      assert New(s0, s, r) ==> Fresh(s0.next, s.next, r);
      if r !in s.linked && Needed(tasks, gr, startWith, r) {
        var k :| 0 <= k < |tasks| && Counted(tasks[k], gr, startWith) && gr[tasks[k].si] == r;
        CrossPositive(tasks, gr, startWith, k);
      }
    }
  }
}
