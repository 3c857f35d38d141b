/**
  What is left behind: members of a group that were not unloaded with its root, and libraries that a failed call
  has loaded but not linked.
 */
module Leftovers {
  import opened Basics
  import opened Soinfo
  import opened Peeling
  import opened Teardown

  /** The effect of a teardown: the libraries in `order` are gone. */
  ghost predicate Removed(s: State, t: State, order: seq<Lib>)
  {
    && Shrunk(s, t) && SameRefs(s, t) && SameDependants(s, t)
    && forall l :: l in t.live <==> l in s.live && l !in order
  }

  /** What can be checked before a teardown: everything that hangs on the root can be taken with it. */
  ghost predicate Whole(s: State, root: Lib)
  {
    && GroupOf(s, root).Valid() && Collectable(GroupOf(s, root))
    && (root in s.linked ==> HangsTogether(s, root))
  }

  /** From `s` to `t` no leftover went away; if everything was `whole` none was added, and if not there is one now. */
  ghost predicate Tidy(s: State, t: State, whole: bool)
  {
    && (forall l :: Stray(s, l) ==> Stray(t, l))
    && (Knotted(s) ==> Knotted(t))
    && if whole then Clean(s) ==> Clean(t) else !Clean(t)
  }

  lemma TidyTwice(a: State, b: State, c: State, p: bool, q: bool)
    requires Tidy(a, b, p) && Tidy(b, c, q)
    ensures Tidy(a, c, p && q)
  {
    if !p {
      var l :| Stray(b, l);
      assert Stray(c, l);
    }
  }

  /** What does not concern groups and edges leaves nothing behind. */
  ghost predicate SameGroups(s: State, t: State)
  {
    t.live == s.live && t.linked == s.linked && t.groupRoot == s.groupRoot && t.parents == s.parents
  }

  lemma TidySame(s: State, t: State)
    requires SameGroups(s, t)
    ensures Tidy(s, t, true)
  {
    forall l ensures Stray(s, l) <==> Stray(t, l) { }
    forall l | Knotted(s) && Loose(t, l) ensures HeldByLoose(t, l) {
      assert Loose(s, l);
      var p :| p in s.parents[l] && Loose(s, p);
      assert Loose(t, p);
    }
  }

  // ---------------------------------------------------------------------------------
  // The teardown of a linked group
  // ---------------------------------------------------------------------------------

  ghost predicate TakenLinked(s: State, root: Lib, order: seq<Lib>, t: State)
  {
    && WellFormed(s) && root in s.linked && Starts(s, root)
    && GroupOf(s, root).Valid() && PeelOrder(GroupOf(s, root), order)
    && Removed(s, t, order)
  }

  lemma TakenIsLed(s: State, root: Lib, order: seq<Lib>, l: Lib)
    requires WellFormed(s) && root in s.linked && Starts(s, root)
    requires GroupOf(s, root).Valid() && PeelOrder(GroupOf(s, root), order) && l in order
    ensures Led(s, root, l) && !Stray(s, l)
  {
    var i :| 0 <= i < |order| && order[i] == l;
    MembersAlike(s, root, GroupOf(s, root), order, i);
  }

  /** Only members of the group are left behind, namely those that were not unloaded with the root. */
  lemma WhatIsLeft(s: State, root: Lib, order: seq<Lib>, t: State, l: Lib)
    requires TakenLinked(s, root, order, t)
    ensures Stray(t, l) <==> Stray(s, l) || Missed(s, root, order, l)
  {
    assert root == order[0];
    if l in order {
      TakenIsLed(s, root, order, l);
    }
    if l in s.linked && s.groupRoot[l] in order {
      TakenIsLed(s, root, order, s.groupRoot[l]);
      assert LeadsItself(s, s.groupRoot[l]);
    }
  }

  lemma LooseStay(s: State, root: Lib, order: seq<Lib>, t: State, l: Lib)
    requires TakenLinked(s, root, order, t)
    ensures Loose(t, l) <==> Loose(s, l)
  {
    if l in order {
      TakenIsLed(s, root, order, l);
    }
  }

  lemma KnotsStay(s: State, root: Lib, order: seq<Lib>, t: State)
    requires TakenLinked(s, root, order, t) && Knotted(s) && t.parents.Keys == t.live
    ensures Knotted(t)
  {
    forall l | Loose(t, l) ensures HeldByLoose(t, l) {
      LooseStay(s, root, order, t, l);
      var p :| p in s.parents[l] && Loose(s, p);
      LooseStay(s, root, order, t, p);
      assert SameDependant(s, t, l, p);
    }
  }

  /** A teardown leaves something behind exactly if the group is not collectable or does not hang together. */
  lemma TakenTidily(s: State, root: Lib, order: seq<Lib>, t: State)
    requires TakenLinked(s, root, order, t) && t.parents.Keys == t.live
    ensures Tidy(s, t, Whole(s, root))
  {
    NoneStranded(s, root, order);
    AllThatIsLeft(s, root, order, t);
    if Knotted(s) {
      KnotsStay(s, root, order, t);
    }
    LeftTidily(s, root, order, t, Whole(s, root));
  }

  lemma AllThatIsLeft(s: State, root: Lib, order: seq<Lib>, t: State)
    requires TakenLinked(s, root, order, t)
    ensures LeftAre(s, root, order, t)
  {
    forall l ensures Stray(t, l) <==> Stray(s, l) || Missed(s, root, order, l) {
      WhatIsLeft(s, root, order, t, l);
    }
  }

  ghost predicate Missed(s: State, root: Lib, order: seq<Lib>, l: Lib)
  {
    Led(s, root, l) && l !in order
  }

  ghost predicate LeftAre(s: State, root: Lib, order: seq<Lib>, t: State)
  {
    forall l :: Stray(t, l) <==> Stray(s, l) || Missed(s, root, order, l)
  }

  lemma LeftTidily(s: State, root: Lib, order: seq<Lib>, t: State, whole: bool)
    requires LeftAre(s, root, order, t) && (Knotted(s) ==> Knotted(t))
    requires WholeGroup(s, root, order) <==> whole
    ensures Tidy(s, t, whole)
  {
    if !whole {
      var l :| Led(s, root, l) && l !in order;
      assert Missed(s, root, order, l);
      assert Stray(t, l);
    }
  }

  // ---------------------------------------------------------------------------------
  // The teardown after a failed call
  // ---------------------------------------------------------------------------------

  /** A call has loaded libraries, none of them linked. */
  ghost predicate Loaded(s0: State, s: State)
  {
    && (forall l :: l in s.live <==> l in s0.live || New(s0, s, l))
    && (forall l :: l in s.linked <==> l in s0.linked)
    && Kept(s0.linked, s0.groupRoot, s.groupRoot)
    && (forall l, p {:trigger p in s0.parents[l]} :: l in s0.parents && p in s0.parents[l] ==> l in s.parents && p in s.parents[l])
  }

  /** All libraries that a call has loaded hang on the one that it was asked for. */
  ghost predicate HangOn(s0: State, s: State, f: Lib)
  {
    New(s0, s, f) && forall n :: New(s0, s, n) ==> Reach(GroupOf(s, f), n)
  }

  ghost predicate Attempted(s0: State, s: State, f: Lib)
  {
    Domains(s0) && WellFormed(s) && Loaded(s0, s) && HangOn(s0, s, f)
  }

  /** The call has failed, and the library it was asked for was unloaded again. */
  ghost predicate TakenLoose(s: State, f: Lib, order: seq<Lib>, t: State)
  {
    && GroupOf(s, f).Valid() && PeelOrder(GroupOf(s, f), order)
    && Removed(s, t, order) && t.parents.Keys == t.live
  }

  /** Libraries that hold each other stay, whatever hangs on them. */
  lemma {:induction false} KnotIsNotTaken(s0: State, s: State, f: Lib, order: seq<Lib>, i: nat)
    requires Knotted(s0) && Domains(s0) && Loaded(s0, s) && New(s0, s, f)
    requires GroupOf(s, f).Valid() && PeelPrefix(GroupOf(s, f), order) && i < |order|
    ensures !Loose(s0, order[i])
  {
    if Loose(s0, order[i]) {
      assert HeldByLoose(s0, order[i]);
      var p :| p in s0.parents[order[i]] && Loose(s0, p);
      PeelMembers(GroupOf(s, f), order, order[i]);
      DependantsFirst(GroupOf(s, f), order, i, p);
      var j :| 0 <= j < i && order[j] == p;
      KnotIsNotTaken(s0, s, f, order, j);
    }
  }

  lemma TakenIsLoose(s: State, f: Lib, order: seq<Lib>, l: Lib)
    requires WellFormed(s) && Loose(s, f) && GroupOf(s, f).Valid() && PeelOrder(GroupOf(s, f), order) && l in order
    ensures Loose(s, l)
  {
    var i :| 0 <= i < |order| && order[i] == l;
    MembersAlike(s, f, GroupOf(s, f), order, i);
  }

  lemma LeftoverIsNotTaken(s0: State, s: State, f: Lib, order: seq<Lib>, l: Lib)
    requires Knotted(s0) && Attempted(s0, s, f) && GroupOf(s, f).Valid() && PeelOrder(GroupOf(s, f), order) && Stray(s0, l)
    ensures l !in order
  {
    if l in order {
      TakenIsLoose(s, f, order, l);
      var i :| 0 <= i < |order| && order[i] == l;
      KnotIsNotTaken(s0, s, f, order, i);
    }
  }

  lemma LeftoverStays(s0: State, s: State, order: seq<Lib>, t: State, l: Lib)
    requires Domains(s0) && Loaded(s0, s) && Removed(s, t, order) && Stray(s0, l) && l !in order
    ensures Stray(t, l)
  {
  }

  /** A library that is not taken is kept by one that is not taken either. */
  lemma LeftIsHeld(s0: State, s: State, f: Lib, order: seq<Lib>, t: State, l: Lib)
    requires Attempted(s0, s, f) && TakenLoose(s, f, order, t) && New(s0, s, l) && l !in order
    ensures HeldByLoose(t, l)
  {
    var g := GroupOf(s, f);
    assert order[0] == f;
    var q := ReachBack(g, l);
    assert !Ready(g, Elems(order), l);
    var p :| p in g.dependants[l] && p !in Elems(order);
    assert p in s.parents[l] && l !in s.linked;
    assert Loose(s, p);
    assert SameDependant(s, t, l, p);
    assert Loose(t, p);
  }

  /** No leftover from before is among the libraries in `order`. */
  ghost predicate Spared(s0: State, order: seq<Lib>)
  {
    forall l :: Stray(s0, l) ==> l !in order
  }

  lemma LeftoversAreSpared(s0: State, s: State, f: Lib, order: seq<Lib>)
    requires Knotted(s0) && Attempted(s0, s, f) && GroupOf(s, f).Valid() && PeelOrder(GroupOf(s, f), order)
    ensures Spared(s0, order)
  {
    forall l | Stray(s0, l) ensures l !in order {
      LeftoverIsNotTaken(s0, s, f, order, l);
    }
  }

  lemma OldIsHeld(s0: State, s: State, order: seq<Lib>, t: State, l: Lib)
    requires Knotted(s0) && Domains(s0) && Loaded(s0, s) && Removed(s, t, order) && t.parents.Keys == t.live
    requires Spared(s0, order) && Loose(s0, l)
    ensures HeldByLoose(t, l)
  {
    assert HeldByLoose(s0, l);
    var p :| p in s0.parents[l] && Loose(s0, p);
    assert Stray(s0, l) && Stray(s0, p);
    StillHeld(s0, s, order, t, l, p);
  }

  lemma StillHeld(s0: State, s: State, order: seq<Lib>, t: State, l: Lib, p: Lib)
    requires Domains(s0) && Loaded(s0, s) && Removed(s, t, order) && t.parents.Keys == t.live
    requires Loose(s0, l) && Loose(s0, p) && p in s0.parents[l] && l !in order && p !in order
    ensures HeldByLoose(t, l)
  {
    assert SameDependant(s, t, l, p);
    assert Loose(t, p);
  }

  lemma KnotsGrow(s0: State, s: State, f: Lib, order: seq<Lib>, t: State)
    requires Knotted(s0) && Attempted(s0, s, f) && TakenLoose(s, f, order, t) && Spared(s0, order)
    ensures Knotted(t)
  {
    forall l | Loose(t, l) ensures HeldByLoose(t, l) {
      assert Loose(s, l);
      if New(s0, s, l) {
        LeftIsHeld(s0, s, f, order, t, l);
      } else {
        OldIsHeld(s0, s, order, t, l);
      }
    }
  }

  /** Without leftovers from before, what hangs on `f` is what the call has loaded. */
  lemma OnlyFreshHang(s0: State, s: State, f: Lib, l: Lib)
    requires Clean(s0) && Domains(s0) && Loaded(s0, s) && HangOn(s0, s, f)
    ensures Reach(GroupOf(s, f), l) <==> New(s0, s, l)
  {
    assert !Stray(s0, l);
  }

  /** Nothing but the libraries that the call has loaded depends on them. */
  lemma OnlyFreshDepend(s0: State, s: State, l: Lib, p: Lib)
    requires Clean(s0) && Domains(s0) && Loaded(s0, s) && Domains(s) && Symmetric(s) && GroupsFormed(s)
    requires New(s0, s, l) && l in s.parents && p in s.parents[l]
    ensures New(s0, s, p)
  {
    assert l !in s.linked && l in s.children[p];
    assert !Stray(s0, p);
  }

  /** So only cycles keep them. */
  lemma OnlyCyclesStay(s0: State, s: State, f: Lib)
    requires Clean(s0) && Attempted(s0, s, f)
    ensures GroupOf(s, f).Valid() && (Collectable(GroupOf(s, f)) <==> NoRootlessCycle(GroupOf(s, f)))
  {
    assert GroupOf(s, f).Valid();
    forall l, p | l in GroupOf(s, f).members && Reach(GroupOf(s, f), l) && p in GroupOf(s, f).dependants[l]
      ensures Reach(GroupOf(s, f), p)
    {
      DependsFromInside(s0, s, f, l, p);
    }
  }

  lemma DependsFromInside(s0: State, s: State, f: Lib, l: Lib, p: Lib)
    requires Clean(s0) && Domains(s0) && Loaded(s0, s) && HangOn(s0, s, f) && Domains(s) && Symmetric(s) && GroupsFormed(s)
    requires Reach(GroupOf(s, f), l) && l in s.parents && p in s.parents[l]
    ensures Reach(GroupOf(s, f), p)
  {
    OnlyFreshHang(s0, s, f, l);
    OnlyFreshDepend(s0, s, l, p);
  }

  lemma AllTaken(s0: State, s: State, f: Lib, order: seq<Lib>, t: State)
    requires Clean(s0) && Domains(s0) && Loaded(s0, s) && HangOn(s0, s, f) && Removed(s, t, order)
    ensures (forall l :: Reach(GroupOf(s, f), l) ==> l in order) <==> forall l :: New(s0, s, l) ==> l !in t.live
  {
    forall l ensures Reach(GroupOf(s, f), l) <==> New(s0, s, l) {
      OnlyFreshHang(s0, s, f, l);
    }
  }

  /** If nothing was left behind before, everything the failed call has loaded is gone exactly if it contains no cycle
      that avoids the library it was asked for. */
  lemma UndoneExactly(s0: State, s: State, f: Lib, order: seq<Lib>, t: State)
    requires Clean(s0) && Attempted(s0, s, f) && TakenLoose(s, f, order, t)
    ensures t.live == s0.live <==> NoRootlessCycle(GroupOf(s, f))
  {
    OldAllStay(s0, s, f, order, t);
    TakenIffCollectable(s0, s, f, order, t);
    OnlyCyclesStay(s0, s, f);
  }

  lemma TakenIffCollectable(s0: State, s: State, f: Lib, order: seq<Lib>, t: State)
    requires Clean(s0) && Domains(s0) && Loaded(s0, s) && HangOn(s0, s, f) && TakenLoose(s, f, order, t)
    ensures (forall l :: New(s0, s, l) ==> l !in t.live) <==> Collectable(GroupOf(s, f))
  {
    TeardownComplete(GroupOf(s, f), order);
    AllTaken(s0, s, f, order, t);
  }

  lemma OldStays(s0: State, s: State, f: Lib, order: seq<Lib>, l: Lib)
    requires Clean(s0) && Domains(s0) && WellFormed(s) && Loaded(s0, s) && New(s0, s, f)
    requires GroupOf(s, f).Valid() && PeelOrder(GroupOf(s, f), order) && l in s0.live
    ensures l !in order
  {
    assert !Stray(s0, l);
    if l in order {
      TakenIsLoose(s, f, order, l);
    }
  }

  lemma OldAllStay(s0: State, s: State, f: Lib, order: seq<Lib>, t: State)
    requires Clean(s0) && Attempted(s0, s, f) && TakenLoose(s, f, order, t)
    ensures t.live == s0.live <==> forall l :: New(s0, s, l) ==> l !in t.live
  {
    forall l | l in s0.live ensures l !in order {
      OldStays(s0, s, f, order, l);
    }
    WhatStays(s0, s, order, t);
  }

  lemma WhatStays(s0: State, s: State, order: seq<Lib>, t: State)
    requires forall l :: l in s0.live ==> l < s0.next && l !in order
    requires forall l :: l in s.live <==> l in s0.live || New(s0, s, l)
    requires forall l :: l in t.live <==> l in s.live && l !in order
    ensures t.live == s0.live <==> forall l :: New(s0, s, l) ==> l !in t.live
  {
  }

  /** A failed call leaves something behind exactly if what it has loaded cannot be taken with its root. */
  lemma UndoneTidily(s0: State, s: State, f: Lib, order: seq<Lib>, t: State)
    requires Knotted(s0) && Attempted(s0, s, f) && TakenLoose(s, f, order, t)
    ensures Tidy(s0, t, Whole(s, f))
  {
    LeftoversAreSpared(s0, s, f, order);
    KnotsGrow(s0, s, f, order, t);
    forall l | Stray(s0, l) ensures Stray(t, l) {
      LeftoverStays(s0, s, order, t, l);
    }
    TeardownComplete(GroupOf(s, f), order);
    if Whole(s, f) {
      if Clean(s0) {
        NothingLeft(s0, s, f, order, t);
      }
    } else {
      SomethingLeft(s0, s, f, order, t);
    }
  }

  lemma NothingLeft(s0: State, s: State, f: Lib, order: seq<Lib>, t: State)
    requires Clean(s0) && Attempted(s0, s, f) && TakenLoose(s, f, order, t)
    requires forall l :: Reach(GroupOf(s, f), l) ==> l in order
    ensures Clean(t)
  {
    AllTaken(s0, s, f, order, t);
    OldAllStay(s0, s, f, order, t);
    StillClean(s0, s, order, t);
  }

  lemma StillClean(s0: State, s: State, order: seq<Lib>, t: State)
    requires Clean(s0) && Domains(s0) && Loaded(s0, s) && Removed(s, t, order) && t.live == s0.live
    ensures Clean(t)
  {
    forall l ensures !Stray(t, l) {
      assert !Stray(s0, l);
    }
  }

  lemma SomethingLeft(s0: State, s: State, f: Lib, order: seq<Lib>, t: State)
    requires Domains(s0) && Loaded(s0, s) && New(s0, s, f) && Removed(s, t, order)
    requires !forall l :: Reach(GroupOf(s, f), l) ==> l in order
    ensures !Clean(t)
  {
    var l :| Reach(GroupOf(s, f), l) && l !in order;
    assert Stray(t, l);
  }
}
