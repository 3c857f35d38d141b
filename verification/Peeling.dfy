/**
  Taking a load group apart, dependants first: which libraries are unloaded and in which order.

  The unloader starts at the group root and continues with every member whose last dependant
  it has just unloaded. This module is about that order alone; edges are given by the set of
  dependants of each library.
 */
module Peeling {

  import opened Basics
  import opened Soinfo

  datatype Group = Group(root: Lib, members: set<Lib>, dependants: map<Lib, set<Lib>>)
  {
    ghost predicate Valid() {
      root in members && members <= dependants.Keys
    }
  }

  /** `c` can be unloaded next: it is a member, something depended on it, and everything that did is gone. */
  ghost predicate Ready(g: Group, gone: set<Lib>, c: Lib)
    requires g.Valid()
  {
    c in g.members && g.dependants[c] != {} && g.dependants[c] <= gone
  }

  ghost predicate PeelPrefix(g: Group, order: seq<Lib>)
    requires g.Valid()
  {
    && |order| > 0 && order[0] == g.root
    && (forall i, j :: 0 <= i < j < |order| ==> order[i] != order[j])
    && (forall i :: 0 < i < |order| ==> Ready(g, Elems(order[..i]), order[i]))
  }

  /** An unload order, root first and every other library after all of its dependants, that cannot be
      continued. */
  ghost predicate PeelOrder(g: Group, order: seq<Lib>)
    requires g.Valid()
  {
    && PeelPrefix(g, order)
    && forall c :: Ready(g, Elems(order), c) ==> c in order
  }

  // ---------------------------------------------------------------------------------
  // The unload list
  // ---------------------------------------------------------------------------------

  /** The libraries waiting in the unload list: all of them can be unloaded next, and all that can be are
      there, but for those whose edge from `si` is still to be taken away. */
  ghost predicate Waiting(g: Group, gone: set<Lib>, todo: seq<Lib>, si: Lib, done: set<Lib>)
    requires g.Valid()
  {
    && (forall q :: q in todo ==> Ready(g, gone, q))
    && (forall c :: Ready(g, gone, c) && c !in gone && (si in g.dependants[c] ==> c in done) ==> c in todo)
  }

  /** One child of `si`: it goes on the unload list exactly when its last dependant is gone. */
  lemma PopEdgeWaits(g: Group, gone: set<Lib>, todo: seq<Lib>, si: Lib, done: set<Lib>, c: Lib)
    requires g.Valid()
    requires si in gone && c in g.dependants && si in g.dependants[c]
    requires Waiting(g, gone, todo, si, done)
    ensures var push := c !in gone && c in g.members && g.dependants[c] <= gone;
            Waiting(g, gone, if push then todo + [c] else todo, si, done + {c})
  {
  }

  /** Between two libraries nothing is overlooked. */
  lemma WaitingNext(g: Group, gone: set<Lib>, todo: seq<Lib>, si: Lib, done: set<Lib>)
    requires g.Valid()
    requires forall c :: c in g.dependants && si in g.dependants[c] ==> c in done
    requires todo != [] && Waiting(g, gone, todo, si, done)
    ensures Waiting(g, gone + {todo[0]}, todo[1..], todo[0], {})
  {
    var next := todo[0];
    forall q | q in todo[1..] ensures Ready(g, gone + {next}, q) {
      assert q in todo;
    }
    forall c | Ready(g, gone + {next}, c) && c !in gone + {next} && next !in g.dependants[c]
      ensures c in todo[1..]
    {
      assert Ready(g, gone, c);
      assert c in todo;
    }
  }

  lemma WaitingSkip(g: Group, gone: set<Lib>, todo: seq<Lib>, si: Lib, done: set<Lib>)
    requires g.Valid()
    requires todo != [] && todo[0] in gone
    requires Waiting(g, gone, todo, si, done)
    ensures Waiting(g, gone, todo[1..], si, done)
  {
    forall q | q in todo[1..] ensures q in todo { }
  }

  lemma PeelExtends(g: Group, order: seq<Lib>, next: Lib)
    requires g.Valid()
    requires PeelPrefix(g, order)
    requires next !in order && Ready(g, Elems(order), next)
    ensures PeelPrefix(g, order + [next])
  {
    var longer := order + [next];
    forall i | 0 < i < |longer| ensures Ready(g, Elems(longer[..i]), longer[i]) {
      if i < |order| {
        assert longer[..i] == order[..i];
      } else {
        assert longer[..i] == order;
      }
    }
  }

  /** When the unload list is empty the order is complete. */
  lemma PeelDone(g: Group, order: seq<Lib>, si: Lib, done: set<Lib>)
    requires g.Valid()
    requires PeelPrefix(g, order)
    requires forall c :: c in g.dependants && si in g.dependants[c] ==> c in done
    requires Waiting(g, Elems(order), [], si, done)
    ensures PeelOrder(g, order)
  {
  }

  // ---------------------------------------------------------------------------------
  // Properties of an unload order
  // ---------------------------------------------------------------------------------

  lemma PeelMembers(g: Group, order: seq<Lib>, l: Lib)
    requires g.Valid() && PeelPrefix(g, order)
    requires l in order
    ensures l in g.members
  {
    var i :| 0 <= i < |order| && order[i] == l;
    if i > 0 {
      assert Ready(g, Elems(order[..i]), order[i]);
    }
  }

  /** Dependants first: whatever depends on a library other than the root is earlier in the list. */
  lemma DependantsFirst(g: Group, order: seq<Lib>, i: nat, p: Lib)
    requires g.Valid() && PeelPrefix(g, order)
    requires 0 < i < |order|
    requires order[i] in g.members && p in g.dependants[order[i]]
    ensures exists j :: 0 <= j < i && order[j] == p
  {
    assert Ready(g, Elems(order[..i]), order[i]);
    assert p in order[..i];
    var j :| 0 <= j < |order[..i]| && order[..i][j] == p;
    assert order[j] == p;
  }

  // ---------------------------------------------------------------------------------
  // When the whole group is taken
  // ---------------------------------------------------------------------------------

  ghost predicate Edge(g: Group, a: Lib, b: Lib)
  {
    a in g.members && b in g.members && b in g.dependants && a in g.dependants[b]
  }

  ghost predicate Step(g: Group, p: seq<Lib>, i: int)
  {
    0 <= i < |p| - 1 && Edge(g, p[i], p[i + 1])
  }

  /** A chain of dependencies inside the group, each library depending on the next. */
  ghost predicate Chain(g: Group, p: seq<Lib>)
  {
    && |p| > 0 && p[0] in g.members
    && (forall i :: 0 <= i < |p| - 1 ==> Step(g, p, i))
  }

  ghost predicate ChainTo(g: Group, p: seq<Lib>, l: Lib)
  {
    Chain(g, p) && p[0] == g.root && p[|p| - 1] == l
  }

  /** `l` is reachable from the root inside the group. */
  ghost predicate Reach(g: Group, l: Lib)
  {
    l in g.members && exists p :: ChainTo(g, p, l)
  }

  /** A dependency cycle among reachable members other than the root. */
  ghost predicate RootlessCycle(g: Group, p: seq<Lib>)
  {
    && Chain(g, p) && |p| > 1 && p[0] == p[|p| - 1]
    && forall i :: 0 <= i < |p| ==> p[i] != g.root && Reach(g, p[i])
  }

  ghost predicate NoRootlessCycle(g: Group)
  {
    forall p :: !RootlessCycle(g, p)
  }

  /** Nothing but reachable members depends on a reachable member, the root apart. */
  ghost predicate DependantsInside(g: Group)
    requires g.Valid()
  {
    forall l, p :: l in g.members && l != g.root && Reach(g, l) && p in g.dependants[l] ==> Reach(g, p)
  }

  /** What can be checked of a group before it is torn down. */
  ghost predicate Collectable(g: Group)
    requires g.Valid()
  {
    DependantsInside(g) && NoRootlessCycle(g)
  }

  lemma ReachStep(g: Group, a: Lib, b: Lib)
    requires Reach(g, a) && Edge(g, a, b)
    ensures Reach(g, b)
  {
    var p :| ChainTo(g, p, a);
    var q := p + [b];
    forall i | 0 <= i < |q| - 1 ensures Step(g, q, i) {
      if i < |p| - 1 {
        assert Step(g, p, i);
      }
    }
    assert ChainTo(g, q, b);
  }

  /** A reachable library other than the root has a reachable dependant. */
  lemma ReachBack(g: Group, l: Lib) returns (p: Lib)
    requires Reach(g, l) && l != g.root
    ensures Edge(g, p, l) && Reach(g, p)
  {
    var q :| ChainTo(g, q, l);
    var n := |q| - 1;
    p := q[n - 1];
    assert Step(g, q, n - 1);
    var q' := q[..n];
    forall i | 0 <= i < |q'| - 1 ensures Step(g, q', i) {
      assert Step(g, q, i);
    }
    assert ChainTo(g, q', p);
  }

  /** Only reachable libraries are taken. */
  lemma {:induction false} TakenAreReachable(g: Group, order: seq<Lib>, i: nat)
    requires g.Valid() && PeelPrefix(g, order)
    requires i < |order|
    ensures Reach(g, order[i])
  {
    if i == 0 {
      assert ChainTo(g, [g.root], g.root);
    } else {
      assert Ready(g, Elems(order[..i]), order[i]);
      var p :| p in g.dependants[order[i]];
      DependantsFirst(g, order, i, p);
      var j :| 0 <= j < i && order[j] == p;
      TakenAreReachable(g, order, j);
      ReachStep(g, p, order[i]);
    }
  }

  ghost predicate HasDependantIn(g: Group, us: set<Lib>, x: Lib)
  {
    exists y :: y in us && Edge(g, y, x)
  }

  /** Where every library of `us` has a dependant in `us` there are dependency chains of any length. */
  lemma {:induction false} WalkBack(g: Group, us: set<Lib>, u: Lib, n: nat) returns (p: seq<Lib>)
    requires u in us && us <= g.members
    requires forall x {:trigger HasDependantIn(g, us, x)} :: x in us ==> HasDependantIn(g, us, x)
    ensures Chain(g, p) && |p| == n + 1
    ensures forall i :: 0 <= i < |p| ==> p[i] in us
  {
    if n == 0 {
      p := [u];
    } else {
      var q := WalkBack(g, us, u, n - 1);
      assert HasDependantIn(g, us, q[0]);
      var y :| y in us && Edge(g, y, q[0]);
      p := [y] + q;
      forall i | 0 <= i < |p| - 1 ensures Step(g, p, i) {
        if i > 0 {
          assert Step(g, q, i - 1);
        }
      }
    }
  }

  /** A sequence longer than the set its elements come from repeats one of them. */
  lemma {:induction false} Repeats(p: seq<Lib>, us: set<Lib>) returns (i: nat, j: nat)
    requires forall k :: 0 <= k < |p| ==> p[k] in us
    requires |p| > |us|
    ensures i < j < |p| && p[i] == p[j]
  {
    var x := p[0];
    if k :| 0 < k < |p| && p[k] == x {
      i, j := 0, k;
    } else {
      forall k | 0 <= k < |p[1..]| ensures p[1..][k] in us - {x} {
        assert p[1..][k] == p[k + 1];
      }
      i, j := Repeats(p[1..], us - {x});
      i, j := i + 1, j + 1;
    }
  }

  lemma CycleInside(g: Group, us: set<Lib>, u: Lib) returns (c: seq<Lib>)
    requires u in us && us <= g.members
    requires forall x {:trigger HasDependantIn(g, us, x)} :: x in us ==> HasDependantIn(g, us, x)
    ensures Chain(g, c) && |c| > 1 && c[0] == c[|c| - 1]
    ensures forall i :: 0 <= i < |c| ==> c[i] in us
  {
    var p := WalkBack(g, us, u, |us|);
    var i, j := Repeats(p, us);
    c := p[i..j + 1];
    forall k | 0 <= k < |c| - 1 ensures Step(g, c, k) {
      assert Step(g, p, i + k);
    }
  }

  /** Whoever is left behind is kept by another library left behind. */
  lemma LeftBehind(g: Group, order: seq<Lib>, x: Lib)
    requires g.Valid() && PeelOrder(g, order) && DependantsInside(g)
    requires x !in order && Reach(g, x)
    ensures exists y :: y !in order && Reach(g, y) && Edge(g, y, x)
  {
    var p := ReachBack(g, x);
    assert !Ready(g, Elems(order), x);
    var y :| y in g.dependants[x] && y !in Elems(order);
    assert Reach(g, y);
  }

  /** A group without rootless cycles and outside dependants is taken as a whole. */
  lemma CollectableIsTaken(g: Group, order: seq<Lib>, l: Lib)
    requires g.Valid() && PeelOrder(g, order) && Collectable(g)
    requires Reach(g, l)
    ensures l in order
  {
    if l !in order {
      var us := set x | x in g.members && x !in order && Reach(g, x);
      forall x | x in us ensures HasDependantIn(g, us, x) {
        LeftBehind(g, order, x);
        var y :| y !in order && Reach(g, y) && Edge(g, y, x);
        assert y in us;
      }
      var c := CycleInside(g, us, l);
      assert RootlessCycle(g, c);
      assert false;
    }
  }

  /** Along a chain that avoids the root every dependant comes first. */
  lemma {:induction false} ChainDescends(g: Group, order: seq<Lib>, c: seq<Lib>, i: nat, n: nat) returns (j: nat)
    requires g.Valid() && PeelPrefix(g, order)
    requires Chain(g, c) && forall k :: 0 <= k < |c| ==> c[k] != g.root
    requires n < |c| && i < |order| && order[i] == c[n]
    ensures j < |order| && order[j] == c[0] && j + n <= i
    decreases n
  {
    if n == 0 {
      j := i;
    } else {
      var m := ChainStep(g, order, c, i, n);
      j := ChainDescends(g, order, c, m, n - 1);
    }
  }

  lemma ChainStep(g: Group, order: seq<Lib>, c: seq<Lib>, i: nat, n: nat) returns (m: nat)
    requires g.Valid() && PeelPrefix(g, order) && Chain(g, c) && 0 < n < |c| && c[n] != g.root
    requires i < |order| && order[i] == c[n]
    ensures m < i && order[m] == c[n - 1]
  {
    assert Step(g, c, n - 1);
    DependantsFirst(g, order, i, c[n - 1]);
    m :| 0 <= m < i && order[m] == c[n - 1];
  }

  /** A group that is taken as a whole has neither rootless cycles nor outside dependants. */
  lemma TakenIsCollectable(g: Group, order: seq<Lib>)
    requires g.Valid() && PeelOrder(g, order)
    requires forall l :: Reach(g, l) <==> l in order
    ensures Collectable(g)
  {
    forall l, p | l in g.members && l != g.root && Reach(g, l) && p in g.dependants[l]
      ensures Reach(g, p)
    {
      var i :| 0 <= i < |order| && order[i] == l;
      DependantsFirst(g, order, i, p);
    }
    forall c ensures !RootlessCycle(g, c) {
      if RootlessCycle(g, c) {
        var n := |c| - 1;
        assert Reach(g, c[n]);
        var i :| 0 <= i < |order| && order[i] == c[n];
        var j := ChainDescends(g, order, c, i, n);
        assert false;
      }
    }
  }

  /** Only reachable members are taken down, and all of them exactly if the group is collectable: nothing
      outside depends on one of them, and without the root there is no dependency cycle. */
  lemma TeardownComplete(g: Group, order: seq<Lib>)
    requires g.Valid() && PeelOrder(g, order)
    ensures forall l :: l in order ==> Reach(g, l)
    ensures (forall l :: Reach(g, l) ==> l in order) <==> Collectable(g)
  {
    forall l | l in order ensures Reach(g, l) {
      var i :| 0 <= i < |order| && order[i] == l;
      TakenAreReachable(g, order, i);
    }
    if forall l :: Reach(g, l) ==> l in order {
      TakenIsCollectable(g, order);
    }
    if Collectable(g) {
      forall l | Reach(g, l) ensures l in order {
        CollectableIsTaken(g, order, l);
      }
    }
  }

  /** A root that needs 2, where 2 and 3 need each other: only the root is taken. */
  lemma CycleStays()
    ensures var g := Group(1, {1, 2, 3}, map[1 := {}, 2 := {1, 3}, 3 := {2}]);
            g.Valid() && PeelOrder(g, [1]) && Reach(g, 2) && Reach(g, 3) && !Collectable(g)
  {
    var g := Group(1, {1, 2, 3}, map[1 := {}, 2 := {1, 3}, 3 := {2}]);
    assert Elems([1]) == {1};
    assert 3 in g.dependants[2] && 2 in g.dependants[3];
    assert ChainTo(g, [1], 1);
    ReachStep(g, 1, 2);
    ReachStep(g, 2, 3);
    TeardownComplete(g, [1]);
    assert 2 !in [1];
  }
}
