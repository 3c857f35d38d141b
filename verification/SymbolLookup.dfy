/**
  `dlsym_handle_lookup_impl`: the search for a symbol in a library and its dependencies.
 */
module SymbolLookup {
  import opened Basics
  import opened Soinfo
  import opened Walk
  import opened WalkOrder

  /** What the search asks: from where to start, which libraries the namespace may see, and which libraries
      define the symbol. */
  datatype Query = Query(skipUntil: Option<Lib>, accessible: set<Lib>, defines: set<Lib>)
  {
    /** The libraries up to and including `skipUntil` are passed over. */
    predicate Skipping(before: seq<Lib>) {
      skipUntil.Some? && skipUntil.value !in before
    }

    /** The action of the walk; `before` are the libraries it was called on before. */
    function Step(before: seq<Lib>, si: Lib): Action {
      if Skipping(before) then Continue
      else if si !in accessible then Skip
      else if si in defines then Stop
      else Continue
    }

    /** The same walk without stopping at a definition. */
    function Pruned(before: seq<Lib>, si: Lib): Action {
      if Skipping(before) || si in accessible then Continue else Skip
    }
  }

  /** All libraries the search can see, in breadth-first order, pruned below inaccessible libraries. */
  ghost function Order(g: map<Lib, seq<Lib>>, root: Lib, q: Query): seq<Lib>
    requires Closed(g) && root in g
  {
    WalkFrom(g, [root], [], q.Pruned).0
  }

  /** Library `i` is accessible, defines the symbol, and comes after `skipUntil`. */
  ghost predicate MatchAt(order: seq<Lib>, q: Query, i: int)
  {
    && 0 <= i < |order| && order[i] in q.accessible && order[i] in q.defines
    && (q.skipUntil.Some? ==> q.skipUntil.value in order[..i])
  }

  /** The children are followed of what is accessible, and of everything up to `skipUntil`. */
  ghost predicate Follows(order: seq<Lib>, q: Query, open: set<Lib>)
  {
    forall i :: 0 <= i < |order| ==>
      (order[i] in open <==> order[i] in q.accessible || (q.skipUntil.Some? && q.skipUntil.value !in order[..i]))
  }

  /** The walk that stops at the first definition goes the same way until then. */
  lemma {:induction false} StopsAtFirst(g: map<Lib, seq<Lib>>, queue: seq<Lib>, visited: seq<Lib>, q: Query, act: Visitor, full: Visitor)
    requires Closed(g) && forall l :: l in queue ==> l in g
    requires forall b, l :: act(b, l) == q.Step(b, l) && full(b, l) == q.Pruned(b, l)
    requires forall i :: 0 <= i < |visited| ==> !MatchAt(visited, q, i)
    ensures var (order, finished) := WalkFrom(g, queue, visited, act);
            var all := WalkFrom(g, queue, visited, full).0;
            && visited <= all
            && if finished then order == all && forall i :: 0 <= i < |all| ==> !MatchAt(all, q, i)
               else order != [] && order <= all && MatchAt(all, q, |order| - 1) && forall i :: 0 <= i < |order| - 1 ==> !MatchAt(all, q, i)
    decreases g.Keys - Elems(visited), |queue|
  {
    if queue != [] {
      var si := queue[0];
      if si in visited {
        StopsAtFirst(g, queue[1..], visited, q, act, full);
      } else {
        var longer := visited + [si];
        assert si in Elems(longer) && si !in Elems(visited) && Elems(visited) <= Elems(longer);
        assert longer[..|visited|] == visited;
        forall i | 0 <= i < |visited| ensures MatchAt(longer, q, i) <==> MatchAt(visited, q, i) {
          assert longer[..i] == visited[..i];
        }
        match act(visited, si) {
          case Stop =>
            WalkExtends(g, queue[1..] + g[si], longer, full);
            var all := WalkFrom(g, queue, visited, full).0;
            StoppedHere(visited, si, all, q);
          case Continue =>
            StopsAtFirst(g, queue[1..] + g[si], longer, q, act, full);
          case Skip =>
            StopsAtFirst(g, queue[1..], longer, q, act, full);
        }
      }
    }
  }

  lemma {:induction false} NeverStops(g: map<Lib, seq<Lib>>, queue: seq<Lib>, visited: seq<Lib>, q: Query)
    requires Closed(g) && forall l :: l in queue ==> l in g
    ensures WalkFrom(g, queue, visited, q.Pruned).1
    decreases g.Keys - Elems(visited), |queue|
  {
    if queue != [] {
      var si := queue[0];
      if si in visited {
        NeverStops(g, queue[1..], visited, q);
      } else {
        Shrinks(g, visited, si);
        NeverStops(g, queue[1..], visited + [si], q);
        NeverStops(g, queue[1..] + g[si], visited + [si], q);
      }
    }
  }

  lemma StoppedHere(visited: seq<Lib>, si: Lib, all: seq<Lib>, q: Query)
    requires visited + [si] <= all && q.Step(visited, si) == Stop
    requires forall i :: 0 <= i < |visited| ==> !MatchAt(visited, q, i)
    ensures MatchAt(all, q, |visited|) && forall i :: 0 <= i < |visited| ==> !MatchAt(all, q, i)
  {
    var longer := visited + [si];
    assert all[..|visited|] == longer[..|visited|] == visited;
    assert all[|visited|] == longer[|visited|] == si;
    forall i | 0 <= i < |visited| ensures !MatchAt(all, q, i) {
      assert all[..i] == visited[..i] && all[i] == longer[i] == visited[i];
      assert !MatchAt(visited, q, i);
    }
  }

  /** The order of the search is that of a breadth-first walk: by the place of the first parent, and then among its children. */
  ghost predicate OrderIsWalk(g: map<Lib, seq<Lib>>, root: Lib, q: Query)
    requires Closed(g) && root in g
  {
    var act: Visitor := q.Pruned;
    exists open :: IsWalk(g, root, act, Order(g, root, q), open) && Follows(Order(g, root, q), q, open)
  }

  lemma WalkedInOrder(g: map<Lib, seq<Lib>>, root: Lib, q: Query)
    requires Closed(g) && root in g
    ensures OrderIsWalk(g, root, q)
  {
    NeverStops(g, [root], [], q);
    var act: Visitor := q.Pruned;
    var open := WalkIsWalk(g, root, act);
    assert IsWalk(g, root, act, Order(g, root, q), open);
  }

  /** `dlsym_handle_lookup_impl`: the first accessible library strictly after `skipUntil`, in breadth-first
      order, that defines the symbol, and none exactly if there is no such library. */
  method DlsymHandleLookup(g: map<Lib, seq<Lib>>, root: Lib, q: Query) returns (found: Option<Lib>)
    requires Closed(g) && root in g
    ensures OrderIsWalk(g, root, q)
    ensures var order := Order(g, root, q);
            match found
            case None => forall i :: 0 <= i < |order| ==> !MatchAt(order, q, i)
            case Some(l) => exists i :: MatchAt(order, q, i) && order[i] == l && forall j :: 0 <= j < i ==> !MatchAt(order, q, j)
  {
    var visited, finished := WalkDependencies(g, root, q.Step);
    StopsAtFirst(g, [root], [], q, q.Step, q.Pruned);
    WalkedInOrder(g, root, q);
    if finished {
      found := None;
    } else {
      ghost var i := |visited| - 1;
      assert visited[i] == Order(g, root, q)[i];
      found := Some(visited[|visited| - 1]);
    }
  }
}
