/**
  `walk_dependencies_tree`: the breadth-first walk over the dependency graph that local groups and symbol
  lookups are built on.
 */
module Walk {
  import opened Basics
  import opened Soinfo

  datatype Action = Stop | Continue | Skip

  /** The action may keep state between calls, so its answer depends on the libraries it was called on before. */
  type Visitor = (seq<Lib>, Lib) -> Action

  ghost predicate Closed(g: map<Lib, seq<Lib>>)
  {
    forall l, c {:trigger c in g[l]} :: l in g && c in g[l] ==> c in g
  }

  /** The libraries the action has been called on when the walk ends, and whether it was not stopped. */
  ghost function WalkFrom(g: map<Lib, seq<Lib>>, queue: seq<Lib>, visited: seq<Lib>, act: Visitor): (seq<Lib>, bool)
    requires Closed(g) && forall q :: q in queue ==> q in g
    decreases g.Keys - Elems(visited), |queue|
  {
    if queue == [] then (visited, true)
    else
      var si, rest := queue[0], queue[1..];
      if si in visited then WalkFrom(g, rest, visited, act)
      else
        var longer := visited + [si];
        assert si in Elems(longer) && si !in Elems(visited) && Elems(visited) <= Elems(longer);
        match act(visited, si)
        case Stop => (longer, false)
        case Continue => WalkFrom(g, rest + g[si], longer, act)
        case Skip => WalkFrom(g, rest, longer, act)
  }

  /** `walk_dependencies_tree`. */
  method WalkDependencies(g: map<Lib, seq<Lib>>, root: Lib, act: Visitor) returns (visited: seq<Lib>, finished: bool)
    requires Closed(g) && root in g
    ensures (visited, finished) == WalkFrom(g, [root], [], act)
  {
    var visitList := [root];
    visited := [];
    while visitList != []
      invariant forall q :: q in visitList ==> q in g
      invariant WalkFrom(g, visitList, visited, act) == WalkFrom(g, [root], [], act)
      decreases g.Keys - Elems(visited), |visitList|
    {
      var si := visitList[0];
      visitList := visitList[1..];
      if si !in visited {
        var result := act(visited, si);
        ghost var before := visited;
        visited := visited + [si];
        assert si in Elems(visited) && si !in Elems(before) && Elems(before) <= Elems(visited);
        if result == Stop {
          return visited, false;
        }
        if result != Skip {
          visitList := visitList + g[si];
        }
      }
    }
    finished := true;
  }

  // ---------------------------------------------------------------------------------
  // Breadth first
  // ---------------------------------------------------------------------------------

  ghost predicate Distinct(s: seq<Lib>)
  {
    forall i, j :: 0 <= i < j < |s| ==> s[i] != s[j]
  }

  /** `open` are the visited libraries whose children were queued. */
  ghost predicate Opened(visited: seq<Lib>, act: Visitor, open: set<Lib>)
  {
    && open <= Elems(visited)
    && forall i :: 0 <= i < |visited| ==> (visited[i] in open <==> act(visited[..i], visited[i]) == Continue)
  }

  ghost predicate Queued(queue: seq<Lib>, qlevel: seq<nat>, c: Lib, bound: nat)
  {
    exists k :: 0 <= k < |queue| && k < |qlevel| && queue[k] == c && qlevel[k] <= bound
  }

  /** How far from the root the visited libraries are, and from where they were reached. */
  datatype Layers = Layers(level: map<Lib, nat>, from: map<Lib, Lib>)

  ghost predicate Reached(g: map<Lib, seq<Lib>>, open: set<Lib>, y: Layers, v: Lib)
  {
    && v in y.from && v in y.level
    && var u := y.from[v]; u in open && u in g && v in g[u] && u in y.level && y.level[v] == y.level[u] + 1
  }

  ghost predicate Shape(root: Lib, visited: seq<Lib>, open: set<Lib>, y: Layers)
  {
    && Distinct(visited)
    && open <= Elems(visited)
    && y.level.Keys == Elems(visited) && y.from.Keys == Elems(visited)
    && (visited != [] ==> visited[0] == root && root in y.level && y.level[root] == 0)
  }

  ghost predicate Tree(g: map<Lib, seq<Lib>>, root: Lib, open: set<Lib>, y: Layers)
  {
    forall v {:trigger Reached(g, open, y, v)} :: v in y.level && v != root ==> Reached(g, open, y, v)
  }

  ghost predicate Sorted(visited: seq<Lib>, y: Layers)
  {
    && (forall i :: 0 <= i < |visited| ==> visited[i] in y.level)
    && (forall i, j :: 0 <= i < j < |visited| ==> y.level[visited[i]] <= y.level[visited[j]])
  }

  /** The queue: where each entry came from and how far away it is. */
  datatype Line = Line(libs: seq<Lib>, level: seq<nat>, from: seq<Lib>)
  {
    ghost predicate Sized() {
      |level| == |libs| && |from| == |libs|
    }

    ghost function Tail(): Line
      requires Sized() && libs != []
    {
      Line(libs[1..], level[1..], from[1..])
    }
  }

  /** The queue is ordered by distance, and nothing in it is nearer than the library visited last. */
  ghost predicate Ordered(visited: seq<Lib>, y: Layers, q: Line)
  {
    && q.Sized()
    && (forall j, k :: 0 <= j < k < |q.libs| ==> q.level[j] <= q.level[k])
    && (visited != [] ==>
          && visited[|visited| - 1] in y.level
          && forall k :: 0 <= k < |q.libs| ==> y.level[visited[|visited| - 1]] <= q.level[k])
  }

  /** The queue holds the root, or children of opened libraries. */
  ghost predicate Fed(g: map<Lib, seq<Lib>>, root: Lib, visited: seq<Lib>, open: set<Lib>, y: Layers, q: Line)
  {
    && q.Sized()
    && if visited == [] then q.libs == [root] && q.level == [0]
       else forall k :: 0 <= k < |q.libs| ==>
              q.from[k] in open && q.from[k] in g && q.from[k] in y.level &&
              q.libs[k] in g[q.from[k]] && q.level[k] == y.level[q.from[k]] + 1
  }

  /** No child of an opened library has been forgotten. */
  ghost predicate Covered(g: map<Lib, seq<Lib>>, open: set<Lib>, y: Layers, q: Line)
  {
    && q.Sized()
    && forall u, c {:trigger c in g[u]} :: u in open && u in y.level && u in g && c in g[u] ==> Noticed(y, q, c, y.level[u] + 1)
  }

  ghost predicate Noticed(y: Layers, q: Line, c: Lib, bound: nat)
  {
    (c in y.level && y.level[c] <= bound) || Queued(q.libs, q.level, c, bound)
  }

  ghost predicate Walking(g: map<Lib, seq<Lib>>, root: Lib, visited: seq<Lib>, open: set<Lib>, y: Layers, q: Line)
  {
    && Shape(root, visited, open, y)
    && Tree(g, root, open, y)
    && Sorted(visited, y)
    && Ordered(visited, y, q)
    && Fed(g, root, visited, open, y, q)
    && Covered(g, open, y, q)
  }

  lemma QueuedTail(q: Line, c: Lib, bound: nat)
    requires q.Sized() && q.libs != [] && Queued(q.libs, q.level, c, bound)
    ensures (c == q.libs[0] && q.level[0] <= bound) || Queued(q.Tail().libs, q.Tail().level, c, bound)
  {
    var k :| 0 <= k < |q.libs| && q.libs[k] == c && q.level[k] <= bound;
    if k > 0 {
      assert q.Tail().libs[k - 1] == c && q.Tail().level[k - 1] <= bound;
    }
  }

  /** Libraries that were visited are not further away than the last one. */
  lemma LastIsFarthest(visited: seq<Lib>, y: Layers, v: Lib)
    requires Sorted(visited, y) && v in visited
    ensures v in y.level && y.level[v] <= y.level[visited[|visited| - 1]]
  {
    var i :| 0 <= i < |visited| && visited[i] == v;
  }

  /** A queue entry that was visited in the meantime is dropped. */
  lemma DropCovered(g: map<Lib, seq<Lib>>, visited: seq<Lib>, open: set<Lib>, y: Layers, q: Line)
    requires Sorted(visited, y) && Ordered(visited, y, q) && Covered(g, open, y, q)
    requires q.libs != [] && q.libs[0] in visited
    ensures Covered(g, open, y, q.Tail())
  {
    LastIsFarthest(visited, y, q.libs[0]);
    forall u, c {:trigger c in g[u]} | u in open && u in y.level && u in g && c in g[u]
      ensures Noticed(y, q.Tail(), c, y.level[u] + 1)
    {
      if !(c in y.level && y.level[c] <= y.level[u] + 1) {
        QueuedTail(q, c, y.level[u] + 1);
      }
    }
  }

  lemma Drop(g: map<Lib, seq<Lib>>, root: Lib, visited: seq<Lib>, open: set<Lib>, y: Layers, q: Line)
    requires Walking(g, root, visited, open, y, q)
    requires q.libs != [] && q.libs[0] in visited
    ensures Walking(g, root, visited, open, y, q.Tail())
  {
    DropCovered(g, visited, open, y, q);
  }

  ghost function Extend(y: Layers, v: Lib, level: nat, from: Lib): Layers
  {
    Layers(y.level[v := level], y.from[v := from])
  }

  lemma VisitShape(root: Lib, visited: seq<Lib>, open: set<Lib>, y: Layers, si: Lib, level: nat, from: Lib)
    requires Shape(root, visited, open, y)
    requires si !in visited && (visited == [] ==> si == root && level == 0)
    ensures Shape(root, visited + [si], open, Extend(y, si, level, from))
  {
    assert Elems(visited + [si]) == Elems(visited) + {si};
  }

  lemma VisitTree(g: map<Lib, seq<Lib>>, root: Lib, open: set<Lib>, y: Layers, si: Lib, level: nat, from: Lib)
    requires Tree(g, root, open, y)
    requires si !in y.level
    requires si != root ==> from in open && from in g && si in g[from] && from in y.level && level == y.level[from] + 1
    requires open <= y.level.Keys
    ensures Tree(g, root, open, Extend(y, si, level, from))
  {
    var y' := Extend(y, si, level, from);
    forall v | v in y'.level && v != root ensures Reached(g, open, y', v) {
      if v != si {
        assert Reached(g, open, y, v);
      }
    }
  }

  lemma VisitSorted(visited: seq<Lib>, y: Layers, si: Lib, level: nat, from: Lib)
    requires Sorted(visited, y) && si !in visited
    requires visited != [] ==> y.level[visited[|visited| - 1]] <= level
    ensures Sorted(visited + [si], Extend(y, si, level, from))
  {
    var longer, y' := visited + [si], Extend(y, si, level, from);
    forall i, j | 0 <= i < j < |longer| ensures y'.level[longer[i]] <= y'.level[longer[j]] {
      if j == |visited| {
        LastIsFarthest(visited, y, visited[i]);
      } else {
        assert longer[i] == visited[i] && longer[j] == visited[j];
      }
    }
  }

  lemma VisitCovered(g: map<Lib, seq<Lib>>, open: set<Lib>, y: Layers, q: Line)
    requires Covered(g, open, y, q) && open <= y.level.Keys
    requires q.libs != [] && q.libs[0] !in y.level
    ensures Covered(g, open, Extend(y, q.libs[0], q.level[0], q.from[0]), q.Tail())
  {
    var y' := Extend(y, q.libs[0], q.level[0], q.from[0]);
    forall u, c {:trigger c in g[u]} | u in open && u in y'.level && u in g && c in g[u]
      ensures Noticed(y', q.Tail(), c, y'.level[u] + 1)
    {
      assert Noticed(y, q, c, y.level[u] + 1);
      if !(c in y.level && y.level[c] <= y.level[u] + 1) {
        QueuedTail(q, c, y.level[u] + 1);
      }
    }
  }

  lemma VisitFed(g: map<Lib, seq<Lib>>, root: Lib, visited: seq<Lib>, open: set<Lib>, y: Layers, q: Line)
    requires Fed(g, root, visited, open, y, q)
    requires q.libs != [] && q.libs[0] !in y.level
    ensures Fed(g, root, visited + [q.libs[0]], open, Extend(y, q.libs[0], q.level[0], q.from[0]), q.Tail())
  {
    var y', q' := Extend(y, q.libs[0], q.level[0], q.from[0]), q.Tail();
    forall k | 0 <= k < |q'.libs|
      ensures q'.from[k] in open && q'.from[k] in g && q'.from[k] in y'.level &&
              q'.libs[k] in g[q'.from[k]] && q'.level[k] == y'.level[q'.from[k]] + 1
    {
      assert q'.from[k] == q.from[k + 1] && q'.libs[k] == q.libs[k + 1] && q'.level[k] == q.level[k + 1];
    }
  }

  /** The next library is visited: it is no nearer than those before it. */
  lemma Visit(g: map<Lib, seq<Lib>>, root: Lib, visited: seq<Lib>, open: set<Lib>, y: Layers, q: Line)
    requires Walking(g, root, visited, open, y, q)
    requires q.libs != [] && q.libs[0] !in visited
    ensures Walking(g, root, visited + [q.libs[0]], open, Extend(y, q.libs[0], q.level[0], q.from[0]), q.Tail())
  {
    var si := q.libs[0];
    VisitShape(root, visited, open, y, si, q.level[0], q.from[0]);
    VisitTree(g, root, open, y, si, q.level[0], q.from[0]);
    VisitSorted(visited, y, si, q.level[0], q.from[0]);
    VisitCovered(g, open, y, q);
    VisitFed(g, root, visited, open, y, q);
    assert (visited + [si])[|visited|] == si;
  }

  ghost function Repeat(x: nat, n: nat): (r: seq<nat>)
    ensures |r| == n && forall i :: 0 <= i < n ==> r[i] == x
  {
    if n == 0 then [] else Repeat(x, n - 1) + [x]
  }

  /** The queue with the children of `si` at its end. */
  ghost function Fill(q: Line, si: Lib, more: seq<Lib>, level: nat): Line
  {
    Line(q.libs + more, q.level + Repeat(level, |more|), q.from + Repeat(si, |more|))
  }

  lemma QueuedMore(q: Line, si: Lib, more: seq<Lib>, level: nat, c: Lib, bound: nat)
    requires q.Sized()
    requires Queued(q.libs, q.level, c, bound) || (c in more && level <= bound)
    ensures Queued(Fill(q, si, more, level).libs, Fill(q, si, more, level).level, c, bound)
  {
    var q' := Fill(q, si, more, level);
    if Queued(q.libs, q.level, c, bound) {
      var k :| 0 <= k < |q.libs| && q.libs[k] == c && q.level[k] <= bound;
      assert q'.libs[k] == c && q'.level[k] <= bound;
    } else {
      var k :| 0 <= k < |more| && more[k] == c;
      assert q'.libs[|q.libs| + k] == c && q'.level[|q.libs| + k] <= bound;
    }
  }

  lemma OpenTree(g: map<Lib, seq<Lib>>, root: Lib, open: set<Lib>, y: Layers, si: Lib)
    requires Tree(g, root, open, y)
    ensures Tree(g, root, open + {si}, y)
  {
    forall v | v in y.level && v != root ensures Reached(g, open + {si}, y, v) {
      assert Reached(g, open, y, v);
    }
  }

  lemma OpenCovered(g: map<Lib, seq<Lib>>, open: set<Lib>, y: Layers, q: Line, si: Lib)
    requires Covered(g, open, y, q) && si in y.level && si in g
    ensures Covered(g, open + {si}, y, Fill(q, si, g[si], y.level[si] + 1))
  {
    var q' := Fill(q, si, g[si], y.level[si] + 1);
    forall u, c {:trigger c in g[u]} | u in open + {si} && u in y.level && u in g && c in g[u]
      ensures Noticed(y, q', c, y.level[u] + 1)
    {
      if !(c in y.level && y.level[c] <= y.level[u] + 1) {
        QueuedMore(q, si, g[si], y.level[si] + 1, c, y.level[u] + 1);
      }
    }
  }

  lemma OpenOrdered(g: map<Lib, seq<Lib>>, root: Lib, visited: seq<Lib>, open: set<Lib>, y: Layers, q: Line, more: seq<Lib>)
    requires Shape(root, visited, open, y) && Sorted(visited, y)
    requires Ordered(visited, y, q) && Fed(g, root, visited, open, y, q)
    requires visited != []
    ensures var si := visited[|visited| - 1]; Ordered(visited, y, Fill(q, si, more, y.level[si] + 1))
  {
    var si := visited[|visited| - 1];
    forall k | 0 <= k < |q.libs| ensures q.level[k] <= y.level[si] + 1 {
      assert q.from[k] in Elems(visited);
      LastIsFarthest(visited, y, q.from[k]);
    }
  }

  lemma OpenFed(g: map<Lib, seq<Lib>>, root: Lib, visited: seq<Lib>, open: set<Lib>, y: Layers, q: Line, si: Lib)
    requires Fed(g, root, visited, open, y, q) && visited != [] && si in y.level && si in g
    ensures Fed(g, root, visited, open + {si}, y, Fill(q, si, g[si], y.level[si] + 1))
  {
  }

  lemma OpenShape(root: Lib, visited: seq<Lib>, open: set<Lib>, y: Layers, si: Lib)
    requires Shape(root, visited, open, y) && si in visited
    ensures Shape(root, visited, open + {si}, y) && si in y.level
  {
  }

  /** The children of the library visited last join the queue. */
  lemma Open(g: map<Lib, seq<Lib>>, root: Lib, visited: seq<Lib>, open: set<Lib>, y: Layers, q: Line, si: Lib)
    requires Walking(g, root, visited, open, y, q)
    requires visited != [] && visited[|visited| - 1] == si && si in g
    ensures si in y.level && Walking(g, root, visited, open + {si}, y, Fill(q, si, g[si], y.level[si] + 1))
  {
    assert si in visited;
    OpenShape(root, visited, open, y, si);
    OpenTree(g, root, open, y, si);
    OpenCovered(g, open, y, q, si);
    OpenOrdered(g, root, visited, open, y, q, g[si]);
    OpenFed(g, root, visited, open, y, q, si);
  }

  // ---------------------------------------------------------------------------------
  // The whole walk
  // ---------------------------------------------------------------------------------

  lemma OpenedMore(visited: seq<Lib>, act: Visitor, open: set<Lib>, si: Lib)
    requires Opened(visited, act, open) && si !in visited
    ensures Opened(visited + [si], act, if act(visited, si) == Continue then open + {si} else open)
  {
    var longer := visited + [si];
    var open' := if act(visited, si) == Continue then open + {si} else open;
    forall i | 0 <= i < |longer| ensures longer[i] in open' <==> act(longer[..i], longer[i]) == Continue {
      if i < |visited| {
        assert longer[i] == visited[i] && longer[..i] == visited[..i];
        assert visited[i] in visited;
      } else {
        assert longer[..i] == visited;
      }
    }
  }

  /** What holds of the libraries visited, whether or not the walk was stopped. */
  ghost predicate Visited(g: map<Lib, seq<Lib>>, root: Lib, order: seq<Lib>, act: Visitor, open: set<Lib>, y: Layers)
  {
    Opened(order, act, open) && Shape(root, order, open, y) && Tree(g, root, open, y) && Sorted(order, y)
  }

  /** The state of the walk, with everything that is known of it. */
  ghost predicate OnTheWay(g: map<Lib, seq<Lib>>, root: Lib, visited: seq<Lib>, act: Visitor, open: set<Lib>, y: Layers, q: Line)
  {
    && Closed(g) && (forall l :: l in q.libs ==> l in g)
    && Walking(g, root, visited, open, y, q) && Opened(visited, act, open)
  }

  lemma Dropped(g: map<Lib, seq<Lib>>, root: Lib, visited: seq<Lib>, act: Visitor, open: set<Lib>, y: Layers, q: Line)
    requires OnTheWay(g, root, visited, act, open, y, q) && q.libs != [] && q.libs[0] in visited
    ensures OnTheWay(g, root, visited, act, open, y, q.Tail())
  {
    Drop(g, root, visited, open, y, q);
  }

  /** The layers once the first library of the queue has been visited. */
  ghost function Grown(y: Layers, q: Line): Layers
    requires q.Sized() && q.libs != []
  {
    Extend(y, q.libs[0], q.level[0], q.from[0])
  }

  lemma VisitedNext(g: map<Lib, seq<Lib>>, root: Lib, visited: seq<Lib>, act: Visitor, open: set<Lib>, y: Layers, q: Line)
    requires OnTheWay(g, root, visited, act, open, y, q) && q.libs != [] && q.libs[0] !in visited
    ensures Walking(g, root, visited + [q.libs[0]], open, Grown(y, q), q.Tail())
    ensures Opened(visited + [q.libs[0]], act, if act(visited, q.libs[0]) == Continue then open + {q.libs[0]} else open)
  {
    Visit(g, root, visited, open, y, q);
    OpenedMore(visited, act, open, q.libs[0]);
  }

  lemma Skipped(g: map<Lib, seq<Lib>>, root: Lib, visited: seq<Lib>, act: Visitor, open: set<Lib>, y: Layers, q: Line)
    requires OnTheWay(g, root, visited, act, open, y, q) && q.libs != [] && q.libs[0] !in visited
    requires act(visited, q.libs[0]) != Continue
    ensures OnTheWay(g, root, visited + [q.libs[0]], act, open, Grown(y, q), q.Tail())
  {
    VisitedNext(g, root, visited, act, open, y, q);
  }

  lemma FilledLoaded(g: map<Lib, seq<Lib>>, q: Line, si: Lib, level: nat)
    requires Closed(g) && (forall l :: l in q.libs ==> l in g) && si in g
    ensures forall l :: l in Fill(q, si, g[si], level).libs ==> l in g
  {
    forall l | l in Fill(q, si, g[si], level).libs ensures l in g {
      assert l in q.libs || l in g[si];
    }
  }

  lemma LastIs(visited: seq<Lib>, si: Lib)
    ensures (visited + [si])[|visited + [si]| - 1] == si
  {
  }

  lemma Continued(g: map<Lib, seq<Lib>>, root: Lib, visited: seq<Lib>, act: Visitor, open: set<Lib>, y: Layers, q: Line)
    returns (si: Lib, z: Layers, next: Line)
    requires OnTheWay(g, root, visited, act, open, y, q) && q.libs != [] && q.libs[0] !in visited
    requires act(visited, q.libs[0]) == Continue
    ensures si == q.libs[0] && si in g && OnTheWay(g, root, visited + [si], act, open + {si}, z, next)
    ensures next.libs == q.libs[1..] + g[si]
  {
    si, z := q.libs[0], Grown(y, q);
    VisitedNext(g, root, visited, act, open, y, q);
    LastIs(visited, si);
    Open(g, root, visited + [si], open, z, q.Tail(), si);
    next := Fill(q.Tail(), si, g[si], z.level[si] + 1);
    FilledLoaded(g, q.Tail(), si, z.level[si] + 1);
  }

  lemma Shrinks(g: map<Lib, seq<Lib>>, visited: seq<Lib>, si: Lib)
    requires si in g && si !in visited
    ensures g.Keys - Elems(visited + [si]) < g.Keys - Elems(visited)
  {
    assert si in Elems(visited + [si]) && si !in Elems(visited) && Elems(visited) <= Elems(visited + [si]);
  }

  lemma {:induction false} WalkLayers(g: map<Lib, seq<Lib>>, root: Lib, visited: seq<Lib>, act: Visitor, open: set<Lib>, y: Layers, q: Line)
    returns (open': set<Lib>, y': Layers)
    requires OnTheWay(g, root, visited, act, open, y, q)
    ensures var (order, finished) := WalkFrom(g, q.libs, visited, act);
            && Visited(g, root, order, act, open', y')
            && (finished ==> Covered(g, open', y', Line([], [], [])))
    decreases g.Keys - Elems(visited), |q.libs|
  {
    if q.libs == [] {
      assert q == Line([], [], []);
      open', y' := open, y;
    } else if q.libs[0] in visited {
      Dropped(g, root, visited, act, open, y, q);
      open', y' := WalkLayers(g, root, visited, act, open, y, q.Tail());
    } else {
      var si := q.libs[0];
      Shrinks(g, visited, si);
      if act(visited, si) == Continue {
        var _, z, next := Continued(g, root, visited, act, open, y, q);
        open', y' := WalkLayers(g, root, visited + [si], act, open + {si}, z, next);
      } else {
        Skipped(g, root, visited, act, open, y, q);
        if act(visited, si) == Skip {
          open', y' := WalkLayers(g, root, visited + [si], act, open, Grown(y, q), q.Tail());
        } else {
          open', y' := open, Grown(y, q);
        }
      }
    }
  }

  // ---------------------------------------------------------------------------------
  // Routes
  // ---------------------------------------------------------------------------------

  ghost predicate Hop(g: map<Lib, seq<Lib>>, open: set<Lib>, p: seq<Lib>, i: int)
  {
    0 <= i < |p| - 1 && p[i] in open && p[i] in g && p[i + 1] in g[p[i]]
  }

  /** A path from the root through opened libraries. */
  ghost predicate Route(g: map<Lib, seq<Lib>>, root: Lib, open: set<Lib>, p: seq<Lib>, v: Lib)
  {
    && |p| > 0 && p[0] == root && p[|p| - 1] == v
    && forall i :: 0 <= i < |p| - 1 ==> Hop(g, open, p, i)
  }

  lemma RouteShorter(g: map<Lib, seq<Lib>>, root: Lib, open: set<Lib>, p: seq<Lib>, v: Lib)
    requires Route(g, root, open, p, v) && |p| > 1
    ensures var n := |p| - 1; Route(g, root, open, p[..n], p[n - 1]) && Hop(g, open, p, n - 1)
  {
    var n := |p| - 1;
    forall i | 0 <= i < n - 1 ensures Hop(g, open, p[..n], i) {
      assert Hop(g, open, p, i);
    }
  }

  lemma RouteLonger(g: map<Lib, seq<Lib>>, root: Lib, open: set<Lib>, p: seq<Lib>, u: Lib, v: Lib)
    requires Route(g, root, open, p, u) && u in open && u in g && v in g[u]
    ensures Route(g, root, open, p + [v], v)
  {
    var q := p + [v];
    forall i | 0 <= i < |q| - 1 ensures Hop(g, open, q, i) {
      if i < |p| - 1 {
        assert Hop(g, open, p, i);
      }
    }
  }

  /** No route is shorter than the level of the library it leads to. */
  lemma {:induction false} RouteBound(g: map<Lib, seq<Lib>>, root: Lib, open: set<Lib>, y: Layers, p: seq<Lib>, v: Lib)
    requires Covered(g, open, y, Line([], [], [])) && root in y.level && y.level[root] == 0
    requires Route(g, root, open, p, v)
    ensures v in y.level && y.level[v] <= |p| - 1
    decreases |p|
  {
    if |p| > 1 {
      var u := p[|p| - 2];
      RouteShorter(g, root, open, p, v);
      RouteBound(g, root, open, y, p[..|p| - 1], u);
      assert v in g[u];
      assert Noticed(y, Line([], [], []), v, y.level[u] + 1);
    }
  }

  /** There is a route of exactly that length. */
  lemma {:induction false} RouteAlongTree(g: map<Lib, seq<Lib>>, root: Lib, open: set<Lib>, y: Layers, v: Lib) returns (p: seq<Lib>)
    requires Tree(g, root, open, y) && root in y.level && y.level[root] == 0
    requires v in y.level
    ensures Route(g, root, open, p, v) && |p| == y.level[v] + 1
    decreases y.level[v]
  {
    if v == root {
      p := [root];
    } else {
      assert Reached(g, open, y, v);
      var u := y.from[v];
      p := RouteAlongTree(g, root, open, y, u);
      RouteLonger(g, root, open, p, u, v);
      p := p + [v];
    }
  }

  /** `v` is `n` steps away from the root. */
  ghost predicate Distance(g: map<Lib, seq<Lib>>, root: Lib, open: set<Lib>, v: Lib, n: nat)
  {
    && (exists p :: Route(g, root, open, p, v) && |p| == n + 1)
    && (forall p :: Route(g, root, open, p, v) ==> |p| >= n + 1)
  }

  /** The walk calls the action at most once on each library. If it is not stopped it visits exactly the
      libraries that can be reached through libraries whose children were not skipped, nearest first. */
  lemma WalkIsBreadthFirst(g: map<Lib, seq<Lib>>, root: Lib, act: Visitor) returns (open: set<Lib>, y: Layers)
    requires Closed(g) && root in g
    ensures var (order, finished) := WalkFrom(g, [root], [], act);
            && Distinct(order) && Opened(order, act, open)
            && y.level.Keys == Elems(order)
            && (finished ==> forall v :: v in order <==> exists p :: Route(g, root, open, p, v))
            && (finished ==> forall v :: v in order ==> Distance(g, root, open, v, y.level[v]))
            && Sorted(order, y)
  {
    var (order, finished) := WalkFrom(g, [root], [], act);
    open, y := WalkLayers(g, root, [], act, {}, Layers(map[], map[]), Line([root], [0], [root]));
    WalkStarts(g, root, act);
    if finished {
      forall v | v in order ensures Distance(g, root, open, v, y.level[v]) {
        var p := RouteAlongTree(g, root, open, y, v);
        forall p | Route(g, root, open, p, v) ensures |p| >= y.level[v] + 1 {
          RouteBound(g, root, open, y, p, v);
        }
      }
      forall v ensures v in order <==> exists p :: Route(g, root, open, p, v) {
        if v in order {
          assert Distance(g, root, open, v, y.level[v]);
        }
        if p :| Route(g, root, open, p, v) {
          RouteBound(g, root, open, y, p, v);
        }
      }
    }
  }

  lemma WalkStarts(g: map<Lib, seq<Lib>>, root: Lib, act: Visitor)
    requires Closed(g) && root in g
    ensures var order := WalkFrom(g, [root], [], act).0; order != [] && order[0] == root
  {
    assert [] + [root] == [root];
    WalkExtends(g, [root][1..], [root], act);
    WalkExtends(g, [root][1..] + g[root], [root], act);
  }

  /** A walk only adds to what was visited. */
  lemma {:induction false} WalkExtends(g: map<Lib, seq<Lib>>, queue: seq<Lib>, visited: seq<Lib>, act: Visitor)
    requires Closed(g) && forall q :: q in queue ==> q in g
    ensures visited <= WalkFrom(g, queue, visited, act).0
    decreases g.Keys - Elems(visited), |queue|
  {
    if queue != [] {
      var si := queue[0];
      if si in visited {
        WalkExtends(g, queue[1..], visited, act);
      } else {
        var longer := visited + [si];
        assert si in Elems(longer) && si !in Elems(visited) && Elems(visited) <= Elems(longer);
        WalkExtends(g, queue[1..], longer, act);
        WalkExtends(g, queue[1..] + g[si], longer, act);
      }
    }
  }
}
