/**
  Steps 5 and 6 of `find_libraries`: the newly loaded libraries are split into local groups, one for
  each place where a dependency crosses a namespace boundary, and every group is linked.
 */
module Groups {
  import opened Basics
  import opened Soinfo
  import opened Walk

  /** The part of the loader's state that decides about groups. */
  datatype World = World(
    children: map<Lib, seq<Lib>>,
    parents: map<Lib, seq<Lib>>,
    namespace: map<Lib, Namespace>,
    secondary: map<Lib, set<Namespace>>,
    linked: set<Lib>)
  {
    ghost predicate Valid() {
      && Closed(children)
      && parents.Keys == children.Keys && namespace.Keys == children.Keys && secondary.Keys == children.Keys
    }

    /** `android_namespace_t::is_accessible`: members of the namespace, primary or secondary, and the direct
        dependencies of its primary members. */
    predicate Accessible(n: Namespace, l: Lib) {
      l in namespace && l in secondary && l in parents &&
      (namespace[l] == n || n in secondary[l] ||
       exists i :: 0 <= i < |parents[l]| && parents[l][i] in namespace && namespace[parents[l][i]] == n)
    }

    /** The action of the walk that collects a local group. */
    function Collect(n: Namespace, before: seq<Lib>, l: Lib): Action {
      if Accessible(n, l) then Continue else Skip
    }
  }

  /** In other words: it belongs to the namespace, or a library of the namespace needs it. */
  lemma AccessibleMeans(w: World, n: Namespace, l: Lib)
    requires w.Valid() && l in w.children
    requires forall a, b :: a in w.children && b in w.children ==> (b in w.children[a] <==> a in w.parents[b])
    requires forall p :: p in w.parents[l] ==> p in w.children
    ensures w.Accessible(n, l) <==>
            || w.namespace[l] == n || n in w.secondary[l]
            || exists p :: p in w.children && w.namespace[p] == n && l in w.children[p]
  {
    if p :| p in w.children && w.namespace[p] == n && l in w.children[p] {
      assert p in w.parents[l];
    }
  }

  ghost predicate Hops(w: World, n: Namespace, p: seq<Lib>, i: int)
  {
    0 <= i < |p| - 1 && p[i] in w.children && p[i + 1] in w.children[p[i]]
  }

  /** A dependency path from `r` to `l` on which every library is accessible from namespace `n`. */
  ghost predicate Inside(w: World, n: Namespace, r: Lib, p: seq<Lib>, l: Lib)
  {
    && |p| > 0 && p[0] == r && p[|p| - 1] == l
    && (forall i :: 0 <= i < |p| ==> w.Accessible(n, p[i]))
    && (forall i :: 0 <= i < |p| - 1 ==> Hops(w, n, p, i))
  }

  ghost predicate Reaches(w: World, n: Namespace, r: Lib, l: Lib)
  {
    exists p :: Inside(w, n, r, p, l)
  }

  /** `r` is a root from which `l` may be linked. */
  ghost predicate Leads(w: World, r: Lib, l: Lib)
  {
    r in w.namespace && l in w.namespace && w.namespace[r] == w.namespace[l] && Reaches(w, w.namespace[r], r, l)
  }

  lemma InsidePrefix(w: World, n: Namespace, r: Lib, p: seq<Lib>, l: Lib)
    requires Inside(w, n, r, p, l) && |p| > 1
    ensures var k := |p| - 1; Inside(w, n, r, p[..k], p[k - 1]) && Hops(w, n, p, k - 1)
  {
    var k := |p| - 1;
    forall i | 0 <= i < k - 1 ensures Hops(w, n, p[..k], i) {
      assert Hops(w, n, p, i);
    }
  }

  lemma {:induction false} InsideConcat(w: World, n: Namespace, r: Lib, p: seq<Lib>, m: Lib, q: seq<Lib>, l: Lib)
    requires Inside(w, n, r, p, m) && Inside(w, n, m, q, l)
    ensures Inside(w, n, r, p + q[1..], l)
  {
    var pq := p + q[1..];
    forall i | 0 <= i < |pq| ensures w.Accessible(n, pq[i]) {
      if i >= |p| {
        assert pq[i] == q[i - |p| + 1];
      }
    }
    forall i | 0 <= i < |pq| - 1 ensures Hops(w, n, pq, i) {
      if i < |p| - 1 {
        assert Hops(w, n, p, i);
      } else {
        assert pq[i] == q[i - |p| + 1];
        assert Hops(w, n, q, i - |p| + 1);
      }
    }
  }

  lemma ReachStep(w: World, n: Namespace, r: Lib, m: Lib, l: Lib)
    requires Reaches(w, n, r, m) && m in w.children && l in w.children[m] && w.Accessible(n, l)
    ensures Reaches(w, n, r, l)
  {
    var p :| Inside(w, n, r, p, m);
    assert Hops(w, n, [m, l], 0);
    assert Inside(w, n, m, [m, l], l);
    InsideConcat(w, n, r, p, m, [m, l], l);
  }

  lemma ReachSelf(w: World, n: Namespace, r: Lib)
    requires w.Accessible(n, r)
    ensures Reaches(w, n, r, r)
  {
    assert Inside(w, n, r, [r], r);
  }

  // ---------------------------------------------------------------------------------
  // One local group
  // ---------------------------------------------------------------------------------

  /** Every library on an accessible path is visited. */
  lemma {:induction false} InsideIsVisited(w: World, n: Namespace, r: Lib, order: seq<Lib>, open: set<Lib>, p: seq<Lib>, l: Lib)
    requires forall v :: v in order <==> exists q :: Route(w.children, r, open, q, v)
    requires forall v :: v in order && w.Accessible(n, v) ==> v in open
    requires Inside(w, n, r, p, l)
    ensures l in order
    decreases |p|
  {
    if |p| == 1 {
      assert Route(w.children, r, open, [r], r);
    } else {
      var u := p[|p| - 2];
      InsidePrefix(w, n, r, p, l);
      InsideIsVisited(w, n, r, order, open, p[..|p| - 1], u);
      var q :| Route(w.children, r, open, q, u);
      assert w.Accessible(n, u);
      RouteLonger(w.children, r, open, q, u, l);
    }
  }

  /** Every accessible library that is visited is at the end of an accessible path. */
  lemma {:induction false} VisitedIsInside(w: World, n: Namespace, r: Lib, open: set<Lib>, q: seq<Lib>, l: Lib)
    requires forall v :: v in open ==> w.Accessible(n, v)
    requires Route(w.children, r, open, q, l) && w.Accessible(n, l)
    ensures Inside(w, n, r, q, l)
  {
    forall i | 0 <= i < |q| ensures w.Accessible(n, q[i]) {
      if i < |q| - 1 {
        assert Hop(w.children, open, q, i);
      }
    }
    forall i | 0 <= i < |q| - 1 ensures Hops(w, n, q, i) {
      assert Hop(w.children, open, q, i);
    }
  }

  /** The walk of step 6: the libraries a group is linked against, breadth first. */
  method LocalGroup(w: World, root: Lib) returns (group: seq<Lib>)
    requires w.Valid() && root in w.children
    ensures group != [] && group[0] == root && Distinct(group)
    ensures forall l :: l in group <==> Reaches(w, w.namespace[root], root, l)
  {
    var n := w.namespace[root];
    var act := (before: seq<Lib>, l: Lib) => w.Collect(n, before, l);
    var visited, finished := WalkDependencies(w.children, root, act);
    WalkFinishes(w.children, [root], [], act);
    ghost var open, y := WalkIsBreadthFirst(w.children, root, act);
    WalkStarts(w.children, root, act);
    group := Accessibles(w, n, visited);
    GroupIsReach(w, n, root, visited, act, open);
  }

  /** Keeps the accessible libraries of the walk, in its order. */
  function Accessibles(w: World, n: Namespace, libs: seq<Lib>): (r: seq<Lib>)
    ensures forall l :: l in r <==> l in libs && w.Accessible(n, l)
    ensures Distinct(libs) ==> Distinct(r)
    ensures libs != [] && w.Accessible(n, libs[0]) ==> r != [] && r[0] == libs[0]
  {
    if libs == [] then []
    else (if w.Accessible(n, libs[0]) then [libs[0]] else []) + Accessibles(w, n, libs[1..])
  }

  lemma {:induction false} WalkFinishes(g: map<Lib, seq<Lib>>, queue: seq<Lib>, visited: seq<Lib>, act: Visitor)
    requires Closed(g) && forall q :: q in queue ==> q in g
    requires forall b, l :: act(b, l) != Stop
    ensures WalkFrom(g, queue, visited, act).1
    decreases g.Keys - Elems(visited), |queue|
  {
    if queue != [] {
      var si := queue[0];
      if si in visited {
        WalkFinishes(g, queue[1..], visited, act);
      } else {
        var longer := visited + [si];
        assert si in Elems(longer) && si !in Elems(visited) && Elems(visited) <= Elems(longer);
        WalkFinishes(g, queue[1..], longer, act);
        WalkFinishes(g, queue[1..] + g[si], longer, act);
      }
    }
  }

  lemma GroupIsReach(w: World, n: Namespace, root: Lib, order: seq<Lib>, act: Visitor, open: set<Lib>)
    requires forall b, l :: act(b, l) == w.Collect(n, b, l)
    requires Opened(order, act, open)
    requires forall v :: v in order <==> exists q :: Route(w.children, root, open, q, v)
    ensures forall l :: l in order && w.Accessible(n, l) <==> Reaches(w, n, root, l)
  {
    forall v | v in order ensures v in open <==> w.Accessible(n, v) {
      var i :| 0 <= i < |order| && order[i] == v;
    }
    forall l ensures l in order && w.Accessible(n, l) <==> Reaches(w, n, root, l) {
      if l in order && w.Accessible(n, l) {
        var q :| Route(w.children, root, open, q, l);
        VisitedIsInside(w, n, root, open, q, l);
      }
      if p :| Inside(w, n, root, p, l) {
        InsideIsVisited(w, n, root, order, open, p, l);
      }
    }
  }

  // ---------------------------------------------------------------------------------
  // Step 5: the roots
  // ---------------------------------------------------------------------------------

  /** A load task that has been resolved to a library. */
  datatype Task = Task(neededBy: Option<Lib>, si: Lib)

  /** The namespace and the caller `find_libraries` was called with. */
  datatype Request = Request(ns: Namespace, startWith: Option<Lib>, addAsChildren: bool)
  {
    predicate IsDtNeeded(t: Task) {
      t.neededBy.Some? && (t.neededBy != startWith || addAsChildren)
    }
  }

  ghost predicate Known(w: World, tasks: seq<Task>)
  {
    forall i :: 0 <= i < |tasks| ==> tasks[i].si in w.namespace && (tasks[i].neededBy.Some? ==> tasks[i].neededBy.value in w.namespace)
  }

  /** The dependency leads to an unlinked library in another namespace. */
  predicate Crosses(w: World, req: Request, t: Task)
    requires t.si in w.namespace && (t.neededBy.Some? ==> t.neededBy.value in w.namespace)
  {
    t.si !in w.linked && w.namespace[t.si] != if req.IsDtNeeded(t) then w.namespace[t.neededBy.value] else req.ns
  }

  ghost predicate CrossedAt(w: World, req: Request, tasks: seq<Task>, i: int, l: Lib)
    requires Known(w, tasks)
  {
    0 <= i < |tasks| && tasks[i].si == l && Crosses(w, req, tasks[i])
  }

  /** The roots of the local groups: the first library, and those across a namespace boundary. */
  ghost predicate RootsAre(w: World, req: Request, tasks: seq<Task>, first: Lib, roots: seq<Lib>)
    requires Known(w, tasks)
  {
    forall l :: l in roots <==> l == first || exists k :: CrossedAt(w, req, tasks, k, l)
  }

  /** After the first, roots are listed in the order in which they were first come across. */
  ghost predicate InOrder(w: World, req: Request, tasks: seq<Task>, roots: seq<Lib>)
    requires Known(w, tasks)
  {
    forall i, j :: 0 < i < j < |roots| ==> Earlier(w, req, tasks, roots[i], roots[j])
  }

  ghost predicate Earlier(w: World, req: Request, tasks: seq<Task>, a: Lib, b: Lib)
    requires Known(w, tasks)
  {
    exists k :: CrossedAt(w, req, tasks, k, a) && forall m :: CrossedAt(w, req, tasks, m, b) ==> k < m
  }

  /** Step 5. */
  method CollectRoots(w: World, req: Request, tasks: seq<Task>, first: Lib) returns (roots: seq<Lib>)
    requires Known(w, tasks)
    ensures roots != [] && roots[0] == first && Distinct(roots)
    ensures RootsAre(w, req, tasks, first, roots) && InOrder(w, req, tasks, roots)
  {
    roots := [first];
    for k := 0 to |tasks|
      invariant roots != [] && roots[0] == first && Distinct(roots) && InOrder(w, req, tasks, roots)
      invariant forall l :: l in roots <==> l == first || exists i :: i < k && CrossedAt(w, req, tasks, i, l)
    {
      var t := tasks[k];
      if Crosses(w, req, t) {
        assert CrossedAt(w, req, tasks, k, t.si);
        if t.si !in roots {
          NextInOrder(w, req, tasks, first, roots, k);
          roots := roots + [t.si];
        }
      }
    }
  }

  lemma NextInOrder(w: World, req: Request, tasks: seq<Task>, first: Lib, roots: seq<Lib>, k: nat)
    requires Known(w, tasks) && k < |tasks| && roots != [] && roots[0] == first && Distinct(roots) && InOrder(w, req, tasks, roots)
    requires forall l :: l in roots <==> l == first || exists i :: i < k && CrossedAt(w, req, tasks, i, l)
    requires tasks[k].si !in roots
    ensures InOrder(w, req, tasks, roots + [tasks[k].si])
  {
    var longer, l := roots + [tasks[k].si], tasks[k].si;
    forall i, j | 0 < i < j < |longer| ensures Earlier(w, req, tasks, longer[i], longer[j]) {
      if j < |roots| {
        assert Earlier(w, req, tasks, roots[i], roots[j]);
      } else {
        assert roots[i] in roots && roots[i] != first;
        var a :| a < k && CrossedAt(w, req, tasks, a, roots[i]);
        forall m | CrossedAt(w, req, tasks, m, l) ensures a < m {
          assert m < k ==> l in roots;
        }
      }
    }
  }

  // ---------------------------------------------------------------------------------
  // Step 6: linking
  // ---------------------------------------------------------------------------------

  /** One of the first `k` roots leads `l`. */
  ghost predicate LedBefore(w: World, roots: seq<Lib>, k: int, l: Lib)
  {
    exists j :: 0 <= j < k && j < |roots| && Leads(w, roots[j], l)
  }

  /** `r` is the first root in list order that leads `l`. */
  ghost predicate FirstLeader(w: World, roots: seq<Lib>, r: Lib, l: Lib)
  {
    exists j :: 0 <= j < |roots| && roots[j] == r && Leads(w, r, l) && !LedBefore(w, roots, j, l)
  }

  /** What linking may change: the group roots of unlinked libraries, each of them relocated once. */
  ghost predicate Relocation(w: World, roots: seq<Lib>, image0: set<Lib>, gr: map<Lib, Lib>, relocated: seq<Lib>)
  {
    && Distinct(relocated)
    && forall l :: l in relocated ==> l !in w.linked && l !in image0 && l in gr && FirstLeader(w, roots, gr[l], l)
  }

  /** The first `k` groups have been linked, and of the next the libraries in `part`. */
  ghost predicate Complete(w: World, roots: seq<Lib>, k: int, part: set<Lib>, image0: set<Lib>, relocated: seq<Lib>)
  {
    forall l :: l !in w.linked && l !in image0 ==>
      (l in relocated <==> LedBefore(w, roots, k, l) || (0 <= k < |roots| && l in part && Leads(w, roots[k], l)))
  }

  ghost predicate Untouched(gr0: map<Lib, Lib>, gr: map<Lib, Lib>, changed: set<Lib>)
  {
    forall l :: l !in changed ==> (l in gr <==> l in gr0) && (l in gr ==> gr[l] == gr0[l])
  }

  lemma RelocateOne(w: World, roots: seq<Lib>, k: nat, image0: set<Lib>, gr: map<Lib, Lib>, relocated: seq<Lib>, part: set<Lib>, l: Lib)
    requires Relocation(w, roots, image0, gr, relocated) && Complete(w, roots, k, part, image0, relocated)
    requires k < |roots| && Leads(w, roots[k], l)
    requires l !in w.linked && l !in image0 && l !in relocated
    ensures Relocation(w, roots, image0, gr[l := roots[k]], relocated + [l])
    ensures Complete(w, roots, k, part + {l}, image0, relocated + [l])
  {
    assert FirstLeader(w, roots, roots[k], l);
  }

  lemma PassOver(w: World, roots: seq<Lib>, k: nat, image0: set<Lib>, relocated: seq<Lib>, part: set<Lib>, l: Lib)
    requires Complete(w, roots, k, part, image0, relocated)
    requires k < |roots|
    requires l in w.linked || l in image0 || l in relocated || !Leads(w, roots[k], l)
    ensures Complete(w, roots, k, part + {l}, image0, relocated)
  {
  }

  lemma NextGroup(w: World, roots: seq<Lib>, k: nat, image0: set<Lib>, relocated: seq<Lib>, part: set<Lib>)
    requires Complete(w, roots, k, part, image0, relocated)
    requires k < |roots| && forall l :: Leads(w, roots[k], l) ==> l in part
    ensures Complete(w, roots, k + 1, {}, image0, relocated)
  {
    forall l ensures LedBefore(w, roots, k + 1, l) <==> LedBefore(w, roots, k, l) || Leads(w, roots[k], l) {
    }
  }

  /** The visit of one local group: `link_image` on every unlinked member of the namespace. Libraries in
      `failing` cannot be relocated. */
  method LinkGroup(w: World, roots: seq<Lib>, k: nat, failing: set<Lib>, ghost image0: set<Lib>,
                   gr0: map<Lib, Lib>, image1: set<Lib>, ghost relocated1: seq<Lib>)
    returns (ok: bool, gr: map<Lib, Lib>, image: set<Lib>, ghost relocated: seq<Lib>)
    requires w.Valid() && k < |roots| && roots[k] in w.children
    requires Relocation(w, roots, image0, gr0, relocated1) && Complete(w, roots, k, {}, image0, relocated1)
    requires image1 == image0 + Elems(relocated1)
    ensures Untouched(gr0, gr, gr.Keys - w.linked)
    ensures image0 <= image && image * w.linked == image1 * w.linked
    ensures ok ==> Relocation(w, roots, image0, gr, relocated) && Complete(w, roots, k + 1, {}, image0, relocated)
    ensures ok ==> image == image0 + Elems(relocated)
    ensures ok <==> forall l :: l in failing && l !in w.linked && l !in image1 ==> !Leads(w, roots[k], l)
  {
    var root := roots[k];
    var group := LocalGroup(w, root);
    gr, image, relocated := gr0, image1, relocated1;
    ghost var part := {};
    for m := 0 to |group|
      invariant part == Elems(group[..m])
      invariant Relocation(w, roots, image0, gr, relocated) && Complete(w, roots, k, part, image0, relocated)
      invariant image == image0 + Elems(relocated)
      invariant Untouched(gr0, gr, gr.Keys - w.linked)
      invariant image1 <= image && image * w.linked == image1 * w.linked
      invariant forall l :: l in failing && l !in w.linked && l !in image1 && l in part ==> !Leads(w, roots[k], l)
    {
      var si := group[m];
      assert si in group;
      assert group[..m + 1] == group[..m] + [si];
      if si !in w.linked && si in w.namespace && w.namespace[si] == w.namespace[root] {
        assert Leads(w, root, si);
        if si !in image {
          if si in failing {
            gr := gr[si := root];
            ok := false;
            return;
          }
          RelocateOne(w, roots, k, image0, gr, relocated, part, si);
          gr := gr[si := root];
          image := image + {si};
          relocated := relocated + [si];
        } else {
          PassOver(w, roots, k, image0, relocated, part, si);
        }
      } else {
        PassOver(w, roots, k, image0, relocated, part, si);
      }
      part := part + {si};
    }
    assert group[..|group|] == group;
    NextGroup(w, roots, k, image0, relocated, part);
    ok := true;
  }

  /** Step 6: all local groups are linked, in the order of their roots. It succeeds exactly if every library
      that some root leads can be relocated. */
  method LinkGroups(w: World, roots: seq<Lib>, failing: set<Lib>, gr0: map<Lib, Lib>, image0: set<Lib>)
    returns (ok: bool, gr: map<Lib, Lib>, image: set<Lib>, ghost relocated: seq<Lib>)
    requires w.Valid() && forall k :: 0 <= k < |roots| ==> roots[k] in w.children
    ensures Untouched(gr0, gr, gr.Keys - w.linked)
    ensures image * w.linked == image0 * w.linked
    ensures ok ==> Relocation(w, roots, image0, gr, relocated) && Complete(w, roots, |roots|, {}, image0, relocated)
    ensures ok ==> image == image0 + Elems(relocated)
    ensures ok <==> forall l :: l in failing && l !in w.linked && l !in image0 ==> !LedBefore(w, roots, |roots|, l)
  {
    gr, image, relocated := gr0, image0, [];
    for k := 0 to |roots|
      invariant Untouched(gr0, gr, gr.Keys - w.linked)
      invariant image * w.linked == image0 * w.linked
      invariant Relocation(w, roots, image0, gr, relocated) && Complete(w, roots, k, {}, image0, relocated)
      invariant image == image0 + Elems(relocated)
      invariant forall l :: l in failing && l !in w.linked && l !in image0 ==> !LedBefore(w, roots, k, l)
    {
      ghost var before, was := relocated, gr;
      ok, gr, image, relocated := LinkGroup(w, roots, k, failing, image0, gr, image, relocated);
      UntouchedTwice(w, gr0, was, gr);
      forall l ensures LedBefore(w, roots, k + 1, l) <==> LedBefore(w, roots, k, l) || Leads(w, roots[k], l) {
      }
      if !ok {
        FailureIsReal(w, roots, k, failing, image0, before);
        return;
      }
      forall l | l in failing && l !in w.linked && l !in image0 ensures !LedBefore(w, roots, k + 1, l) {
        assert l !in before;
      }
    }
    ok := true;
  }

  lemma FailureIsReal(w: World, roots: seq<Lib>, k: nat, failing: set<Lib>, image0: set<Lib>, before: seq<Lib>)
    requires k < |roots|
    requires !forall l :: l in failing && l !in w.linked && l !in image0 + Elems(before) ==> !Leads(w, roots[k], l)
    ensures !forall l :: l in failing && l !in w.linked && l !in image0 ==> !LedBefore(w, roots, |roots|, l)
  {
    var l :| l in failing && l !in w.linked && l !in image0 + Elems(before) && Leads(w, roots[k], l);
    assert LedBefore(w, roots, |roots|, l);
  }

  lemma UntouchedTwice(w: World, a: map<Lib, Lib>, b: map<Lib, Lib>, c: map<Lib, Lib>)
    requires Untouched(a, b, b.Keys - w.linked) && Untouched(b, c, c.Keys - w.linked)
    ensures Untouched(a, c, c.Keys - w.linked)
  {
  }

  // ---------------------------------------------------------------------------------
  // Coverage
  // ---------------------------------------------------------------------------------

  /** What step 1 leaves behind for task `i`: an edge from the library that needed it, which was loaded by an
      earlier task, or the first library itself. */
  ghost predicate TaskDone(w: World, req: Request, tasks: seq<Task>, first: Lib, i: int)
  {
    0 <= i < |tasks| &&
    if req.IsDtNeeded(tasks[i]) then
      var n := tasks[i].neededBy.value;
      && n in w.children && tasks[i].si in w.children[n]
      && (n == first || exists j :: 0 <= j < i && tasks[j].si == n && n !in w.linked)
    else tasks[i].si == first
  }

  /** Every newly loaded library is in a group: some root of its own namespace reaches it. */
  lemma {:induction false} EveryTaskIsLed(w: World, req: Request, tasks: seq<Task>, first: Lib, roots: seq<Lib>, i: nat)
    requires w.Valid() && Known(w, tasks) && first in w.namespace
    requires forall k :: 0 <= k < |tasks| ==> TaskDone(w, req, tasks, first, k)
    requires RootsAre(w, req, tasks, first, roots)
    requires i < |tasks| && tasks[i].si !in w.linked
    ensures LedBefore(w, roots, |roots|, tasks[i].si)
  {
    var l := tasks[i].si;
    assert TaskDone(w, req, tasks, first, i);
    if l == first || Crosses(w, req, tasks[i]) {
      assert l == first || CrossedAt(w, req, tasks, i, l);
      RootLeads(w, roots, l);
    } else {
      var n := tasks[i].neededBy.value;
      if n == first {
        RootLeads(w, roots, n);
      } else {
        var j :| 0 <= j < i && tasks[j].si == n && n !in w.linked;
        EveryTaskIsLed(w, req, tasks, first, roots, j);
      }
      var k :| 0 <= k < |roots| && Leads(w, roots[k], n);
      ReachStep(w, w.namespace[l], roots[k], n, l);
      assert Leads(w, roots[k], l);
    }
  }

  lemma RootLeads(w: World, roots: seq<Lib>, r: Lib)
    requires w.Valid() && r in roots && r in w.namespace
    ensures LedBefore(w, roots, |roots|, r)
  {
    ReachSelf(w, w.namespace[r], r);
    assert Leads(w, r, r);
    var k :| 0 <= k < |roots| && roots[k] == r;
    assert Leads(w, roots[k], r);
  }

  /** The root of a group leads its own group. */
  lemma LeaderLeadsItself(w: World, roots: seq<Lib>, r: Lib, l: Lib)
    requires w.Valid() && FirstLeader(w, roots, r, l)
    ensures FirstLeader(w, roots, r, r)
  {
    var j :| 0 <= j < |roots| && roots[j] == r && Leads(w, r, l) && !LedBefore(w, roots, j, l);
    ReachSelf(w, w.namespace[r], r);
    assert Leads(w, r, r);
    if LedBefore(w, roots, j, r) {
      var i :| 0 <= i < j && Leads(w, roots[i], r);
      LeadsOn(w, roots[i], r, l);
      assert false;
    }
  }

  lemma LeadsOn(w: World, a: Lib, b: Lib, c: Lib)
    requires Leads(w, a, b) && Leads(w, b, c)
    ensures Leads(w, a, c)
  {
    var n := w.namespace[a];
    var p :| Inside(w, n, a, p, b);
    var q :| Inside(w, n, b, q, c);
    InsideConcat(w, n, a, p, b, q, c);
  }

  lemma FirstLeaderUnique(w: World, roots: seq<Lib>, r: Lib, s: Lib, l: Lib)
    requires FirstLeader(w, roots, r, l) && FirstLeader(w, roots, s, l)
    ensures r == s
  {
    var i :| 0 <= i < |roots| && roots[i] == r && Leads(w, r, l) && !LedBefore(w, roots, i, l);
    var j :| 0 <= j < |roots| && roots[j] == s && Leads(w, s, l) && !LedBefore(w, roots, j, l);
    assert i < j ==> Leads(w, roots[i], l);
    assert j < i ==> Leads(w, roots[j], l);
  }

  /** Steps 5 and 6 together: when they succeed, every newly loaded library has been relocated, once, and its
      group root is the first root in list order that leads it. Every group root leads its own group. */
  lemma LinkCoverage(w: World, req: Request, tasks: seq<Task>, first: Lib, roots: seq<Lib>, image0: set<Lib>,
                     gr: map<Lib, Lib>, relocated: seq<Lib>)
    requires w.Valid() && Known(w, tasks) && first in w.namespace
    requires forall k :: 0 <= k < |tasks| ==> TaskDone(w, req, tasks, first, k)
    requires RootsAre(w, req, tasks, first, roots)
    requires Relocation(w, roots, image0, gr, relocated) && Complete(w, roots, |roots|, {}, image0, relocated)
    requires forall k :: 0 <= k < |tasks| && tasks[k].si !in w.linked ==> tasks[k].si !in image0
    ensures Distinct(relocated)
    ensures forall k :: 0 <= k < |tasks| && tasks[k].si !in w.linked ==>
              tasks[k].si in relocated && FirstLeader(w, roots, gr[tasks[k].si], tasks[k].si)
    ensures forall l :: l in relocated ==>
              var r := gr[l]; FirstLeader(w, roots, r, r) && (r !in w.linked && r !in image0 ==> r in relocated && gr[r] == r)
  {
    forall k | 0 <= k < |tasks| && tasks[k].si !in w.linked
      ensures tasks[k].si in relocated && FirstLeader(w, roots, gr[tasks[k].si], tasks[k].si)
    {
      EveryTaskIsLed(w, req, tasks, first, roots, k);
    }
    forall l | l in relocated
      ensures var r := gr[l]; FirstLeader(w, roots, r, r) && (r !in w.linked && r !in image0 ==> r in relocated && gr[r] == r)
    {
      var r := gr[l];
      LeaderLeadsItself(w, roots, r, l);
      if r !in w.linked && r !in image0 {
        var j :| 0 <= j < |roots| && roots[j] == r && Leads(w, r, r);
        assert LedBefore(w, roots, |roots|, r);
        FirstLeaderUnique(w, roots, r, gr[r], r);
      }
    }
  }
}
