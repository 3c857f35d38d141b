/**
  Steps 5 and 6 of `find_libraries` for what step 1 has loaded: which libraries are linked, under which roots, and what
  makes them fail.
 */
module Linking {
  import opened Basics
  import opened Soinfo
  import opened Groups

  /** Loaded by this call: its libraries are numbered from `lo` to `hi`. */
  ghost predicate Fresh(lo: nat, hi: nat, l: Lib)
  {
    lo <= l < hi
  }

  ghost predicate IsTask(tasks: seq<Task>, l: Lib)
  {
    exists k :: 0 <= k < |tasks| && tasks[k].si == l
  }

  /** The libraries of this call are unlinked, each of them has a task, and so has what they need. */
  ghost predicate FreshAre(w: World, tasks: seq<Task>, lo: nat, hi: nat)
  {
    && (forall n :: Fresh(lo, hi, n) ==> n in w.children && n !in w.linked && IsTask(tasks, n))
    && (forall n, c {:trigger c in w.children[n]} :: Fresh(lo, hi, n) && n in w.children && c in w.children[n] ==> IsTask(tasks, c))
  }

  /** Every task but the first was created for a library of this call, and led to one or to a linked library. */
  ghost predicate TasksAre(w: World, req: Request, tasks: seq<Task>, lo: nat, hi: nat)
  {
    && (forall k :: 0 <= k < |tasks| ==> tasks[k].si in w.linked || Fresh(lo, hi, tasks[k].si))
    && (forall k :: 0 < k < |tasks| ==> tasks[k].neededBy.Some? && Fresh(lo, hi, tasks[k].neededBy.value) && req.IsDtNeeded(tasks[k]))
  }

  ghost predicate ClosedLinks(w: World)
  {
    forall l, c {:trigger c in w.children[l]} :: l in w.linked && l in w.children && c in w.children[l] ==> c in w.linked
  }

  /** What step 1 has prepared. */
  ghost predicate Prepared(w: World, req: Request, tasks: seq<Task>, lo: nat, hi: nat)
  {
    && w.Valid() && tasks != [] && Known(w, tasks) && ClosedLinks(w)
    && (forall k :: 0 <= k < |tasks| ==> TaskDone(w, req, tasks, tasks[0].si, k))
    && FreshAre(w, tasks, lo, hi) && TasksAre(w, req, tasks, lo, hi)
    && (tasks[0].si in w.linked ==> forall k :: 0 <= k < |tasks| ==> tasks[k].si in w.linked)
  }

  /** Which libraries a root leads to. */
  lemma {:induction false} PathStays(w: World, tasks: seq<Task>, lo: nat, hi: nat, n: Namespace, r: Lib, p: seq<Lib>, l: Lib)
    requires ClosedLinks(w) && FreshAre(w, tasks, lo, hi)
    requires forall k :: 0 <= k < |tasks| ==> tasks[k].si in w.linked || Fresh(lo, hi, tasks[k].si)
    requires Inside(w, n, r, p, l) && (r in w.linked || Fresh(lo, hi, r))
    ensures l in w.linked || (Fresh(lo, hi, l) && r !in w.linked)
    decreases |p|
  {
    if |p| > 1 {
      InsidePrefix(w, n, r, p, l);
      var m := p[|p| - 2];
      PathStays(w, tasks, lo, hi, n, r, p[..|p| - 1], m);
      assert l in w.children[m];
      if m !in w.linked {
        assert IsTask(tasks, l);
      }
    }
  }

  lemma RootIsFresh(w: World, req: Request, tasks: seq<Task>, roots: seq<Lib>, lo: nat, hi: nat, r: Lib)
    requires Known(w, tasks) && tasks != [] && TasksAre(w, req, tasks, lo, hi) && RootsAre(w, req, tasks, tasks[0].si, roots) && r in roots
    ensures Fresh(lo, hi, r) || (r == tasks[0].si && r in w.linked)
  {
    if r != tasks[0].si {
      var k :| CrossedAt(w, req, tasks, k, r);
    }
  }

  /** What is linked in step 6 was loaded by this call. */
  lemma LedIsFresh(w: World, req: Request, tasks: seq<Task>, roots: seq<Lib>, lo: nat, hi: nat, l: Lib)
    requires Prepared(w, req, tasks, lo, hi) && RootsAre(w, req, tasks, tasks[0].si, roots)
    requires l !in w.linked && LedBefore(w, roots, |roots|, l)
    ensures Fresh(lo, hi, l)
  {
    var j :| 0 <= j < |roots| && Leads(w, roots[j], l);
    RootIsFresh(w, req, tasks, roots, lo, hi, roots[j]);
    var p :| Inside(w, w.namespace[roots[j]], roots[j], p, l);
    PathStays(w, tasks, lo, hi, w.namespace[roots[j]], roots[j], p, l);
  }

  lemma FreshIsLed(w: World, req: Request, tasks: seq<Task>, roots: seq<Lib>, lo: nat, hi: nat, n: Lib)
    requires Prepared(w, req, tasks, lo, hi) && RootsAre(w, req, tasks, tasks[0].si, roots) && Fresh(lo, hi, n)
    ensures LedBefore(w, roots, |roots|, n)
  {
    var k :| 0 <= k < |tasks| && tasks[k].si == n;
    EveryTaskIsLed(w, req, tasks, tasks[0].si, roots, k);
  }

  // ---------------------------------------------------------------------------------
  // The groups
  // ---------------------------------------------------------------------------------

  /** What step 6 has done: every library of this call has a leader, which leads itself. */
  ghost predicate Led(w: World, roots: seq<Lib>, lo: nat, hi: nat, gr: map<Lib, Lib>)
  {
    forall n :: Fresh(lo, hi, n) ==> LedAt(w, roots, lo, hi, gr, n)
  }

  ghost predicate LedAt(w: World, roots: seq<Lib>, lo: nat, hi: nat, gr: map<Lib, Lib>, n: Lib)
  {
    n in gr && gr[n] in roots && Leads(w, gr[n], n) && Fresh(lo, hi, gr[n]) && gr[n] in gr && gr[gr[n]] == gr[n]
  }

  lemma LeadersLead(w: World, req: Request, tasks: seq<Task>, roots: seq<Lib>, lo: nat, hi: nat, gr: map<Lib, Lib>, relocated: seq<Lib>)
    requires Prepared(w, req, tasks, lo, hi) && RootsAre(w, req, tasks, tasks[0].si, roots)
    requires Relocation(w, roots, {}, gr, relocated) && Complete(w, roots, |roots|, {}, {}, relocated)
    ensures Led(w, roots, lo, hi, gr)
  {
    LinkCoverage(w, req, tasks, tasks[0].si, roots, {}, gr, relocated);
    forall n | Fresh(lo, hi, n) ensures LedAt(w, roots, lo, hi, gr, n) {
      FreshIsLed(w, req, tasks, roots, lo, hi, n);
      assert n in relocated;
      LeaderIsFresh(w, req, tasks, roots, lo, hi, gr[n], n);
    }
  }

  lemma LeaderIsFresh(w: World, req: Request, tasks: seq<Task>, roots: seq<Lib>, lo: nat, hi: nat, r: Lib, n: Lib)
    requires Prepared(w, req, tasks, lo, hi) && RootsAre(w, req, tasks, tasks[0].si, roots)
    requires FirstLeader(w, roots, r, n) && n !in w.linked
    ensures r in roots && Leads(w, r, n) && Fresh(lo, hi, r) && r !in w.linked
  {
    RootIsFresh(w, req, tasks, roots, lo, hi, r);
    var p :| Inside(w, w.namespace[r], r, p, n);
    PathStays(w, tasks, lo, hi, w.namespace[r], r, p, n);
  }

  /** The library that was asked for leads its own group. */
  lemma FirstLeads(w: World, roots: seq<Lib>, first: Lib, r: Lib)
    requires w.Valid() && roots != [] && roots[0] == first && first in w.namespace && FirstLeader(w, roots, r, first)
    ensures r == first
  {
    ReachSelf(w, w.namespace[first], first);
    assert Leads(w, roots[0], first);
    assert FirstLeader(w, roots, first, first);
    FirstLeaderUnique(w, roots, r, first, first);
  }

  /** The dependency is one that step 7 takes a reference for. The library that the call started with, in `apart`, does not
      count. */
  predicate Counted(t: Task, gr: map<Lib, Lib>, apart: Option<Lib>)
  {
    && t.neededBy.Some? && t.neededBy != apart
    && t.neededBy.value in gr && t.si in gr && gr[t.neededBy.value] != gr[t.si]
  }

  /** Step 7 takes a reference on the group of `r`. */
  ghost predicate Needed(tasks: seq<Task>, gr: map<Lib, Lib>, apart: Option<Lib>, r: Lib)
  {
    exists k :: 0 <= k < |tasks| && Counted(tasks[k], gr, apart) && gr[tasks[k].si] == r
  }

  /** A new group is needed by a library of another one, unless it is the group of the library that was asked for. */
  lemma GroupIsNeeded(w: World, req: Request, tasks: seq<Task>, roots: seq<Lib>, lo: nat, hi: nat, gr: map<Lib, Lib>, n: Lib)
    requires Known(w, tasks) && tasks != [] && TasksAre(w, req, tasks, lo, hi) && RootsAre(w, req, tasks, tasks[0].si, roots)
    requires Led(w, roots, lo, hi, gr) && !req.addAsChildren && Fresh(lo, hi, n) && n in gr && gr[n] == n && n != tasks[0].si
    ensures Needed(tasks, gr, req.startWith, n)
  {
    assert LedAt(w, roots, lo, hi, gr, n);
    var k :| CrossedAt(w, req, tasks, k, n);
    assert LedAt(w, roots, lo, hi, gr, tasks[k].neededBy.value);
    assert Counted(tasks[k], gr, req.startWith);
  }

  /** Every new group but that of the library that was asked for has a reference from another group. */
  ghost predicate NewNeeded(tasks: seq<Task>, lo: nat, hi: nat, gr: map<Lib, Lib>, apart: Option<Lib>)
  {
    forall n :: Fresh(lo, hi, n) && n in gr && gr[n] == n ==>
      (tasks != [] && n == tasks[0].si) || Needed(tasks, gr, apart, n)
  }

  lemma GroupsAreNeeded(w: World, req: Request, tasks: seq<Task>, roots: seq<Lib>, lo: nat, hi: nat, gr: map<Lib, Lib>)
    requires Known(w, tasks) && tasks != [] && TasksAre(w, req, tasks, lo, hi) && RootsAre(w, req, tasks, tasks[0].si, roots)
    requires Led(w, roots, lo, hi, gr) && !req.addAsChildren
    ensures NewNeeded(tasks, lo, hi, gr, req.startWith)
  {
    forall n | Fresh(lo, hi, n) && n in gr && gr[n] == n && n != tasks[0].si ensures Needed(tasks, gr, req.startWith, n) {
      GroupIsNeeded(w, req, tasks, roots, lo, hi, gr, n);
    }
  }

  // ---------------------------------------------------------------------------------
  // Steps 5 and 6
  // ---------------------------------------------------------------------------------

  /** Every library of this call has a group, whose root is of this call and leads itself. */
  ghost predicate FreshLed(lo: nat, hi: nat, gr: map<Lib, Lib>)
  {
    forall n :: Fresh(lo, hi, n) ==> n in gr && Fresh(lo, hi, gr[n]) && gr[n] in gr && gr[gr[n]] == gr[n]
  }

  lemma FailureIsFresh(w: World, req: Request, tasks: seq<Task>, roots: seq<Lib>, lo: nat, hi: nat, failing: set<Lib>)
    requires Prepared(w, req, tasks, lo, hi) && RootsAre(w, req, tasks, tasks[0].si, roots)
    ensures (forall l :: l in failing && l !in w.linked && l !in {} ==> !LedBefore(w, roots, |roots|, l)) <==>
            forall l :: l in failing ==> !Fresh(lo, hi, l)
  {
    forall l | l in failing ensures (l !in w.linked && LedBefore(w, roots, |roots|, l)) <==> Fresh(lo, hi, l) {
      if Fresh(lo, hi, l) {
        FreshIsLed(w, req, tasks, roots, lo, hi, l);
      } else if l !in w.linked && LedBefore(w, roots, |roots|, l) {
        LedIsFresh(w, req, tasks, roots, lo, hi, l);
      }
    }
  }

  /** Steps 5 and 6. They fail exactly if a library of this call cannot be linked. */
  method LinkStep(w: World, req: Request, tasks: seq<Task>, failing: set<Lib>, gr0: map<Lib, Lib>, ghost lo: nat, ghost hi: nat)
    returns (ok: bool, gr: map<Lib, Lib>)
    requires Prepared(w, req, tasks, lo, hi)
    ensures Untouched(gr0, gr, gr.Keys - w.linked)
    ensures ok <==> forall l :: l in failing ==> !Fresh(lo, hi, l)
    ensures ok ==> FreshLed(lo, hi, gr) && (!req.addAsChildren ==> NewNeeded(tasks, lo, hi, gr, req.startWith))
    ensures ok && Fresh(lo, hi, tasks[0].si) ==> gr[tasks[0].si] == tasks[0].si
    ensures ok ==> GroupedBy(w, req, tasks, lo, hi, gr)
  {
    var roots := CollectRoots(w, req, tasks, tasks[0].si);
    forall k | 0 <= k < |roots| ensures roots[k] in w.children {
      assert roots[k] in roots;
    }
    var image; ghost var relocated;
    ok, gr, image, relocated := LinkGroups(w, roots, failing, gr0, {});
    FailureIsFresh(w, req, tasks, roots, lo, hi, failing);
    if ok {
      LinkedWell(w, req, tasks, roots, lo, hi, gr, relocated);
      LinkedByFirst(w, req, tasks, roots, lo, hi, gr, relocated);
    }
  }

  /** The roots in the order in which they were found, and every library of this call in the group of the first root that
      leads it. */
  ghost predicate GroupedBy(w: World, req: Request, tasks: seq<Task>, lo: nat, hi: nat, gr: map<Lib, Lib>)
  {
    tasks != [] && Known(w, tasks) && exists roots :: GroupedByRoots(w, req, tasks, roots, lo, hi, gr)
  }

  ghost predicate GroupedByRoots(w: World, req: Request, tasks: seq<Task>, roots: seq<Lib>, lo: nat, hi: nat, gr: map<Lib, Lib>)
    requires tasks != [] && Known(w, tasks)
  {
    && roots != [] && roots[0] == tasks[0].si && RootsAre(w, req, tasks, tasks[0].si, roots) && InOrder(w, req, tasks, roots)
    && forall n :: Fresh(lo, hi, n) ==> n in gr && FirstLeader(w, roots, gr[n], n)
  }

  lemma LinkedByFirst(w: World, req: Request, tasks: seq<Task>, roots: seq<Lib>, lo: nat, hi: nat, gr: map<Lib, Lib>, relocated: seq<Lib>)
    requires Prepared(w, req, tasks, lo, hi) && RootsAre(w, req, tasks, tasks[0].si, roots) && roots != [] && roots[0] == tasks[0].si
    requires InOrder(w, req, tasks, roots)
    requires Relocation(w, roots, {}, gr, relocated) && Complete(w, roots, |roots|, {}, {}, relocated)
    ensures GroupedBy(w, req, tasks, lo, hi, gr)
  {
    forall n | Fresh(lo, hi, n) ensures n in gr && FirstLeader(w, roots, gr[n], n) {
      FreshIsLed(w, req, tasks, roots, lo, hi, n);
      assert n in relocated;
    }
    assert GroupedByRoots(w, req, tasks, roots, lo, hi, gr);
  }

  lemma LinkedWell(w: World, req: Request, tasks: seq<Task>, roots: seq<Lib>, lo: nat, hi: nat, gr: map<Lib, Lib>, relocated: seq<Lib>)
    requires Prepared(w, req, tasks, lo, hi) && RootsAre(w, req, tasks, tasks[0].si, roots) && roots != [] && roots[0] == tasks[0].si
    requires Relocation(w, roots, {}, gr, relocated) && Complete(w, roots, |roots|, {}, {}, relocated)
    ensures FreshLed(lo, hi, gr) && (!req.addAsChildren ==> NewNeeded(tasks, lo, hi, gr, req.startWith))
    ensures Fresh(lo, hi, tasks[0].si) ==> gr[tasks[0].si] == tasks[0].si
  {
    LeadersLead(w, req, tasks, roots, lo, hi, gr, relocated);
    if !req.addAsChildren {
      GroupsAreNeeded(w, req, tasks, roots, lo, hi, gr);
    }
    forall n | Fresh(lo, hi, n) ensures n in gr && Fresh(lo, hi, gr[n]) && gr[n] in gr && gr[gr[n]] == gr[n] {
      assert LedAt(w, roots, lo, hi, gr, n);
    }
    if Fresh(lo, hi, tasks[0].si) {
      FreshIsLed(w, req, tasks, roots, lo, hi, tasks[0].si);
      assert tasks[0].si in relocated;
      FirstLeads(w, roots, tasks[0].si, gr[tasks[0].si]);
    }
  }
}
