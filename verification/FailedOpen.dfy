/**
  What an open leaves behind. A successful one leaves nothing, and a failed one exactly what hangs in a cycle that avoids
  the library it was asked for.
 */
module FailedOpen {
  import opened Basics
  import opened Soinfo
  import opened Peeling
  import opened Teardown
  import opened Leftovers
  import opened Groups
  import opened Opening
  import opened FindLibraries

  // ---------------------------------------------------------------------------------
  // A successful open
  // ---------------------------------------------------------------------------------

  lemma StrayStays(s0: State, s1: State, s: State, l: Lib)
    requires Domains(s0) && Added(s0, s1) && Joined(s0, s1, s)
    ensures Stray(s, l) <==> Stray(s0, l)
    ensures Loose(s, l) <==> Loose(s0, l)
  {
  }

  lemma JoinedKnots(s0: State, s1: State, s: State)
    requires Domains(s0) && Added(s0, s1) && MoreParents(s0, s1) && Joined(s0, s1, s) && Knotted(s0)
    ensures Knotted(s)
  {
    forall l | Loose(s, l) ensures HeldByLoose(s, l) {
      StrayStays(s0, s1, s, l);
      assert HeldByLoose(s0, l);
      var p :| p in s0.parents[l] && Loose(s0, p);
      StrayStays(s0, s1, s, p);
    }
  }

  lemma JoinedTidily(s0: State, s1: State, s: State)
    requires Domains(s0) && Added(s0, s1) && MoreParents(s0, s1) && Joined(s0, s1, s)
    ensures Tidy(s0, s, true)
  {
    if Knotted(s0) {
      JoinedKnots(s0, s1, s);
    }
    forall l ensures Stray(s, l) <==> Stray(s0, l) {
      StrayStays(s0, s1, s, l);
    }
  }

  // ---------------------------------------------------------------------------------
  // A failed open
  // ---------------------------------------------------------------------------------

  /** A task adds an edge to the group. */
  lemma TaskEdge(s0: State, s: State, tasks: seq<Task>, k: nat, f: Lib)
    requires Domains(s0) && Domains(s) && Symmetric(s) && Added(s0, s) && ChildrenAre(s0, s, tasks)
    requires k < |tasks| && tasks[k].neededBy.Some? && New(s0, s, tasks[k].neededBy.value) && New(s0, s, tasks[k].si)
    ensures Edge(GroupOf(s, f), tasks[k].neededBy.value, tasks[k].si)
  {
    var n, l := tasks[k].neededBy.value, tasks[k].si;
    NewIsUnlinked(s0, s, n);
    NewIsUnlinked(s0, s, l);
    SisContains(tasks, k, n);
    assert l in s.children[n];
  }

  /** Every library was loaded for one that hangs on the first. */
  lemma {:induction false} TaskHangs(s0: State, s: State, tasks: seq<Task>, startWith: Option<Lib>, k: nat)
    requires Domains(s0) && Domains(s) && Symmetric(s) && Added(s0, s) && ChildrenAre(s0, s, tasks) && TasksKnown(s0, s, tasks, startWith)
    requires k < |tasks| && New(s0, s, tasks[0].si) && New(s0, s, tasks[k].si)
    ensures Reach(GroupOf(s, tasks[0].si), tasks[k].si)
  {
    var g, l := GroupOf(s, tasks[0].si), tasks[k].si;
    NewIsUnlinked(s0, s, l);
    if k == 0 {
      assert ChainTo(g, [l], l);
    } else {
      NeedIsKnown(s0, s, tasks, startWith, k);
      var n := tasks[k].neededBy.value;
      var j :| 0 <= j < k && j < |tasks| && tasks[j].si == n;
      TaskHangs(s0, s, tasks, startWith, j);
      TaskEdge(s0, s, tasks, k, tasks[0].si);
      Peeling.ReachStep(g, n, l);
    }
  }

  lemma AllHang(s0: State, x: Expansion, startWith: Option<Lib>)
    requires Domains(s0) && Domains(x.s) && Symmetric(x.s) && Started(s0, x, startWith) && x.tasks != [] && New(s0, x.s, x.tasks[0].si)
    ensures HangOn(s0, x.s, x.tasks[0].si)
  {
    forall n | New(s0, x.s, n) ensures Reach(GroupOf(x.s, x.tasks[0].si), n) {
      assert LoadedBefore(x.tasks, |x.tasks|, n);
      var k :| 0 <= k < |x.tasks| && x.tasks[k].si == n;
      TaskHangs(s0, x.s, x.tasks, startWith, k);
    }
  }

  /** Linking that fails changes nothing about what hangs on what. */
  lemma SameGroup(s1: State, s: State, f: Lib)
    requires Unlinked(s1, s)
    ensures GroupOf(s, f) == GroupOf(s1, f)
  {
    assert GroupOf(s, f).members == GroupOf(s1, f).members;
  }

  lemma LoadedNow(s0: State, s1: State, s: State)
    requires Domains(s0) && Added(s0, s1) && MoreParents(s0, s1) && Unlinked(s1, s)
    ensures Loaded(s0, s)
  {
  }

  lemma AttemptedNow(s0: State, x: Expansion, startWith: Option<Lib>, s: State)
    requires Domains(s0) && Started(s0, x, startWith) && x.tasks != [] && New(s0, x.s, x.tasks[0].si)
    requires Domains(x.s) && Symmetric(x.s) && Unlinked(x.s, s) && WellFormed(s)
    ensures Attempted(s0, s, x.tasks[0].si)
  {
    var f := x.tasks[0].si;
    AllHang(s0, x, startWith);
    SameGroup(x.s, s, f);
    LoadedNow(s0, x.s, s);
    forall n | New(s0, s, n) ensures Reach(GroupOf(s, f), n) {
      assert New(s0, x.s, n);
    }
  }

  /** No cycle among the libraries that step 1 loads avoids the one that was asked for. */
  ghost predicate Untangled(x: Expansion)
  {
    x.tasks != [] ==> NoRootlessCycle(GroupOf(x.s, x.tasks[0].si))
  }

  // ---------------------------------------------------------------------------------
  // An open that leaves something behind
  // ---------------------------------------------------------------------------------

  /** Library a needs b, and b and c need each other; a cannot be linked. */
  function Tangle(s0: State, ns: Namespace): Environment
  {
    Environment([Load(ns, 1, false, {}), Load(ns, 1, false, {}), Load(ns, 1, false, {}), Found(s0.next + 1)], {}, {s0.next}, false)
  }

  /** The state after one task. */
  function After(s: State, r: Resolution, need: Option<Lib>, startWith: Option<Lib>): State
  {
    Linked(Resolved(s, r).0, Resolved(s, r).1, need, startWith)
  }

  /** A task that loads a library which needs one more. */
  lemma OneTask(s: State, tasks: seq<Task>, need: Option<Lib>, startWith: Option<Lib>, plan: seq<Resolution>, i: nat) returns (t: State)
    requires i < |plan| && plan[i].Load? && plan[i].needed == 1
    ensures Expanded(s, tasks, [need], startWith, plan, i) == Expanded(t, tasks + [Task(need, s.next)], [Some(s.next)], startWith, plan, i + 1)
    ensures t.next == s.next + 1 && t.live == s.live + {s.next}
  {
    t := After(s, plan[i], need, startWith);
    var pending := [need];
    assert pending[1..] + AddedTasks(plan[i], s.next) == [Some(s.next)];
  }

  /** A task that finds a loaded library. */
  lemma LastTask(s: State, tasks: seq<Task>, need: Option<Lib>, startWith: Option<Lib>, plan: seq<Resolution>, i: nat, l: Lib)
    requires i < |plan| && plan[i] == Found(l) && l in s.live
    ensures var x := Expanded(s, tasks, [need], startWith, plan, i); x.ok && x.tasks == tasks + [Task(need, l)] && x.s.next == s.next
  {
    var pending := [need];
    assert pending[1..] + AddedTasks(plan[i], l) == [];
  }

  /** The tasks of such a call, when its libraries are numbered from `n` on. */
  ghost predicate TangledTasks(tasks: seq<Task>, n: Lib)
  {
    && |tasks| == 4 && tasks[0].si == n
    && tasks[1] == Task(Some(n), n + 1) && tasks[2] == Task(Some(n + 1), n + 2) && tasks[3] == Task(Some(n + 2), n + 1)
  }

  /** What step 1 makes of it. */
  lemma Tangled(s0: State, startWith: Option<Lib>, plan: seq<Resolution>)
    requires |plan| == 4 && plan[3] == Found(s0.next + 1)
    requires forall k :: 0 <= k < 3 ==> plan[k].Load? && plan[k].needed == 1
    ensures StepOne(s0, startWith, plan).ok && StepOne(s0, startWith, plan).s.next == s0.next + 3
    ensures TangledTasks(StepOne(s0, startWith, plan).tasks, s0.next)
  {
    var n := s0.next;
    var s := FirstTwo(s0, startWith, plan);
    LastTwo(s, [Task(startWith, n), Task(Some(n), n + 1)], startWith, plan, n);
  }

  lemma FirstTwo(s0: State, startWith: Option<Lib>, plan: seq<Resolution>) returns (s: State)
    requires |plan| == 4 && forall k :: 0 <= k < 2 ==> plan[k].Load? && plan[k].needed == 1
    ensures StepOne(s0, startWith, plan) ==
            Expanded(s, [Task(startWith, s0.next), Task(Some(s0.next), s0.next + 1)], [Some(s0.next + 1)], startWith, plan, 2)
    ensures s.next == s0.next + 2 && s0.next + 1 in s.live
  {
    var t := FirstOne(s0, startWith, plan);
    s := OneTask(t, [Task(startWith, s0.next)], Some(s0.next), startWith, plan, 1);
    assert [Task(startWith, s0.next)] + [Task(Some(s0.next), s0.next + 1)] == [Task(startWith, s0.next), Task(Some(s0.next), s0.next + 1)];
  }

  lemma FirstOne(s0: State, startWith: Option<Lib>, plan: seq<Resolution>) returns (s: State)
    requires plan != [] && plan[0].Load? && plan[0].needed == 1
    ensures StepOne(s0, startWith, plan) == Expanded(s, [Task(startWith, s0.next)], [Some(s0.next)], startWith, plan, 1)
    ensures s.next == s0.next + 1
  {
    s := OneTask(s0, [], startWith, startWith, plan, 0);
    assert [] + [Task(startWith, s0.next)] == [Task(startWith, s0.next)];
  }

  lemma LastTwo(s: State, tasks: seq<Task>, startWith: Option<Lib>, plan: seq<Resolution>, n: Lib)
    requires |plan| == 4 && plan[3] == Found(n + 1) && plan[2].Load? && plan[2].needed == 1 && s.next == n + 2 && n + 1 in s.live
    ensures var x := Expanded(s, tasks, [Some(n + 1)], startWith, plan, 2);
            x.ok && x.s.next == n + 3 && x.tasks == tasks + [Task(Some(n + 1), n + 2)] + [Task(Some(n + 2), n + 1)]
  {
    var t := OneTask(s, tasks, Some(n + 1), startWith, plan, 2);
    LastTask(t, tasks + [Task(Some(n + 1), n + 2)], Some(n + 2), startWith, plan, 3, n + 1);
  }

  /** The open fails, and b and c are left behind. */
  lemma CycleLeftBehind(s0: State, startWith: Option<Lib>, ns: Namespace)
    requires Inv(s0, []) && (startWith.Some? ==> startWith.value < s0.next)
    ensures Verdict(s0, startWith, Tangle(s0, ns), 0) == Failed
    ensures !Untangled(StepOne(s0, startWith, Tangle(s0, ns).plan))
  {
    var x := StepOne(s0, startWith, Tangle(s0, ns).plan);
    Tangled(s0, startWith, Tangle(s0, ns).plan);
    StepOneStarted(s0, startWith, Tangle(s0, ns).plan);
    StepOneInv(s0, startWith, Tangle(s0, ns).plan);
    TangledCycle(s0, x);
    TangledFails(s0, startWith, ns);
  }

  lemma TangledFails(s0: State, startWith: Option<Lib>, ns: Namespace)
    requires forall l :: l in s0.live ==> l < s0.next
    ensures Verdict(s0, startWith, Tangle(s0, ns), 0) == Failed
  {
    var x := StepOne(s0, startWith, Tangle(s0, ns).plan);
    Tangled(s0, startWith, Tangle(s0, ns).plan);
    assert New(s0, x.s, s0.next);
    forall k | 0 <= k < |x.tasks| ensures !Loose(s0, x.tasks[k].si) {
      assert x.tasks[k].si >= s0.next;
    }
  }

  lemma TangledCycle(s0: State, x: Expansion)
    requires Domains(s0) && Domains(x.s) && Symmetric(x.s) && Added(s0, x.s) && ChildrenAre(s0, x.s, x.tasks)
    requires x.s.next == s0.next + 3 && TangledTasks(x.tasks, s0.next)
    ensures !Untangled(x)
  {
    var n := s0.next;
    TaskEdge(s0, x.s, x.tasks, 1, n);
    TaskEdge(s0, x.s, x.tasks, 2, n);
    TaskEdge(s0, x.s, x.tasks, 3, n);
    TwoCycle(GroupOf(x.s, n), n + 1, n + 2);
  }

  lemma TwoCycle(g: Group, b: Lib, c: Lib)
    requires b != g.root && c != g.root && Edge(g, g.root, b) && Edge(g, b, c) && Edge(g, c, b)
    ensures RootlessCycle(g, [b, c, b])
  {
    var p := [b, c, b];
    assert ChainTo(g, [g.root], g.root);
    Peeling.ReachStep(g, g.root, b);
    Peeling.ReachStep(g, b, c);
    assert Step(g, p, 0) && Step(g, p, 1);
  }
}
