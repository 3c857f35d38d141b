/**
  `find_libraries` for `dlopen`: resolve the load tasks, load, link the local groups, take references. How it ends is told
  by the state before the call and by what the environment decides.
 */
module FindLibraries {
  import opened Basics
  import opened Soinfo
  import opened Groups
  import opened Linking
  import opened Opening
  import opened Sealing

  /** How a call ends. `Aborted` stands for a failed CHECK, `Dangling` for a write to the reference count of a group root
      that was freed, after which nothing is defined. */
  datatype Outcome = Opened | Failed | Aborted | Dangling

  /** What a failing or hostile environment decides: how tasks are resolved, which libraries cannot be loaded
      or relocated, and whether step 2 meets a leftover library before one that cannot be loaded. */
  datatype Environment = Environment(plan: seq<Resolution>, failLoad: set<Lib>, failLink: set<Lib>, leftoverFirst: bool)

  // ---------------------------------------------------------------------------------
  // How a call ends
  // ---------------------------------------------------------------------------------

  /** A task was resolved to an unlinked library that an earlier call has left behind. */
  ghost predicate MeetsLoose(s0: State, tasks: seq<Task>)
  {
    exists k :: 0 <= k < |tasks| && Loose(s0, tasks[k].si)
  }

  /** A task from the `from`th on was resolved to a library without a group root. */
  ghost predicate MeetsStray(s0: State, tasks: seq<Task>, from: nat)
  {
    exists k :: from <= k < |tasks| && Stray(s0, tasks[k].si)
  }

  /** One of the libraries that step 1 has allocated is among those that fail. */
  ghost predicate FailsOn(s0: State, s: State, failing: set<Lib>)
  {
    exists l :: l in failing && New(s0, s, l)
  }

  /** The outcome, as it can be told before the call. */
  ghost function Verdict(s0: State, startWith: Option<Lib>, env: Environment, from: nat): Outcome
  {
    var x := StepOne(s0, startWith, env.plan);
    if !x.ok then Failed
    else if MeetsLoose(s0, x.tasks) && (env.leftoverFirst || !FailsOn(s0, x.s, env.failLoad)) then Aborted
    else if FailsOn(s0, x.s, env.failLoad) || FailsOn(s0, x.s, env.failLink) then Failed
    else if MeetsStray(s0, x.tasks, from) then Dangling
    else Opened
  }

  // ---------------------------------------------------------------------------------
  // Step 2
  // ---------------------------------------------------------------------------------

  /** Step 2: loads the new libraries, and aborts over an unlinked library that this call did not load. */
  method LoadStep(s0: State, s: State, tasks: seq<Task>, env: Environment, ghost startWith: Option<Lib>)
    returns (aborted: bool, failed: bool)
    requires (forall l :: l in s0.live ==> l < s0.next) && Added(s0, s) && TasksKnown(s0, s, tasks, startWith)
    ensures aborted <==> MeetsLoose(s0, tasks) && (env.leftoverFirst || !FailsOn(s0, s, env.failLoad))
    ensures !aborted ==> (failed <==> FailsOn(s0, s, env.failLoad))
    ensures !aborted && !failed ==> NoLeftovers(s0, s, tasks)
  {
    var leftover := exists k :: 0 <= k < |tasks| && tasks[k].si !in s.linked && tasks[k].si < s0.next;
    failed := exists k :: 0 <= k < |tasks| && tasks[k].si >= s0.next && tasks[k].si in env.failLoad;
    aborted := leftover && (env.leftoverFirst || !failed);
    LoadFails(s0, s, tasks, env.failLoad, startWith);
    assert leftover <==> MeetsLoose(s0, tasks);
  }

  lemma LoadFails(s0: State, s: State, tasks: seq<Task>, failing: set<Lib>, startWith: Option<Lib>)
    requires (forall l :: l in s0.live ==> l < s0.next) && Added(s0, s) && TasksKnown(s0, s, tasks, startWith)
    ensures FailsOn(s0, s, failing) <==> exists k :: 0 <= k < |tasks| && tasks[k].si >= s0.next && tasks[k].si in failing
  {
    if l :| l in failing && New(s0, s, l) {
      assert LoadedBefore(tasks, |tasks|, l);
      var j :| 0 <= j < |tasks| && tasks[j].si == l;
    }
    if k :| 0 <= k < |tasks| && tasks[k].si >= s0.next && tasks[k].si in failing {
      assert New(s0, s, tasks[k].si);
    }
  }

  // ---------------------------------------------------------------------------------
  // Steps 5 and 6
  // ---------------------------------------------------------------------------------

  function WorldOf(s: State): World
  {
    World(s.children, s.parents, s.namespace, s.secondary, s.linked)
  }

  lemma WorldIsValid(s: State)
    requires Domains(s) && Symmetric(s)
    ensures WorldOf(s).Valid()
  {
  }

  lemma {:induction false} SisContains(tasks: seq<Task>, k: nat, n: Lib)
    requires k < |tasks| && tasks[k].neededBy == Some(n)
    ensures tasks[k].si in Sis(tasks, n)
  {
    var m := |tasks| - 1;
    if k < m {
      assert tasks[..m][k] == tasks[k];
      SisContains(tasks[..m], k, n);
    }
  }

  lemma NeedIsKnown(s0: State, s: State, tasks: seq<Task>, startWith: Option<Lib>, k: nat)
    requires TasksKnown(s0, s, tasks, startWith) && k < |tasks|
    ensures tasks[k].si in s.live && NeedKnown(s0, s, tasks, startWith, k, tasks[k].neededBy)
  {
  }

  /** The request is that of a `dlopen`, or that of the initial link, which starts with its first library. */
  ghost predicate Asks(req: Request, tasks: seq<Task>, startWith: Option<Lib>, next: nat)
  {
    if req.addAsChildren then startWith.None? && tasks != [] && req.startWith == Some(tasks[0].si)
    else req.startWith == startWith && (startWith.Some? ==> startWith.value < next)
  }

  lemma TaskIsDone(s0: State, s: State, req: Request, tasks: seq<Task>, startWith: Option<Lib>, k: nat)
    requires Domains(s0) && Domains(s) && Added(s0, s) && ChildrenAre(s0, s, tasks) && TasksKnown(s0, s, tasks, startWith)
    requires Asks(req, tasks, startWith, s0.next) && k < |tasks|
    ensures TaskDone(WorldOf(s), req, tasks, tasks[0].si, k)
    ensures k > 0 ==> tasks[k].neededBy.Some? && New(s0, s, tasks[k].neededBy.value) && req.IsDtNeeded(tasks[k])
  {
    NeedIsKnown(s0, s, tasks, startWith, k);
    if k > 0 {
      var n := tasks[k].neededBy.value;
      NewIsUnlinked(s0, s, n);
      SisContains(tasks, k, n);
      var j :| 0 <= j < k && j < |tasks| && tasks[j].si == n;
    }
  }

  lemma TasksAreDone(s0: State, s: State, req: Request, tasks: seq<Task>, startWith: Option<Lib>)
    requires Domains(s0) && Domains(s) && Added(s0, s) && ChildrenAre(s0, s, tasks) && TasksKnown(s0, s, tasks, startWith)
    requires Asks(req, tasks, startWith, s0.next)
    ensures forall k :: 0 <= k < |tasks| ==> TaskDone(WorldOf(s), req, tasks, tasks[0].si, k)
  {
    forall k | 0 <= k < |tasks| ensures TaskDone(WorldOf(s), req, tasks, tasks[0].si, k) {
      TaskIsDone(s0, s, req, tasks, startWith, k);
    }
  }

  lemma LinksAreClosed(s: State)
    requires Domains(s) && GroupsFormed(s)
    ensures ClosedLinks(WorldOf(s))
  {
  }

  lemma TasksAreKnown(s0: State, s: State, tasks: seq<Task>, startWith: Option<Lib>)
    requires Domains(s) && Added(s0, s) && TasksKnown(s0, s, tasks, startWith) && (startWith.Some? ==> startWith.value in s0.live)
    ensures Known(WorldOf(s), tasks)
  {
    forall k | 0 <= k < |tasks|
      ensures tasks[k].si in s.namespace && (tasks[k].neededBy.Some? ==> tasks[k].neededBy.value in s.namespace)
    {
      NeedIsKnown(s0, s, tasks, startWith, k);
    }
  }

  lemma NewAreFresh(s0: State, s: State, tasks: seq<Task>, startWith: Option<Lib>)
    requires Domains(s0) && Domains(s) && Added(s0, s) && ChildrenAre(s0, s, tasks) && TasksKnown(s0, s, tasks, startWith)
    ensures FreshAre(WorldOf(s), tasks, s0.next, s.next)
  {
    var w := WorldOf(s);
    forall n | Fresh(s0.next, s.next, n) ensures n in w.children && n !in w.linked && IsTask(tasks, n) {
      NewIsUnlinked(s0, s, n);
      assert LoadedBefore(tasks, |tasks|, n);
    }
    forall n, c {:trigger c in w.children[n]} | Fresh(s0.next, s.next, n) && n in w.children && c in w.children[n] ensures IsTask(tasks, c) {
      assert New(s0, s, n);
      SisAreTasks(tasks, n, c);
    }
  }

  lemma TasksAreFresh(s0: State, s: State, req: Request, tasks: seq<Task>, startWith: Option<Lib>)
    requires Domains(s0) && Domains(s) && Added(s0, s) && ChildrenAre(s0, s, tasks) && TasksKnown(s0, s, tasks, startWith)
    requires Asks(req, tasks, startWith, s0.next) && NoLeftovers(s0, s, tasks)
    ensures TasksAre(WorldOf(s), req, tasks, s0.next, s.next)
  {
    forall k | 0 < k < |tasks| ensures tasks[k].neededBy.Some? && Fresh(s0.next, s.next, tasks[k].neededBy.value) && req.IsDtNeeded(tasks[k]) {
      TaskIsDone(s0, s, req, tasks, startWith, k);
    }
  }

  /** Step 1 has prepared steps 5 and 6. */
  lemma PreparedNow(s0: State, x: Expansion, req: Request, startWith: Option<Lib>)
    requires Domains(s0) && Started(s0, x, startWith) && x.tasks != [] && NoLeftovers(s0, x.s, x.tasks)
    requires Domains(x.s) && Symmetric(x.s) && GroupsFormed(x.s)
    requires Asks(req, x.tasks, startWith, s0.next) && (startWith.Some? ==> startWith.value in s0.live)
    ensures Prepared(WorldOf(x.s), req, x.tasks, s0.next, x.s.next)
  {
    WorldIsValid(x.s);
    LinksAreClosed(x.s);
    TasksAreKnown(s0, x.s, x.tasks, startWith);
    TasksAreDone(s0, x.s, req, x.tasks, startWith);
    NewAreFresh(s0, x.s, x.tasks, startWith);
    TasksAreFresh(s0, x.s, req, x.tasks, startWith);
    FirstLinked(s0, x, startWith);
  }

  lemma FirstLinked(s0: State, x: Expansion, startWith: Option<Lib>)
    requires Domains(s0) && Started(s0, x, startWith) && x.tasks != []
    ensures x.tasks[0].si in x.s.linked ==> x.tasks == [x.tasks[0]]
  {
  }

  // ---------------------------------------------------------------------------------
  // Steps 5 to 7
  // ---------------------------------------------------------------------------------

  lemma RootsAreSame(s: State, gr: map<Lib, Lib>)
    requires s.linked <= s.groupRoot.Keys && Untouched(s.groupRoot, gr, gr.Keys - s.linked)
    ensures SameRoots(s, gr) && Kept(s.linked, s.groupRoot, gr)
  {
  }

  lemma TaskHasGroup(s0: State, s: State, tasks: seq<Task>, gr: map<Lib, Lib>, k: nat)
    requires k < |tasks| && NoLeftovers(s0, s, tasks) && Grouped(s0, s, gr)
    ensures tasks[k].si in gr
  {
  }

  /** Step 7 leads to a group root that is gone exactly for a dependency on a leftover. */
  lemma DanglesOver(s0: State, s: State, tasks: seq<Task>, gr: map<Lib, Lib>, startWith: Option<Lib>, k: nat)
    requires Domains(s0) && Added(s0, s) && TasksKnown(s0, s, tasks, startWith) && NoLeftovers(s0, s, tasks) && Grouped(s0, s, gr)
    requires k < |tasks| && (startWith.Some? ==> startWith.value < s0.next)
    ensures Counted(tasks[k], gr, startWith) && gr[tasks[k].si] !in s.live <==> k > 0 && Stray(s0, tasks[k].si)
  {
    NeedIsKnown(s0, s, tasks, startWith, k);
    TaskHasGroup(s0, s, tasks, gr, k);
  }

  lemma DanglesExactly(s0: State, s: State, tasks: seq<Task>, gr: map<Lib, Lib>, startWith: Option<Lib>)
    requires Domains(s0) && Added(s0, s) && TasksKnown(s0, s, tasks, startWith) && NoLeftovers(s0, s, tasks) && Grouped(s0, s, gr)
    requires (startWith.Some? ==> startWith.value < s0.next) && s.refs.Keys == s.live
    ensures MeetsStray(s0, tasks, 1) <==>
            !forall k :: 0 <= k < |tasks| && Counted(tasks[k], gr, startWith) ==> gr[tasks[k].si] in s.refs
  {
    forall k | 0 <= k < |tasks| ensures Counted(tasks[k], gr, startWith) && gr[tasks[k].si] !in s.live <==> k > 0 && Stray(s0, tasks[k].si) {
      DanglesOver(s0, s, tasks, gr, startWith, k);
    }
  }

  /** Group roots of unlinked libraries are nobody's business. */
  lemma UnlinkedRoots(s: State, gr: map<Lib, Lib>)
    requires Inv(s, []) && SameRoots(s, gr)
    ensures Inv(s.(groupRoot := gr), [])
  {
    var t := s.(groupRoot := gr);
    UnlinkedRootsShape(s, t);
    LinkedIsClosed(s);
    forall r: Lib ensures Balanced(t, [], r) {
      assert Balanced(s, [], r);
      UnlinkedRootsBalanced(s, t, gr, r);
    }
  }

  lemma UnlinkedRootsBalanced(s: State, t: State, gr: map<Lib, Lib>, r: Lib)
    requires t == s.(groupRoot := gr) && SameRoots(s, gr) && ClosedOver(s) && Balanced(s, [], r)
    ensures Balanced(t, [], r)
  {
    forall l: Lib | l < s.next ensures Contribution(s, l, r) == Contribution(t, l, r) {
      if l in s.linked {
        CountSameRoots(s.children[l], s.groupRoot, gr, r);
      }
    }
    HeldSame(s, t, r, s.next);
  }

  lemma UnlinkedRootsShape(s: State, t: State)
    requires WellFormed(s) && t == s.(groupRoot := t.groupRoot) && SameRoots(s, t.groupRoot)
    ensures WellFormed(t)
  {
    assert Domains(t);
    forall l | l in t.linked && t.groupRoot[l] in t.live ensures LeadsItself(t, t.groupRoot[l]) {
      assert LeadsItself(s, s.groupRoot[l]);
    }
  }

  lemma UnlinkedRootsUsed(s: State, gr: map<Lib, Lib>)
    requires AllUsed(s) && SameRoots(s, gr)
    ensures AllUsed(s.(groupRoot := gr))
  {
    forall r ensures !Unused(s.(groupRoot := gr), r) {
      assert Unused(s.(groupRoot := gr), r) ==> Unused(s, r);
    }
  }

  /** What has changed when linking has failed: nothing but the group roots of unlinked libraries. */
  ghost predicate Unlinked(s1: State, s: State)
  {
    s == s1.(groupRoot := s.groupRoot) && SameRoots(s1, s.groupRoot)
  }

  /** What has changed when the call has succeeded: the new libraries are linked and in groups of their own. */
  ghost predicate Joined(s0: State, s1: State, s: State)
  {
    s == s1.(linked := s.linked, groupRoot := s.groupRoot, refs := s.refs) && NewLinked(s0, s1, s) && Grouped(s0, s1, s.groupRoot)
    && s.refs.Keys == s1.refs.Keys
  }

  /** Steps 5 and 6 on the loader's state. */
  method LinkLibraries(s0: State, s1: State, req: Request, tasks: seq<Task>, ghost startWith: Option<Lib>, failing: set<Lib>)
    returns (ok: bool, gr: map<Lib, Lib>)
    requires Domains(s0) && Started(s0, Expansion(true, s1, tasks), startWith) && tasks != [] && NoLeftovers(s0, s1, tasks)
    requires Domains(s1) && Symmetric(s1) && GroupsFormed(s1)
    requires Asks(req, tasks, startWith, s0.next) && (startWith.Some? ==> startWith.value in s0.live)
    ensures ok <==> !FailsOn(s0, s1, failing)
    ensures SameRoots(s1, gr)
    ensures ok ==> Grouped(s0, s1, gr) && (!req.addAsChildren ==> NewNeeded(tasks, s0.next, s1.next, gr, req.startWith))
    ensures ok && New(s0, s1, tasks[0].si) ==> gr[tasks[0].si] == tasks[0].si
    ensures ok ==> GroupedBy(WorldOf(s1), req, tasks, s0.next, s1.next, gr)
  {
    PreparedNow(s0, Expansion(true, s1, tasks), req, startWith);
    ok, gr := LinkStep(WorldOf(s1), req, tasks, failing, s1.groupRoot, s0.next, s1.next);
    FailsOnFresh(s0, s1, failing);
    RootsAreSame(s1, gr);
    if ok {
      GroupedNow(s0, s1, gr);
      assert New(s0, s1, tasks[0].si) ==> Fresh(s0.next, s1.next, tasks[0].si);
    }
  }

  /** Step 7. */
  method CountLibraries(s0: State, s1: State, tasks: seq<Task>, startWith: Option<Lib>, gr: map<Lib, Lib>) returns (ok: bool, s: State)
    requires ToSeal(s0, s1, tasks, startWith, gr) && Inv(s1, []) && AllUsed(s1) && !New(s0, s1, s1.exe)
    requires tasks != [] && (startWith.Some? ==> startWith.value < s0.next) && NewNeeded(tasks, s0.next, s1.next, gr, startWith)
    ensures ok <==> !MeetsStray(s0, tasks, 1)
    ensures ok ==> s == Sealed(s1, tasks, gr).(refs := s.refs) && s.refs.Keys == s1.refs.Keys && Inv(s, [])
    ensures ok ==> tasks[0].si in gr && UsedBut(s, gr[tasks[0].si])
  {
    DanglesExactly(s0, s1, tasks, gr, startWith);
    var refs;
    ok, refs := TakeRefs(s1.refs, tasks, gr, startWith);
    s := Sealed(s1, tasks, gr).(refs := refs);
    if ok {
      TaskHasGroup(s0, s1, tasks, gr, 0);
      SealedInv(s0, s1, tasks, startWith, gr, refs);
      SealedUsed(s0, s1, tasks, startWith, gr, refs);
    }
  }

  lemma JoinedNow(s0: State, s1: State, tasks: seq<Task>, startWith: Option<Lib>, gr: map<Lib, Lib>, s: State)
    requires TasksKnown(s0, s1, tasks, startWith) && NoLeftovers(s0, s1, tasks) && Grouped(s0, s1, gr) && tasks != []
    requires s == Sealed(s1, tasks, gr).(refs := s.refs) && s.refs.Keys == s1.refs.Keys
    ensures Joined(s0, s1, s) && tasks[0].si in s.linked
  {
    SealedLinked(s0, s1, tasks, startWith, gr);
  }

  /** Steps 5 to 7. */
  method LinkAndCount(s0: State, s1: State, req: Request, tasks: seq<Task>, failing: set<Lib>) returns (out: Outcome, s: State)
    requires Domains(s0) && Started(s0, Expansion(true, s1, tasks), req.startWith) && tasks != [] && NoLeftovers(s0, s1, tasks)
    requires Inv(s1, []) && AllUsed(s1) && !New(s0, s1, s1.exe)
    requires !req.addAsChildren && (req.startWith.Some? ==> req.startWith.value in s0.live)
    ensures out == if FailsOn(s0, s1, failing) then Failed else if MeetsStray(s0, tasks, 1) then Dangling else Opened
    ensures out.Failed? ==> Unlinked(s1, s)
    ensures out.Opened? ==> Joined(s0, s1, s) && Inv(s, []) && tasks[0].si in s.linked && UsedBut(s, s.groupRoot[tasks[0].si])
    ensures out.Opened? ==> GroupedBy(WorldOf(s1), req, tasks, s0.next, s1.next, s.groupRoot)
  {
    var ok, gr := LinkLibraries(s0, s1, req, tasks, req.startWith, failing);
    if !ok {
      return Failed, s1.(groupRoot := gr);
    }
    ok, s := CountLibraries(s0, s1, tasks, req.startWith, gr);
    if !ok {
      return Dangling, s1;
    }
    JoinedNow(s0, s1, tasks, req.startWith, gr, s);
    out := Opened;
  }

  lemma FailsOnFresh(s0: State, s: State, failing: set<Lib>)
    ensures FailsOn(s0, s, failing) <==> !forall l :: l in failing ==> !Fresh(s0.next, s.next, l)
  {
  }

  /** Every library that step 1 has loaded is in the group of the first root, in the order of the tasks, that has its
      namespace and leads to it. */
  ghost predicate LinkedAs(s0: State, x: Expansion, ns: Namespace, startWith: Option<Lib>, gr: map<Lib, Lib>)
  {
    GroupedBy(World(x.s.children, x.s.parents, x.s.namespace, x.s.secondary, s0.linked), Request(ns, startWith, false), x.tasks,
              s0.next, x.s.next, gr)
  }

  /** `find_libraries`, as `find_library` calls it. */
  method FindLibraries(s0: State, ns: Namespace, startWith: Option<Lib>, env: Environment)
    returns (out: Outcome, s: State, first: Option<Lib>)
    requires Inv(s0, []) && AllUsed(s0) && s0.exe in s0.linked
    requires startWith.Some? ==> startWith.value in s0.live
    ensures out == Verdict(s0, startWith, env, 1)
    ensures var x := StepOne(s0, startWith, env.plan); first == if x.tasks == [] then None else Some(x.tasks[0].si)
    ensures out.Failed? ==> Unlinked(StepOne(s0, startWith, env.plan).s, s)
    ensures out.Failed? ==> if first.None? then s == s0 else New(s0, StepOne(s0, startWith, env.plan).s, first.value)
    ensures out.Opened? ==> Joined(s0, StepOne(s0, startWith, env.plan).s, s) && Inv(s, [])
    ensures out.Opened? ==> first.Some? && first.value in s.linked && UsedBut(s, s.groupRoot[first.value])
    ensures out.Opened? ==> LinkedAs(s0, StepOne(s0, startWith, env.plan), ns, startWith, s.groupRoot)
  {
    var ok, tasks;
    ok, s, tasks := Expand(s0, startWith, env.plan);
    StepOneStarted(s0, startWith, env.plan);
    RootsStay(s0, s);
    first := if tasks == [] then None else Some(tasks[0].si);
    if !ok {
      return Failed, s, first;
    }
    var aborted, failed := LoadStep(s0, s, tasks, env, startWith);
    if aborted {
      return Aborted, s, first;
    }
    if failed {
      return Failed, s, first;
    }
    StepOneInv(s0, startWith, env.plan);
    LoadedUsed(s0, s);
    out, s := LinkAndCount(s0, s, Request(ns, startWith, false), tasks, env.failLink);
  }

  lemma RootsStay(s0: State, s: State)
    requires s0.linked <= s0.groupRoot.Keys && Added(s0, s)
    ensures Unlinked(s, s)
  {
  }
}
