/**
  The initial link: the executable, which is loaded already, and everything it needs. It is the call of `find_libraries`
  that adds what it loads as children of the library it starts with, and it leaves the loader in order.
 */
module InitialLink {
  import opened Basics
  import opened Soinfo
  import opened Groups
  import opened Linking
  import opened Opening
  import opened Plans
  import opened Sealing
  import opened FindLibraries
  import opened Unloading
  import opened Linker

  /** Before the initial link there are only libraries that stay for ever, such as the linker itself and the vDSO. The next
      library is the executable. */
  ghost predicate Bare(s: State)
  {
    Inv(s, []) && Clean(s) && s.dso == map[] && s.exe == s.next && AllLoaded(s) && Staying(s)
  }

  ghost predicate AllLoaded(s: State)
  {
    forall l: Lib :: l < s.next ==> l in s.live
  }

  /** Every library stays for ever. */
  ghost predicate Staying(s: State)
  {
    forall l: Lib :: l < s.next ==> l in s.keep
  }

  /** Nothing has been loaded. */
  function Nothing(): State
  {
    State(0, {}, map[], map[], {}, map[], map[], {}, map[], map[], map[], 0, map[], map[])
  }

  lemma NothingIsBare()
    ensures Bare(Nothing())
  {
    var s := Nothing();
    assert WellFormed(s);
    forall r: Lib ensures Balanced(s, [], r) {
      assert Held(s, r, 0) == 0;
    }
  }

  /** The plan of the initial link: the executable is allocated first, and has a task for everything it needs. */
  function Plan(ns: Namespace, names: nat, image: set<Address>, plan: seq<Resolution>): seq<Resolution>
  {
    [Load(ns, names, true, image)] + plan
  }

  /** Libraries that are loaded with the executable are global, and stay for ever. */
  ghost predicate Global(plan: seq<Resolution>)
  {
    forall k :: 0 <= k < |plan| ==> plan[k].Load? ==> plan[k].keep
  }

  lemma StillStaying(s: State, r: Resolution, need: Option<Lib>, startWith: Option<Lib>)
    requires Staying(s) && (r.Load? ==> r.keep)
    ensures Staying(Linked(Resolved(s, r).0, Resolved(s, r).1, need, startWith))
  {
  }

  lemma {:induction false} AllStay(s: State, tasks: seq<Task>, pending: seq<Option<Lib>>, startWith: Option<Lib>, plan: seq<Resolution>, i: nat)
    requires i <= |plan| && Global(plan) && Staying(s)
    ensures Staying(Expanded(s, tasks, pending, startWith, plan, i).s)
    decreases |plan| - i
  {
    if pending != [] && i < |plan| && Resolves(s, plan[i]) {
      var (t, si) := Resolved(s, plan[i]);
      StillStaying(s, plan[i], pending[0], startWith);
      AllStay(Linked(t, si, pending[0], startWith), tasks + [Task(pending[0], si)], pending[1..] + AddedTasks(plan[i], si), startWith, plan, i + 1);
    }
  }

  lemma ExecutableFirst(s0: State, plan: seq<Resolution>)
    requires plan != [] && plan[0].Load?
    ensures StepOne(s0, None, plan).tasks != [] && StepOne(s0, None, plan).tasks[0] == Task(None, s0.next)
  {
    var t := Resolved(s0, plan[0]).0;
    var pending, tasks := [None], [] + [Task(None, s0.next)];
    assert StepOne(s0, None, plan) == Expanded(t, tasks, pending[1..] + AddedTasks(plan[0], s0.next), None, plan, 1);
    ExpandedMore(t, tasks, pending[1..] + AddedTasks(plan[0], s0.next), None, plan, 1);
  }

  /** No reference leads to a root that is gone. */
  lemma RootsAreThere(s0: State, s: State, tasks: seq<Task>, gr: map<Lib, Lib>)
    requires Domains(s0) && Clean(s0) && Added(s0, s) && NoLeftovers(s0, s, tasks) && Grouped(s0, s, gr)
    ensures forall k :: 0 <= k < |tasks| ==> tasks[k].si in gr && gr[tasks[k].si] in s.live
  {
    forall k | 0 <= k < |tasks| ensures tasks[k].si in gr && gr[tasks[k].si] in s.live {
      assert !Stray(s0, tasks[k].si);
    }
  }

  lemma RootIsThere(s0: State, s: State, t: State, gr: map<Lib, Lib>, l: Lib)
    requires Domains(s0) && Clean(s0) && Added(s0, s) && Marked(s0, s, t, gr) && l in t.linked
    ensures l in gr && gr[l] in s.live && gr[l] < s.next
  {
    assert !Stray(s0, l);
  }

  lemma ExecutablePinned(s0: State, s: State, t: State, gr: map<Lib, Lib>)
    requires Domains(s0) && Clean(s0) && Added(s0, s) && Domains(t) && Marked(s0, s, t, gr)
    requires Staying(s) && New(s0, s, s.exe) && gr[s.exe] == s.exe
    ensures Pinned(t)
  {
    forall c | c in t.linked ensures t.groupRoot[c] in t.live && t.groupRoot[c] in t.keep {
      RootIsThere(s0, s, t, gr, c);
    }
  }

  lemma LinkedInv(s0: State, s: State, tasks: seq<Task>, gr: map<Lib, Lib>, refs: map<Lib, nat>)
    requires Clean(s0) && ToSeal(s0, s, tasks, None, gr) && Inv(s, [])
    requires Staying(s) && New(s0, s, s.exe) && gr[s.exe] == s.exe
    requires RefsTaken(s.refs, refs, tasks, gr, Some(s.exe))
    ensures Inv(Sealed(s, tasks, gr).(refs := refs), [])
  {
    var t := Sealed(s, tasks, gr);
    SealedBooks(s0, s, tasks, None, gr, Some(s.exe), refs);
    LinkedShape(s0, s, tasks, gr, t);
    RefsOnly(t, t.(refs := refs));
  }

  lemma LinkedShape(s0: State, s: State, tasks: seq<Task>, gr: map<Lib, Lib>, t: State)
    requires Clean(s0) && ToSeal(s0, s, tasks, None, gr) && WellFormed(s) && t == Sealed(s, tasks, gr)
    requires Staying(s) && New(s0, s, s.exe) && gr[s.exe] == s.exe
    ensures WellFormed(t)
  {
    MarkedNow(s0, s, tasks, None, gr);
    SealedDomains(s0, s, t, gr);
    ExecutablePinned(s0, s, t, gr);
    SealedShape(s0, s, t, tasks, gr);
  }

  lemma LinkedSettled(s0: State, s: State, t: State, gr: map<Lib, Lib>)
    requires Domains(s0) && Clean(s0) && Added(s0, s) && t == s.(linked := t.linked, groupRoot := gr, refs := t.refs) && NewLinked(s0, s, t)
    requires Staying(s) && New(s0, s, s.exe) && s.dso == map[]
    requires forall l :: l in t.linked ==> l < t.next
    ensures Settled(t)
  {
    forall l ensures !Loose(t, l) {
      assert !Stray(s0, l);
    }
  }

  lemma NothingUnloaded(s0: State, s: State)
    requires AllLoaded(s0) && Added(s0, s)
    ensures History([], s.live, s.next)
  {
    forall l: Lib | l < s.next ensures l in s.live {
      assert l < s0.next ==> l in s0.live;
    }
  }

  ghost predicate Succeeds(s0: State, x: Expansion, failLoad: set<Lib>, failLink: set<Lib>)
  {
    x.ok && !FailsOn(s0, x.s, failLoad) && !FailsOn(s0, x.s, failLink)
  }

  lemma PlanStays(s0: State, ns: Namespace, names: nat, image: set<Address>, plan: seq<Resolution>)
    requires Global(plan) && Staying(s0)
    ensures Staying(StepOne(s0, None, Plan(ns, names, image, plan)).s)
  {
    AllStay(s0, [], [None], None, Plan(ns, names, image, plan), 0);
  }

  /** The initial link. It succeeds exactly if everything is found, loaded and linked, and then the loader is in order. */
  method Link(s0: State, ns: Namespace, names: nat, image: set<Address>, plan: seq<Resolution>, failLoad: set<Lib>, failLink: set<Lib>)
    returns (ok: bool, s: State)
    requires Bare(s0) && Global(plan)
    ensures ok <==> Succeeds(s0, StepOne(s0, None, Plan(ns, names, image, plan)), failLoad - {s0.exe}, failLink)
    ensures ok ==> Rests(s, []) && s.exe == s0.exe && Clean(s)
    ensures ok ==> StartedAs(s0, StepOne(s0, None, Plan(ns, names, image, plan)), ns, Plan(ns, names, image, plan), s)
    ensures ok ==> s.exe in s.children && |s.children[s.exe]| == names
  {
    var tasks;
    ok, s, tasks := LoadAll(s0, Plan(ns, names, image, plan), failLoad - {s0.exe});
    if ok {
      LinkableNow(s0, ns, names, image, plan, s, tasks);
      ghost var s1 := s;
      ok, s := LinkAll(s0, s, ns, tasks, failLink);
      if ok {
        StartedNow(s0, Expansion(true, s1, tasks), ns, names, image, plan, s);
      }
    }
  }

  /** Everything that was loaded is as planned, and in the group of the first root that leads to it. */
  ghost predicate StartedAs(s0: State, x: Expansion, ns: Namespace, plan: seq<Resolution>, s: State)
  {
    && s == x.s.(linked := s.linked, groupRoot := s.groupRoot, refs := s.refs) && Planned(s0, s, plan, |x.tasks|)
    && GroupedBy(World(x.s.children, x.s.parents, x.s.namespace, x.s.secondary, s0.linked), Request(ns, Some(s0.exe), true), x.tasks,
                 s0.next, x.s.next, s.groupRoot)
  }

  lemma StartedNow(s0: State, x: Expansion, ns: Namespace, names: nat, image: set<Address>, plan: seq<Resolution>, s: State)
    requires Domains(s0) && s0.exe == s0.next && x == StepOne(s0, None, Plan(ns, names, image, plan)) && x.ok && x.s.exe == s0.exe
    requires s == x.s.(linked := s.linked, groupRoot := s.groupRoot, refs := s.refs) && x.s.linked == s0.linked
    requires GroupedBy(WorldOf(x.s), Request(ns, Some(s0.exe), true), x.tasks, s0.next, x.s.next, s.groupRoot)
    ensures StartedAs(s0, x, ns, Plan(ns, names, image, plan), s)
    ensures s.exe in s.children && |s.children[s.exe]| == names
  {
    StepOnePlanned(s0, None, Plan(ns, names, image, plan));
    StillPlanned(s0, x.s, s, Plan(ns, names, image, plan), |x.tasks|);
    assert AsPlanned(s, Plan(ns, names, image, plan), s0.next, 0);
  }

  /** Steps 1 and 2. */
  method LoadAll(s0: State, plan: seq<Resolution>, failLoad: set<Lib>) returns (ok: bool, s: State, tasks: seq<Task>)
    requires Domains(s0) && Clean(s0)
    ensures ok <==> StepOne(s0, None, plan).ok && !FailsOn(s0, StepOne(s0, None, plan).s, failLoad)
    ensures ok ==> Expansion(true, s, tasks) == StepOne(s0, None, plan) && NoLeftovers(s0, s, tasks)
  {
    ok, s, tasks := Expand(s0, None, plan);
    StepOneStarted(s0, None, plan);
    if ok {
      var aborted, failed := LoadStep(s0, s, tasks, Environment(plan, failLoad, {}, false), None);
      NothingLoose(s0, tasks);
      ok := !failed;
    }
  }

  /** What steps 5 to 7 rely on. */
  ghost predicate Linkable(s0: State, s: State, tasks: seq<Task>)
  {
    && Started(s0, Expansion(true, s, tasks), None) && NoLeftovers(s0, s, tasks) && Inv(s, [])
    && tasks != [] && tasks[0].si == s0.exe && Staying(s)
  }

  lemma LinkableNow(s0: State, ns: Namespace, names: nat, image: set<Address>, plan: seq<Resolution>, s: State, tasks: seq<Task>)
    requires Bare(s0) && Global(plan) && NoLeftovers(s0, s, tasks)
    requires Expansion(true, s, tasks) == StepOne(s0, None, Plan(ns, names, image, plan))
    ensures Linkable(s0, s, tasks)
  {
    var whole := Plan(ns, names, image, plan);
    StepOneStarted(s0, None, whole);
    ExecutableFirst(s0, whole);
    PlanStays(s0, ns, names, image, plan);
    StepOneInv(s0, None, whole);
  }

  lemma NothingLoose(s0: State, tasks: seq<Task>)
    requires Clean(s0)
    ensures !MeetsLoose(s0, tasks)
  {
    forall k | 0 <= k < |tasks| ensures !Loose(s0, tasks[k].si) {
      assert !Stray(s0, tasks[k].si);
    }
  }

  /** Steps 5 to 7. */
  method LinkAll(s0: State, s1: State, ns: Namespace, tasks: seq<Task>, failLink: set<Lib>) returns (ok: bool, s: State)
    requires Bare(s0) && Linkable(s0, s1, tasks)
    ensures ok <==> !FailsOn(s0, s1, failLink)
    ensures ok ==> Rests(s, []) && s.exe == s0.exe && Clean(s)
    ensures ok ==> s == s1.(linked := s.linked, groupRoot := s.groupRoot, refs := s.refs)
    ensures ok ==> GroupedBy(WorldOf(s1), Request(ns, Some(s0.exe), true), tasks, s0.next, s1.next, s.groupRoot)
  {
    var gr;
    s := s1;
    ok, gr := LinkLibraries(s0, s1, Request(ns, Some(s0.exe), true), tasks, None, failLink);
    if ok {
      RootsAreThere(s0, s1, tasks, gr);
      var counted, refs := TakeRefs(s1.refs, tasks, gr, Some(s0.exe));
      s := Sealed(s1, tasks, gr).(refs := refs);
      LinkedInv(s0, s1, tasks, gr, refs);
      SealedLinked(s0, s1, tasks, None, gr);
      LinkedSettled(s0, s1, s, gr);
      NothingUnloaded(s0, s1);
      LinkedClean(s0, s1, s, gr);
    }
  }

  lemma LinkedClean(s0: State, s: State, t: State, gr: map<Lib, Lib>)
    requires Domains(s0) && Clean(s0) && Added(s0, s) && Grouped(s0, s, gr)
    requires t == s.(linked := t.linked, groupRoot := gr, refs := t.refs) && NewLinked(s0, s, t)
    ensures Clean(t)
  {
    forall l ensures !Stray(t, l) {
      assert !Stray(s0, l);
    }
  }

  /** A process starts: the loader that its initial link leaves, or none. */
  method Boot(s0: State, ns: Namespace, names: nat, image: set<Address>, plan: seq<Resolution>, failLoad: set<Lib>, failLink: set<Lib>)
    returns (loader: Linker?)
    requires Bare(s0) && Global(plan)
    ensures loader != null <==> Succeeds(s0, StepOne(s0, None, Plan(ns, names, image, plan)), failLoad - {s0.exe}, failLink)
    ensures loader != null ==> fresh(loader) && loader.Valid() && loader.log == [] && Clean(loader.st)
  {
    loader := null;
    var ok, s := Link(s0, ns, names, image, plan, failLoad, failLink);
    if ok {
      loader := new Linker(s);
    }
  }

  /** An executable that needs nothing always starts. */
  lemma AloneSucceeds(ns: Namespace, image: set<Address>)
    ensures Bare(Nothing())
    ensures Succeeds(Nothing(), StepOne(Nothing(), None, Plan(ns, 0, image, [])), {}, {})
  {
    NothingIsBare();
    var s, plan, pending := Nothing(), Plan(ns, 0, image, []), [None];
    var t := Resolved(s, plan[0]).0;
    assert pending[1..] + AddedTasks(plan[0], 0) == [];
    assert StepOne(s, None, plan) == Expanded(t, [] + [Task(None, 0)], [], None, plan, 1);
  }
}
