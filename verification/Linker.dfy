/**
  The loader: opening and closing libraries, and the dso-handle reference counters.

  All entry points hold the loader lock, so the loader is a sequential object. Every method keeps the
  invariant of module `Soinfo`, for whatever files the program opens and whatever fails on the way.
 */
module Linker {
  import opened Basics
  import opened Soinfo
  import opened Peeling
  import opened Teardown
  import opened Leftovers
  import opened Unloading
  import opened References
  import opened Groups
  import opened Opening
  import opened Plans
  import opened FindLibraries
  import opened FailedOpen

  /** Between two calls no group is loaded without need, what failed calls have left behind holds each other, and only
      counters above zero are kept. */
  ghost predicate Settled(s: State)
  {
    AllUsed(s) && Knotted(s) && s.exe in s.linked && forall h :: h in s.dso ==> s.dso[h] > 0
  }

  /** The state between two calls of the program. */
  ghost predicate Rests(s: State, log: seq<TornDown>)
  {
    Books(s, [], log) && Settled(s)
  }

  /** What does not concern groups keeps what hangs together. */
  lemma StillKnotted(s: State, t: State)
    requires Knotted(s) && SameGroups(s, t)
    ensures Knotted(t)
  {
    TidySame(s, t);
  }

  // ---------------------------------------------------------------------------------
  // A successful open
  // ---------------------------------------------------------------------------------

  /** There is one more open handle, on `l`. */
  ghost predicate OneMore(s0: State, s: State, l: Lib)
  {
    forall m :: m in s.live ==>
      m in s.opens && s.opens[m] == (if m in s0.live && m in s0.opens then s0.opens[m] else 0) + if m == l then 1 else 0
  }

  /** The new libraries have been added, and nothing that was there has changed but reference counts. */
  ghost predicate Extended(s0: State, s: State)
  {
    && Grew(s0.live, s0.next, s.live, s.next) && s.dso == s0.dso && s.exe == s0.exe
    && Kept(s0.live, s0.opens, s.opens) && Idle(s.opens, s0.next, s.next)
    && Kept(s0.linked, s0.groupRoot, s.groupRoot) && s0.linked <= s.linked
  }

  lemma ExtendedNow(s0: State, s1: State, s: State)
    requires Domains(s0) && Added(s0, s1) && OldKept(s0, s1) && Joined(s0, s1, s)
    ensures Extended(s0, s)
  {
    AddedGrew(s0, s1);
  }

  lemma OpenUsed(s: State, l: Lib)
    requires l in s.opens && l in s.groupRoot && s.groupRoot[l] in s.refs && UsedBut(s, s.groupRoot[l])
    ensures AllUsed(OpenHandle(s, l))
  {
    forall r ensures !Unused(OpenHandle(s, l), r) {
      assert Unused(OpenHandle(s, l), r) ==> Unused(s, r);
    }
  }

  lemma OneOpened(s0: State, s: State, l: Lib)
    requires Domains(s0) && Extended(s0, s)
    requires (forall m :: m in s.live ==> m < s.next) && l in s.opens && l in s.groupRoot && s.groupRoot[l] in s.refs
    ensures OneMore(s0, OpenHandle(s, l), l)
  {
  }

  lemma OpensSettled(s0: State, s: State, l: Lib)
    requires Settled(s0) && Extended(s0, s) && Knotted(s)
    requires l in s.opens && l in s.groupRoot && s.groupRoot[l] in s.refs && UsedBut(s, s.groupRoot[l])
    ensures Settled(OpenHandle(s, l))
  {
    OpenUsed(s, l);
    StillKnotted(s, OpenHandle(s, l));
  }

  lemma OpensBooks(s0: State, s: State, l: Lib, log: seq<TornDown>)
    requires History(log, s0.live, s0.next) && Inv(s, []) && Grew(s0.live, s0.next, s.live, s.next)
    requires l in s.linked && s.groupRoot[l] in s.live
    ensures Books(OpenHandle(s, l), [], log)
  {
    OpenHandleInv(s, l);
    HistoryMore(log, s0.live, s0.next, s.live, s.next);
  }

  /** The root of the library that was asked for is gone exactly if the library is a leftover. */
  lemma FirstDangles(s0: State, x: Expansion, startWith: Option<Lib>, s: State)
    requires Domains(s0) && Started(s0, x, startWith) && Joined(s0, x.s, s) && x.tasks != [] && x.tasks[0].si in s.linked
    ensures x.tasks[0].si in s.groupRoot
    ensures s.groupRoot[x.tasks[0].si] in s.live <==> !Stray(s0, x.tasks[0].si)
  {
  }

  lemma VerdictFromFirst(s0: State, startWith: Option<Lib>, env: Environment)
    requires Verdict(s0, startWith, env, 1).Opened? && StepOne(s0, startWith, env.plan).tasks != []
    ensures Verdict(s0, startWith, env, 0) == if Stray(s0, StepOne(s0, startWith, env.plan).tasks[0].si) then Dangling else Opened
  {
    var tasks := StepOne(s0, startWith, env.plan).tasks;
    assert MeetsStray(s0, tasks, 0) <==> MeetsStray(s0, tasks, 1) || Stray(s0, tasks[0].si);
  }

  lemma VerdictSame(s0: State, startWith: Option<Lib>, env: Environment)
    requires !Verdict(s0, startWith, env, 1).Opened?
    ensures Verdict(s0, startWith, env, 0) == Verdict(s0, startWith, env, 1)
  {
    var tasks := StepOne(s0, startWith, env.plan).tasks;
    assert MeetsStray(s0, tasks, 1) ==> MeetsStray(s0, tasks, 0);
  }

  /** Nothing but what linking and handles change is different. */
  ghost predicate OnlyLinked(s1: State, s: State)
  {
    s == s1.(linked := s.linked, groupRoot := s.groupRoot, refs := s.refs, opens := s.opens)
  }

  /** The end of `find_library`: the handle is counted. */
  method Finish(s0: State, ghost startWith: Option<Lib>, ghost x: Expansion, s1: State, first: Lib, ghost log: seq<TornDown>)
    returns (dangling: bool, s: State)
    requires Rests(s0, log) && Started(s0, x, startWith) && x.tasks != [] && x.tasks[0].si == first
    requires Joined(s0, x.s, s1) && Inv(s1, []) && first in s1.linked && UsedBut(s1, s1.groupRoot[first])
    ensures !dangling ==> OnlyLinked(x.s, s) && s.groupRoot == s1.groupRoot
    ensures dangling <==> Stray(s0, first)
    ensures !dangling ==> Rests(s, log) && Neat(s0, log, s, log) && OneMore(s0, s, first) && first in s.linked
    ensures !dangling ==> Extended(s0, s1) && s == OpenHandle(s1, first)
  {
    FirstDangles(s0, x, startWith, s1);
    ExtendedNow(s0, x.s, s1);
    JoinedTidily(s0, x.s, s1);
    dangling, s := s1.groupRoot[first] !in s1.live, s1;
    if !dangling {
      s := OpenHandle(s1, first);
      OpensSettled(s0, s1, first);
      OpensBooks(s0, s1, first, log);
      OneOpened(s0, s1, first);
      TidySame(s1, s);
      TidyTwice(s0, s1, s, true, true);
      NoneAdded(log);
    }
  }

  // ---------------------------------------------------------------------------------
  // A failed open
  // ---------------------------------------------------------------------------------

  /** Every library that was linked is as it was, with its group, its count and its handles, and no other is linked. */
  ghost predicate Restored(s0: State, s: State)
  {
    && (forall l :: l in s.linked <==> l in s0.linked)
    && Kept(s0.linked, s0.groupRoot, s.groupRoot) && Kept(s0.linked, s0.refs, s.refs) && Kept(s0.linked, s0.opens, s.opens)
  }

  lemma KeptTwice<V>(live: set<Lib>, libs: set<Lib>, a: map<Lib, V>, b: map<Lib, V>, c: map<Lib, V>)
    requires Kept(live, a, b) && libs <= live && forall l :: l in libs ==> l in c && (l in b ==> c[l] == b[l])
    ensures Kept(libs, a, c)
  {
  }

  lemma RestoredNow(s0: State, s1: State, s2: State, s: State)
    requires s0.linked <= s0.live && s0.linked <= s0.groupRoot.Keys && Added(s0, s1) && OldKept(s0, s1) && Unlinked(s1, s2)
    requires s.refs.Keys == s.live && s.opens.Keys == s.live && s.linked <= s.live
    requires Shrunk(s2, s) && SameRefs(s2, s) && forall l :: l in s2.linked ==> l in s.linked
    ensures Restored(s0, s) && s.dso == s0.dso && (s0.exe in s0.linked ==> s.exe in s.linked)
  {
    KeptTwice(s0.live, s0.linked, s0.refs, s1.refs, s.refs);
    KeptTwice(s0.live, s0.linked, s0.opens, s1.opens, s.opens);
  }

  lemma FailedBooks(s0: State, s1: State, s: State, log: seq<TornDown>)
    requires History(log, s0.live, s0.next) && Added(s0, s1) && Inv(s1, []) && AllUsed(s1) && Unlinked(s1, s)
    ensures Books(s, [], log) && AllUsed(s)
  {
    UnlinkedRoots(s1, s.groupRoot);
    UnlinkedRootsUsed(s1, s.groupRoot);
    AddedGrew(s0, s1);
    HistoryMore(log, s0.live, s0.next, s.live, s.next);
  }

  /** What is on record about the teardown. */
  lemma Recorded(s1: State, f: Lib, s: State, log0: seq<TornDown>, log: seq<TornDown>)
    requires (forall i :: 0 <= i < |log| ==> Safe(log[i])) && Began(log0, log, s1, [], f) && TookLoose(s1, log0, s, log)
    requires s.parents.Keys == s.live
    ensures TakenLoose(s1, f, log[|log0|].order, s)
    ensures AllWhole(log, |log0|) <==> Whole(s1, f)
  {
    SafeOrder(log[|log0|]);
    OnlyEntry(log, |log0|);
  }

  lemma SafeOrder(e: TornDown)
    requires Safe(e)
    ensures GroupOf(e.before, e.root).Valid() && PeelOrder(GroupOf(e.before, e.root), e.order)
  {
  }

  lemma OnlyEntry(log: seq<TornDown>, n: nat)
    requires |log| == n + 1
    ensures AllWhole(log, n) <==> Whole(log[n].before, log[n].root)
  {
  }

  lemma UndoneWell(s0: State, s1: State, f: Lib, s: State, log0: seq<TornDown>, log: seq<TornDown>)
    requires |log0| < |log| && Knotted(s0) && Attempted(s0, s1, f) && TakenLoose(s1, f, log[|log0|].order, s)
    requires Extends(log0, log) && (AllWhole(log, |log0|) <==> Whole(s1, f))
    ensures Neat(s0, log0, s, log) && Knotted(s)
    ensures Clean(s0) ==> (s.live == s0.live <==> NoRootlessCycle(GroupOf(s1, f)))
  {
    UndoneTidily(s0, s1, f, log[|log0|].order, s);
    if Clean(s0) {
      UndoneExactly(s0, s1, f, log[|log0|].order, s);
    }
  }

  /** The failure path of `find_library`: the library that was asked for is unloaded. */
  method Undo(ghost s0: State, s1: State, f: Lib, ghost log0: seq<TornDown>) returns (s: State, ghost log: seq<TornDown>)
    requires Knotted(s0) && Attempted(s0, s1, f) && Books(s1, [], log0) && AllUsed(s1)
    ensures Books(s, [], log) && AllUsed(s) && Knotted(s)
    ensures Neat(s0, log0, s, log) && f !in s.live && TookLoose(s1, log0, s, log)
    ensures Clean(s0) ==> (s.live == s0.live <==> NoRootlessCycle(GroupOf(s1, f)))
  {
    s, log := SoinfoUnload(s1, f, [], log0);
    UndoneBooks(s0, s1, f, s, log0, log);
  }

  lemma UndoneBooks(s0: State, s1: State, f: Lib, s: State, log0: seq<TornDown>, log: seq<TornDown>)
    requires Knotted(s0) && Attempted(s0, s1, f) && s.parents.Keys == s.live && Extends(log0, log)
    requires (forall i :: 0 <= i < |log| ==> Safe(log[i])) && Began(log0, log, s1, [], f) && TookLoose(s1, log0, s, log)
    ensures Neat(s0, log0, s, log) && Knotted(s)
    ensures Clean(s0) ==> (s.live == s0.live <==> NoRootlessCycle(GroupOf(s1, f)))
  {
    Recorded(s1, f, s, log0, log);
    UndoneWell(s0, s1, f, s, log0, log);
  }

  // ---------------------------------------------------------------------------------
  // Opening and closing
  // ---------------------------------------------------------------------------------

  /** What an open has done. */
  ghost predicate OpenDone(s0: State, log0: seq<TornDown>, ns: Namespace, caller: Option<Lib>, plan: seq<Resolution>, x: Expansion,
                           out: Outcome, handle: Option<Lib>, s: State, log: seq<TornDown>)
  {
    match out
    case Opened =>
      && Rests(s, log) && Neat(s0, log0, s, log) && log == log0
      && x.tasks != [] && handle == Some(x.tasks[0].si) && handle.value in s.linked
      && OneMore(s0, s, handle.value) && OnlyLinked(x.s, s)
      && Planned(s0, s, plan, |x.tasks|) && handle == Some(Target(plan, s0.next, 0)) && LinkedAs(s0, x, ns, caller, s.groupRoot)
    case Failed =>
      && Rests(s, log) && Neat(s0, log0, s, log) && handle.None? && Restored(s0, s)
      && (Clean(s0) ==> (s.live == s0.live <==> Untangled(x)))
    case Aborted => handle.None?
    case Dangling => handle.None?
  }

  /** `do_dlopen`, from the point where flags and names have been dealt with. */
  method OpenIn(s0: State, ns: Namespace, caller: Option<Lib>, env: Environment, ghost log0: seq<TornDown>)
    returns (out: Outcome, handle: Option<Lib>, s: State, ghost log: seq<TornDown>)
    requires Rests(s0, log0) && (caller.Some? ==> caller.value in s0.live)
    ensures out == Verdict(s0, caller, env, 0)
    ensures OpenDone(s0, log0, ns, caller, env.plan, StepOne(s0, caller, env.plan), out, handle, s, log)
  {
    var s1, first;
    out, s1, first := FindLibraries.FindLibraries(s0, ns, caller, env);
    ghost var x := StepOne(s0, caller, env.plan);
    handle, s, log := None, s1, log0;
    if out.Opened? {
      StepOneStarted(s0, caller, env.plan);
      VerdictFromFirst(s0, caller, env);
      var dangling;
      dangling, s := Finish(s0, caller, x, s1, first.value, log0);
      if dangling {
        out := Dangling;
      } else {
        handle := first;
        StepOnePlanned(s0, caller, env.plan);
        StillPlanned(s0, x.s, s, env.plan, |x.tasks|);
      }
    } else {
      VerdictSame(s0, caller, env);
      if out.Failed? {
        s, log := Failure(s0, caller, env.plan, s1, first, log0);
      }
    }
  }

  method Failure(s0: State, ghost startWith: Option<Lib>, ghost plan: seq<Resolution>, s1: State, first: Option<Lib>, ghost log0: seq<TornDown>)
    returns (s: State, ghost log: seq<TornDown>)
    requires Rests(s0, log0) && (startWith.Some? ==> startWith.value < s0.next)
    requires Unlinked(StepOne(s0, startWith, plan).s, s1) && (first.None? ==> s1 == s0)
    requires var x := StepOne(s0, startWith, plan); first == if x.tasks == [] then None else Some(x.tasks[0].si)
    requires var x := StepOne(s0, startWith, plan); first.Some? ==> New(s0, x.s, first.value)
    ensures Rests(s, log) && Neat(s0, log0, s, log) && Restored(s0, s)
    ensures Clean(s0) ==> (s.live == s0.live <==> Untangled(StepOne(s0, startWith, plan)))
  {
    ghost var x := StepOne(s0, startWith, plan);
    s, log := s1, log0;
    if first.Some? {
      AttemptFails(s0, startWith, plan, s1, first.value, log0);
      s, log := Undo(s0, s1, first.value, log0);
      StepOneStarted(s0, startWith, plan);
      RestoredNow(s0, x.s, s1, s);
      SameGroup(x.s, s1, first.value);
    } else {
      NeatSame(s0, s1, log0);
    }
  }

  lemma AttemptFails(s0: State, startWith: Option<Lib>, plan: seq<Resolution>, s1: State, f: Lib, log: seq<TornDown>)
    requires Rests(s0, log) && (startWith.Some? ==> startWith.value < s0.next)
    requires Unlinked(StepOne(s0, startWith, plan).s, s1)
    requires StepOne(s0, startWith, plan).tasks != [] && StepOne(s0, startWith, plan).tasks[0].si == f && New(s0, StepOne(s0, startWith, plan).s, f)
    ensures Attempted(s0, s1, f) && Books(s1, [], log) && AllUsed(s1)
  {
    var x := StepOne(s0, startWith, plan);
    StepOneStarted(s0, startWith, plan);
    StepOneInv(s0, startWith, plan);
    LoadedUsed(s0, x.s);
    FailedBooks(s0, x.s, s1, log);
    AttemptedNow(s0, x, startWith, s1);
  }

  /** A loader without leftovers never aborts. */
  lemma CleanOpens(s0: State, startWith: Option<Lib>, env: Environment)
    requires Clean(s0)
    ensures Verdict(s0, startWith, env, 0).Opened? || Verdict(s0, startWith, env, 0).Failed?
  {
    var x := StepOne(s0, startWith, env.plan);
    forall k | 0 <= k < |x.tasks| ensures !Loose(s0, x.tasks[k].si) {
      assert !Stray(s0, x.tasks[k].si);
    }
  }

  /** The program opens a library that is loaded already. */
  ghost predicate Reopens(s: State, env: Environment)
  {
    env.plan != [] && env.plan[0].Found? && env.plan[0].lib in s.live
  }

  /** A library that is loaded already is opened unless it is a leftover. */
  lemma Reopened(s0: State, startWith: Option<Lib>, env: Environment)
    requires Domains(s0) && (startWith.Some? ==> startWith.value < s0.next) && Reopens(s0, env)
    ensures StepOne(s0, startWith, env.plan) == Expansion(true, s0, [Task(startWith, env.plan[0].lib)])
    ensures Verdict(s0, startWith, env, 0) ==
            if Loose(s0, env.plan[0].lib) then Aborted else if Stray(s0, env.plan[0].lib) then Dangling else Opened
  {
    StepOneStarted(s0, startWith, env.plan);
    FirstTask(s0, startWith, env.plan);
    var tasks := StepOne(s0, startWith, env.plan).tasks;
    assert tasks[0].si == env.plan[0].lib;
    assert MeetsLoose(s0, tasks) <==> Loose(s0, env.plan[0].lib);
    assert MeetsStray(s0, tasks, 0) <==> Stray(s0, env.plan[0].lib);
  }

  /** A handle is given back, or it is not valid, or it is given back more often than it was opened. */
  datatype Closing = Closed | Invalid | Overclosed

  /** Handles that were given back, but whose references are still counted, make no group unused. */
  lemma SameUse(s: State, t: State)
    requires Settled(s) && t == s.(opens := t.opens, dso := t.dso)
    ensures AllUsed(t) && Knotted(t) && t.exe in t.linked && SameGroups(s, t)
  {
    forall r ensures !Unused(t, r) {
      assert Unused(t, r) ==> Unused(s, r);
    }
    StillKnotted(s, t);
  }

  /** The reference on `l` has been given back: if it was the last, the group is gone, and its teardown is on record;
      if not, the count is one less and nothing else has changed. */
  ghost predicate Released(s0: State, l: Lib, log0: seq<TornDown>, s: State, log: seq<TornDown>)
  {
    && Shrunk(s0, s)
    && if Last(s0, l) then RootOf(s0, l) !in s.live && Began(log0, log, GivenBack(s0, l), [], RootOf(s0, l))
       else s == GivenBack(s0, l) && log == log0
  }

  /** A reference that is pending is given back. */
  method GiveUp(s0: State, l: Lib, ghost log0: seq<TornDown>) returns (s: State, ghost log: seq<TornDown>)
    requires Books(s0, [l], log0) && AllUsed(s0) && Knotted(s0) && s0.exe in s0.linked
    ensures Books(s, [], log) && AllUsed(s) && Knotted(s) && s.exe in s.linked
    ensures Neat(s0, log0, s, log) && Released(s0, l, log0, s, log)
  {
    s, log := GiveBack(s0, l, log0);
  }

  lemma Closes(s: State, l: Lib, log: seq<TornDown>)
    requires Rests(s, log) && l in s.live && s.opens[l] > 0
    ensures Books(CloseHandle(s, l), [l], log) && AllUsed(CloseHandle(s, l)) && Knotted(CloseHandle(s, l))
    ensures s.exe in CloseHandle(s, l).linked && Neat(s, log, CloseHandle(s, l), log)
  {
    CloseHandleInv(s, l);
    SameUse(s, CloseHandle(s, l));
    NeatSame(s, CloseHandle(s, l), log);
  }

  /** What a close has done. */
  ghost predicate CloseDone(s0: State, handle: Lib, log0: seq<TornDown>, out: Closing, s: State, log: seq<TornDown>)
  {
    match out
    case Invalid => handle !in s0.live && s == s0 && log == log0
    case Overclosed => handle in s0.live && handle in s0.opens && s0.opens[handle] == 0 && s == s0 && log == log0
    case Closed =>
      && handle in s0.live && handle in s0.opens && s0.opens[handle] > 0
      && Rests(s, log) && Neat(s0, log0, s, log) && Released(CloseHandle(s0, handle), handle, log0, s, log)
  }

  /** `do_dlclose`. What it does with a handle that is closed once too often is told by `OneTooMany`. */
  method CloseIn(s0: State, handle: Lib, ghost log0: seq<TornDown>) returns (out: Closing, s: State, ghost log: seq<TornDown>)
    requires Rests(s0, log0)
    ensures CloseDone(s0, handle, log0, out, s, log)
  {
    s, log := s0, log0;
    if handle in s0.live && s0.opens[handle] > 0 {
      Closes(s0, handle, log0);
      s, log := GiveUp(CloseHandle(s0, handle), handle, log0);
      NeatTwice(s0, log0, CloseHandle(s0, handle), log0, s, log);
      out := Closed;
    } else {
      out := if handle in s0.live then Overclosed else Invalid;
    }
  }

  /** A close without an open takes a reference away that something else holds: the accounts are wrong from then on. */
  lemma OneTooMany(s: State, r: Lib)
    requires Accounts(s, []) && r in s.live && r in s.refs && s.refs[r] > 0
    ensures !Accounts(Decremented(s, r), [])
  {
    assert Balanced(s, [], r);
    HeldSame(s, Decremented(s, r), r, s.next);
    assert !Balanced(Decremented(s, r), [], r);
  }

  // ---------------------------------------------------------------------------------
  // Reference counters of dso-handles
  // ---------------------------------------------------------------------------------

  /** The counters are `size_t`. */
  const MAX_COUNTER := 0x1_0000_0000_0000_0000

  lemma Unique(s: State, h: Address, l: Lib)
    requires Domains(s) && HandlesOwned(s) && l in s.live && h in s.image[l]
    ensures forall m :: m in s.live && h in s.image[m] ==> m == l
  {
  }

  /** `find_containing_library`. */
  method FindContaining(s: State, h: Address) returns (found: Option<Lib>)
    requires Domains(s) && HandlesOwned(s)
    ensures found.None? <==> forall l :: l in s.live ==> h !in s.image[l]
    ensures found.Some? ==> found.value in s.live && h in s.image[found.value]
    ensures found.Some? ==> forall m :: m in s.live && h in s.image[m] ==> m == found.value
  {
    found := None;
    if l :| l in s.live && h in s.image[l] {
      Unique(s, h, l);
      found := Some(l);
    }
  }

  /** How taking a reference ends: `Fatal` stands for a failed CHECK or an address of no library, `Unrooted` for the use of a
      group root that was freed or never set. */
  datatype Counting = Taken | Fatal | Unrooted

  /** The counters after one more reference on `h`. */
  function More(dso: map<Address, nat>, h: Address): map<Address, nat> {
    dso[h := if h in dso then dso[h] + 1 else 1]
  }

  ghost predicate Contained(s: State, h: Address, l: Lib)
  {
    l in s.live && l in s.image && h in s.image[l]
  }

  /** The outcome, as it can be told before the call. */
  ghost function DsoVerdict(s: State, h: Address): Counting
  {
    if h == 0 then Taken
    else if h in s.dso then if s.dso[h] + 1 >= 0x1_0000_0000_0000_0000 then Fatal else Taken
    else if forall l :: !Contained(s, h, l) then Fatal
    else if exists l :: Contained(s, h, l) && Stray(s, l) then Unrooted
    else Taken
  }

  /** Nothing but counters and reference counts has changed. */
  ghost predicate OnlyCounts(s0: State, s: State)
  {
    s == s0.(dso := s.dso, refs := s.refs)
  }

  lemma RecountedSettled(s: State, h: Address, n: nat)
    requires Settled(s) && n > 0
    ensures Settled(s.(dso := s.dso[h := n])) && SameGroups(s, s.(dso := s.dso[h := n]))
  {
    SameUse(s, s.(dso := s.dso[h := n]));
  }

  /** The counter of `h` is `n` now, and nothing else has changed. */
  ghost predicate Counter(s0: State, s: State, h: Address, n: nat)
  {
    OnlyCounts(s0, s) && s.refs == s0.refs && s.dso == s0.dso[h := n]
  }

  /** A counter that stays above zero makes no difference. */
  method Recount(s0: State, h: Address, n: nat, ghost log: seq<TornDown>) returns (s: State)
    requires Rests(s0, log) && h in s0.dso && n > 0
    ensures Rests(s, log) && SameGroups(s0, s) && Counter(s0, s, h, n)
  {
    CountersInv(s0, s0.dso[h := n], []);
    RecountedSettled(s0, h, n);
    s := s0.(dso := s0.dso[h := n]);
  }

  lemma StartUsed(s: State, h: Address, l: Lib)
    requires l in s.groupRoot && s.groupRoot[l] in s.refs && AllUsed(s)
    ensures AllUsed(StartHandle(s, h, l))
  {
    forall r ensures !Unused(StartHandle(s, h, l), r) {
      assert Unused(StartHandle(s, h, l), r) ==> Unused(s, r);
    }
  }

  lemma StartSettled(s: State, h: Address, l: Lib)
    requires l in s.groupRoot && s.groupRoot[l] in s.refs && Settled(s)
    ensures Settled(StartHandle(s, h, l)) && SameGroups(s, StartHandle(s, h, l))
  {
    StartUsed(s, h, l);
    StillKnotted(s, StartHandle(s, h, l));
  }

  lemma StartBooks(s: State, h: Address, l: Lib, log: seq<TornDown>)
    requires Books(s, [], log) && h !in s.dso && l in s.linked && h in s.image[l] && s.groupRoot[l] in s.live
    ensures Books(StartHandle(s, h, l), [], log)
  {
    StartHandleInv(s, h, l);
  }

  method FirstDso(s0: State, h: Address, ghost log: seq<TornDown>) returns (out: Counting, s: State)
    requires Rests(s0, log) && h != 0 && h !in s0.dso
    ensures out == DsoVerdict(s0, h)
    ensures if out.Taken? then Rests(s, log) && OnlyCounts(s0, s) && SameGroups(s0, s) && s.dso == More(s0.dso, h) else s == s0
  {
    var found := FindContaining(s0, h);
    s := s0;
    ContainedIn(s0, h, found);
    if found.None? {
      out := Fatal;
    } else if found.value !in s0.linked || s0.groupRoot[found.value] !in s0.live {
      out := Unrooted;
    } else {
      StartBooks(s0, h, found.value, log);
      StartSettled(s0, h, found.value);
      out, s := Taken, StartHandle(s0, h, found.value);
    }
  }

  lemma ContainedIn(s: State, h: Address, found: Option<Lib>)
    requires Domains(s) && h != 0 && h !in s.dso
    requires found.None? <==> forall l :: l in s.live ==> h !in s.image[l]
    requires found.Some? ==> found.value in s.live && h in s.image[found.value]
    requires found.Some? ==> forall m :: m in s.live && h in s.image[m] ==> m == found.value
    ensures DsoVerdict(s, h) == if found.None? then Fatal else if Stray(s, found.value) then Unrooted else Taken
  {
    if found.Some? {
      assert Contained(s, h, found.value);
    }
  }

  lemma NextVerdict(s: State, h: Address)
    requires h != 0 && h in s.dso
    ensures DsoVerdict(s, h) == if s.dso[h] + 1 < MAX_COUNTER then Taken else Fatal
    ensures More(s.dso, h) == s.dso[h := s.dso[h] + 1]
  {
  }

  method NextDso(s0: State, h: Address, ghost log: seq<TornDown>) returns (out: Counting, s: State)
    requires Rests(s0, log) && h != 0 && h in s0.dso
    ensures out == DsoVerdict(s0, h)
    ensures if out.Taken? then Rests(s, log) && OnlyCounts(s0, s) && SameGroups(s0, s) && s.dso == More(s0.dso, h) else s == s0
  {
    out, s := Fatal, s0;
    NextVerdict(s0, h);
    if s0.dso[h] + 1 < MAX_COUNTER {
      s := Recount(s0, h, s0.dso[h] + 1, log);
      out := Taken;
    }
  }

  /** What taking a reference on a dso-handle has done. */
  ghost predicate AddDone(s0: State, h: Address, out: Counting, s: State, log: seq<TornDown>)
  {
    match out
    case Taken =>
      && Rests(s, log) && Neat(s0, log, s, log)
      && if h == 0 then s == s0 else OnlyCounts(s0, s) && s.dso == More(s0.dso, h)
    case Fatal => s == s0
    case Unrooted => s == s0
  }

  /** `increment_dso_handle_reference_counter`. */
  method AddDsoIn(s0: State, h: Address, ghost log: seq<TornDown>) returns (out: Counting, s: State)
    requires Rests(s0, log)
    ensures out == DsoVerdict(s0, h) && AddDone(s0, h, out, s, log)
  {
    out, s := Taken, s0;
    if h != 0 {
      if h in s0.dso {
        out, s := NextDso(s0, h, log);
      } else {
        out, s := FirstDso(s0, h, log);
      }
    }
    if out.Taken? {
      NeatSame(s0, s, log);
    }
  }

  lemma Stops(s: State, h: Address, l: Lib, log: seq<TornDown>)
    requires Rests(s, log) && h in s.dso && l in s.linked && h in s.image[l]
    ensures Books(StopHandle(s, h), [l], log) && AllUsed(StopHandle(s, h)) && Knotted(StopHandle(s, h))
    ensures s.exe in StopHandle(s, h).linked && SameGroups(s, StopHandle(s, h))
  {
    StopHandleInv(s, h, l);
    SameUse(s, StopHandle(s, h));
  }

  lemma Erased(s0: State, s: State, h: Address, log: seq<TornDown>)
    requires h in s0.dso && (forall g :: g in s0.dso ==> s0.dso[g] > 0) && s.dso == s0.dso[h := 0]
    requires Books(s, [], log) && AllUsed(s) && Knotted(s) && s.exe in s.linked
    ensures Rests(s.(dso := s0.dso - {h}), log) && SameGroups(s, s.(dso := s0.dso - {h}))
  {
    var t := s.(dso := s0.dso - {h});
    CountersInv(s, s0.dso - {h}, []);
    StillKnotted(s, t);
    forall r ensures !Unused(t, r) {
      assert Unused(t, r) ==> Unused(s, r);
    }
  }

  /** The last reference on the dso-handle `h`, in library `l`, has been given back and its counter erased: if it was the
      last on the group, the group is gone, and its teardown is on record. */
  ghost predicate Dropped(s0: State, h: Address, l: Lib, log0: seq<TornDown>, s: State, log: seq<TornDown>)
  {
    && Shrunk(s0.(dso := s0.dso - {h}), s)
    && if Last(s0, l) then RootOf(s0, l) !in s.live && Began(log0, log, GivenBack(StopHandle(s0, h), l), [], RootOf(s0, l))
       else OnlyCounts(s0, s) && s.refs == GivenBack(s0, l).refs && log == log0
  }

  lemma GivenBackAnyway(s: State, h: Address, l: Lib)
    ensures GivenBack(StopHandle(s, h), l).refs == GivenBack(s, l).refs && OnlyCounts(s, GivenBack(StopHandle(s, h), l))
  {
  }

  lemma DroppedNow(s0: State, h: Address, l: Lib, log0: seq<TornDown>, t: State, log: seq<TornDown>)
    requires Released(StopHandle(s0, h), l, log0, t, log)
    ensures Dropped(s0, h, l, log0, t.(dso := s0.dso - {h}), log)
  {
    GivenBackAnyway(s0, h, l);
  }

  lemma Forgotten(dso: map<Address, nat>, h: Address)
    ensures dso[h := 0] - {h} == dso - {h}
  {
  }

  /** The last reference on a dso-handle is given back, and then the counter is erased. */
  method DropDso(s0: State, h: Address, ghost log0: seq<TornDown>) returns (s: State, ghost log: seq<TornDown>)
    requires Rests(s0, log0) && h in s0.dso
    ensures Rests(s, log) && Neat(s0, log0, s, log)
    ensures forall l :: Contained(s0, h, l) ==> Dropped(s0, h, l, log0, s, log)
  {
    OwnerFound(s0, h);
    var found := FindContaining(s0, h);
    Stops(s0, h, found.value, log0);
    NeatSame(s0, StopHandle(s0, h), log0);
    var t;
    t, log := GiveUp(StopHandle(s0, h), found.value, log0);
    NeatTwice(s0, log0, StopHandle(s0, h), log0, t, log);
    Forgotten(s0.dso, h);
    Erased(s0, t, h, log);
    DroppedNow(s0, h, found.value, log0, t, log);
    s := t.(dso := t.dso - {h});
    NeatSame(t, s, log);
    NeatTwice(s0, log0, t, log, s, log);
  }

  /** How giving a reference back ends: `Unknown` stands for a failed CHECK. */
  datatype Giving = Given | Unknown

  /** What giving a reference on a dso-handle back has done. */
  ghost predicate RemoveDone(s0: State, h: Address, log0: seq<TornDown>, out: Giving, s: State, log: seq<TornDown>)
  {
    match out
    case Unknown => h != 0 && h !in s0.dso && s == s0 && log == log0
    case Given =>
      && Rests(s, log) && Neat(s0, log0, s, log)
      && if h == 0 then s == s0 && log == log0
         else if h !in s0.dso then false
         else if s0.dso[h] > 1 then Counter(s0, s, h, s0.dso[h] - 1) && log == log0
         else forall l :: Contained(s0, h, l) ==> Dropped(s0, h, l, log0, s, log)
  }

  /** `decrement_dso_handle_reference_counter`. */
  method RemoveDsoIn(s0: State, h: Address, ghost log0: seq<TornDown>) returns (out: Giving, s: State, ghost log: seq<TornDown>)
    requires Rests(s0, log0)
    ensures RemoveDone(s0, h, log0, out, s, log)
  {
    out, s, log := Given, s0, log0;
    if h == 0 {
      NeatSame(s0, s, log0);
    } else if h !in s0.dso {
      out := Unknown;
    } else if s0.dso[h] <= 1 {
      s, log := DropDso(s0, h, log0);
    } else {
      s := LessDso(s0, h, log0);
    }
  }

  method LessDso(s0: State, h: Address, ghost log: seq<TornDown>) returns (s: State)
    requires Rests(s0, log) && h in s0.dso && s0.dso[h] > 1
    ensures Rests(s, log) && Neat(s0, log, s, log) && Counter(s0, s, h, s0.dso[h] - 1)
  {
    var n := s0.dso[h] - 1;
    s := Recount(s0, h, n, log);
    NeatSame(s0, s, log);
  }

  // ---------------------------------------------------------------------------------
  // The loader
  // ---------------------------------------------------------------------------------

  datatype Command =
    | Dlopen(ns: Namespace, caller: Option<Lib>, env: Environment)
    | Dlclose(handle: Lib)
    | AddDso(h: Address)
    | RemoveDso(h: Address)
  {
    /** The caller of an open is the library that contains the return address, if there is one. */
    predicate Possible(s: State) {
      Dlopen? && caller.Some? ==> caller.value in s.live
    }
  }

  class Linker {
    var st: State
    ghost var log: seq<TornDown>

    ghost predicate Valid()
      reads this
    {
      Rests(st, log)
    }

    /** The state after the initial link. */
    constructor (initial: State)
      requires Rests(initial, [])
      ensures Valid() && st == initial && log == []
    {
      st, log := initial, [];
    }

    method Open(ns: Namespace, caller: Option<Lib>, env: Environment) returns (out: Outcome, handle: Option<Lib>)
      requires Valid() && (caller.Some? ==> caller.value in st.live)
      modifies this
      ensures out == Verdict(old(st), caller, env, 0)
      ensures OpenDone(old(st), old(log), ns, caller, env.plan, StepOne(old(st), caller, env.plan), out, handle, st, log)
    {
      var s0 := st;
      ghost var l0 := log;
      var s; ghost var l;
      out, handle, s, l := OpenIn(s0, ns, caller, env, l0);
      st, log := s, l;
    }

    method Close(handle: Lib) returns (out: Closing)
      requires Valid()
      modifies this
      ensures CloseDone(old(st), handle, old(log), out, st, log)
    {
      var s0 := st;
      ghost var l0 := log;
      var s; ghost var l;
      out, s, l := CloseIn(s0, handle, l0);
      st, log := s, l;
    }

    method IncrementDso(h: Address) returns (out: Counting)
      requires Valid()
      modifies this
      ensures out == DsoVerdict(old(st), h) && AddDone(old(st), h, out, st, log) && log == old(log)
    {
      var s0 := st;
      ghost var l0 := log;
      var s;
      out, s := AddDsoIn(s0, h, l0);
      st := s;
    }

    method DecrementDso(h: Address) returns (out: Giving)
      requires Valid()
      modifies this
      ensures RemoveDone(old(st), h, old(log), out, st, log)
    {
      var s0 := st;
      ghost var l0 := log;
      var s; ghost var l;
      out, s, l := RemoveDsoIn(s0, h, l0);
      st, log := s, l;
    }

    /** One call of the program. It goes on if nothing was aborted, and no handle was closed once too often. */
    method Do(c: Command) returns (on: bool)
      requires Valid() && c.Possible(st)
      modifies this
      ensures on ==> Valid() && Neat(old(st), old(log), st, log)
      ensures !on && c.Dlopen? ==> Verdict(old(st), c.caller, c.env, 0).Aborted? || Verdict(old(st), c.caller, c.env, 0).Dangling?
      ensures !on && c.Dlclose? ==> c.handle in old(st).live && c.handle in old(st).opens && old(st).opens[c.handle] == 0
      ensures !on && c.AddDso? ==> !DsoVerdict(old(st), c.h).Taken?
      ensures !on && c.RemoveDso? ==> c.h != 0 && c.h !in old(st).dso
    {
      match c {
        case Dlopen(ns, caller, env) =>
          var out, handle := Open(ns, caller, env);
          on := out.Opened? || out.Failed?;
        case Dlclose(handle) =>
          var out := Close(handle);
          on := !out.Overclosed?;
        case AddDso(h) =>
          var out := IncrementDso(h);
          on := out.Taken?;
        case RemoveDso(h) =>
          var out := DecrementDso(h);
          on := out.Given?;
      }
    }

    /** Any run of the program, as far as it goes: the invariant holds after every call, leftovers never go away, and if
        there were none at first there are none at the end exactly if every teardown took all that hung on its root. */
    method Run(commands: seq<Command>) returns (done: nat)
      requires Valid()
      modifies this
      ensures done <= |commands|
      ensures done == |commands| ==> Valid() && Neat(old(st), old(log), st, log)
      ensures done == |commands| && Clean(old(st)) ==> (Clean(st) <==> AllWhole(log, |old(log)|))
    {
      NeatSame(st, st, log);
      done := 0;
      while done < |commands|
        invariant done <= |commands| && Valid() && Neat(old(st), old(log), st, log)
      {
        if !commands[done].Possible(st) {
          return;
        }
        ghost var before, sofar := st, log;
        var on := Do(commands[done]);
        if !on {
          return;
        }
        NeatTwice(old(st), old(log), before, sofar, st, log);
        done := done + 1;
      }
    }
  }
}
