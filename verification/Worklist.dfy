/** Step 1 of `find_libraries`: tasks are resolved one by one, and a file that has to be loaded adds a task for
    everything it needs. */
module Worklist {

  type Namespace = nat

  /** A library in a file, perhaps at some offset of an archive. */
  datatype File = File(dev: nat, ino: nat, offset: nat, needed: seq<string>) {
    /** Such a file is never recognized. */
    predicate Nameless() {
      dev == 0 || ino == 0
    }
  }

  datatype Loaded = Loaded(ns: Namespace, file: File) {
    predicate Same(other: Loaded) {
      ns == other.ns && file.dev == other.file.dev && file.ino == other.file.ino && file.offset == other.file.offset
    }
  }

  /** `needed_by` is a position in the list of libraries. */
  datatype Task = Task(name: string, neededBy: nat, ns: Namespace)

  /** What the search for a name leads to: nothing, a library that is loaded, or a file to look at in a namespace. */
  datatype Answer = Missing | Found(lib: nat) | Opened(file: Loaded)

  type Search = (seq<Loaded>, Task) -> Answer

  datatype Work = Work(tasks: seq<Task>, i: nat, loaded: seq<Loaded>)

  predicate Seen(loaded: seq<Loaded>, l: Loaded) {
    exists k :: 0 <= k < |loaded| && loaded[k].Same(l)
  }

  /** The tasks for what a file needs. */
  function Needs(l: Loaded, at: nat): (r: seq<Task>)
    ensures |r| == |l.file.needed|
  {
    seq(|l.file.needed|, k requires 0 <= k < |l.file.needed| => Task(l.file.needed[k], at, l.ns))
  }

  /** `load_library`, from the point where the file is open. */
  predicate Recognized(loaded: seq<Loaded>, l: Loaded, forced: bool) {
    !forced && !l.file.Nameless() && Seen(loaded, l)
  }

  /** One round. The first `names` tasks are those of the caller, which can force a load. */
  function Step(search: Search, w: Work, names: nat, force: bool): Work
    requires w.i < |w.tasks|
  {
    match search(w.loaded, w.tasks[w.i])
    case Missing => w
    case Found(_) => w.(i := w.i + 1)
    case Opened(l) =>
      if Recognized(w.loaded, l, force && w.i < names) then w.(i := w.i + 1)
      else Work(w.tasks + Needs(l, |w.loaded|), w.i + 1, w.loaded + [l])
  }

  // ---------------------------------------------------------------------------------
  // Termination
  // ---------------------------------------------------------------------------------

  ghost predicate Within(search: Search, files: set<Loaded>)
  {
    forall loaded, task :: search(loaded, task).Opened? ==> search(loaded, task).file in files
  }

  /** What can still be loaded for the first time. */
  ghost function Unseen(files: set<Loaded>, loaded: seq<Loaded>): set<Loaded>
  {
    set l | l in files && !Seen(loaded, l)
  }

  lemma SeenMore(loaded: seq<Loaded>, l: Loaded, x: Loaded)
    ensures Seen(loaded + [l], x) <==> Seen(loaded, x) || l.Same(x)
  {
    var more := loaded + [l];
    assert more[|loaded|] == l;
    if k :| 0 <= k < |loaded| && loaded[k].Same(x) {
      assert more[k].Same(x);
    }
  }

  lemma UnseenShrinks(files: set<Loaded>, loaded: seq<Loaded>, l: Loaded)
    requires l in files
    ensures |Unseen(files, loaded + [l])| <= |Unseen(files, loaded)| - if Seen(loaded, l) then 0 else 1
  {
    forall x ensures Seen(loaded + [l], x) <==> Seen(loaded, x) || l.Same(x) {
      SeenMore(loaded, l, x);
    }
    var before, after := Unseen(files, loaded), Unseen(files, loaded + [l]);
    if Seen(loaded, l) {
      Smaller(after, before);
    } else {
      Smaller(after, before - {l});
    }
  }

  lemma Smaller(a: set<Loaded>, b: set<Loaded>)
    requires a <= b
    ensures |a| <= |b|
  {
    assert a + (b - a) == b;
  }

  /** A file that is not recognized adds no tasks. */
  ghost predicate Tame(files: set<Loaded>)
  {
    forall l :: l in files && l.file.Nameless() ==> l.file.needed == []
  }

  /** How many files can still be loaded, and tasks forced. */
  ghost function Budget(files: set<Loaded>, w: Work, names: nat): nat
  {
    |Unseen(files, w.loaded)| + if w.i < names then names - w.i else 0
  }

  /** Every round uses up some of the budget, or a task without adding one. */
  lemma Progress(search: Search, w: Work, names: nat, force: bool, files: set<Loaded>)
    requires w.i < |w.tasks| && Within(search, files) && Tame(files) && !search(w.loaded, w.tasks[w.i]).Missing?
    ensures var next := Step(search, w, names, force);
            && next.i == w.i + 1 && Budget(files, next, names) <= Budget(files, w, names)
            && (Budget(files, next, names) < Budget(files, w, names) || |next.tasks| == |w.tasks|)
  {
    match search(w.loaded, w.tasks[w.i])
    case Found(_) =>
    case Opened(l) =>
      assert search(w.loaded, w.tasks[w.i]).file in files;
      UnseenShrinks(files, w.loaded, l);
  }

  /** No library that comes after position `from` was loaded before. */
  ghost predicate Fresh(loaded: seq<Loaded>, from: nat)
  {
    forall a, b :: 0 <= a < b < |loaded| && from <= b && !loaded[b].file.Nameless() ==> !loaded[a].Same(loaded[b])
  }

  lemma FreshStep(loaded: seq<Loaded>, l: Loaded, from: nat)
    requires Fresh(loaded, from) && (|loaded| < from || l.file.Nameless() || !Seen(loaded, l))
    ensures Fresh(loaded + [l], from)
  {
    var more := loaded + [l];
    forall a, b | 0 <= a < b < |more| && from <= b && !more[b].file.Nameless() ensures !more[a].Same(more[b]) {
      assert more[a] == loaded[a];
    }
  }

  /** No more is loaded than there is, and what is forced. */
  ghost predicate Bounded(files: set<Loaded>, w: Work, start: nat, names: nat)
  {
    (forall l :: l in files ==> !l.file.Nameless()) ==> |w.loaded| + Budget(files, w, names) <= start + |files| + names
  }

  /** What the loop keeps. */
  ghost predicate Expanding(files: set<Loaded>, start: seq<Loaded>, w: Work, names: nat, force: bool)
  {
    && start <= w.loaded && |w.loaded| <= |start| + w.i && w.i <= |w.tasks|
    && Fresh(w.loaded, |start| + if force then names else 0) && Bounded(files, w, |start|, names)
  }

  lemma ExpandStep(search: Search, files: set<Loaded>, start: seq<Loaded>, w: Work, names: nat, force: bool)
    requires Expanding(files, start, w, names, force) && Within(search, files) && Tame(files)
    requires w.i < |w.tasks| && !search(w.loaded, w.tasks[w.i]).Missing?
    ensures Expanding(files, start, Step(search, w, names, force), names, force)
  {
    var from := |start| + if force then names else 0;
    Progress(search, w, names, force, files);
    match search(w.loaded, w.tasks[w.i])
    case Found(_) =>
    case Opened(l) =>
      assert search(w.loaded, w.tasks[w.i]).file in files;
      if !Recognized(w.loaded, l, force && w.i < names) {
        FreshStep(w.loaded, l, from);
        UnseenShrinks(files, w.loaded, l);
      }
  }

  // ---------------------------------------------------------------------------------
  // What has been done
  // ---------------------------------------------------------------------------------

  /** The caller's names come first. */
  ghost predicate AskedFirst(tasks: seq<Task>, names: seq<string>, ns: Namespace, caller: nat)
  {
    |names| <= |tasks| && forall k :: 0 <= k < |names| ==> tasks[k] == Task(names[k], caller, ns)
  }

  /** From position `at` on there is a task for everything that library `lib` needs, on its behalf and in its namespace. */
  ghost predicate AsksFor(tasks: seq<Task>, at: nat, loaded: seq<Loaded>, lib: nat)
    requires lib < |loaded|
  {
    && at + |loaded[lib].file.needed| <= |tasks|
    && forall k :: 0 <= k < |loaded[lib].file.needed| ==> tasks[at + k] == Task(loaded[lib].file.needed[k], lib, loaded[lib].ns)
  }

  /** The tasks are the caller's, and then, library by library, those for what the new ones need. `at` says where they
      begin. */
  ghost predicate Laid(w: Work, start: nat, names: nat, at: seq<nat>)
  {
    && at != [] && |at| + start == |w.loaded| + 1 && at[0] == names && at[|at| - 1] == |w.tasks|
    && forall j :: 0 <= j < |at| - 1 ==> AsksFor(w.tasks, at[j], w.loaded, start + j) && at[j + 1] == at[j] + |w.loaded[start + j].file.needed|
  }

  /** When library `n` was to come next, task `i` led to a library that is loaded, to a file that is the same as one that is
      loaded, or to library `n`. */
  ghost predicate SettledAt(search: Search, w: Work, i: nat, n: nat, forced: bool)
    requires i < |w.tasks| && n <= |w.loaded|
  {
    match search(w.loaded[..n], w.tasks[i])
    case Missing => false
    case Found(_) => true
    case Opened(l) =>
      if !forced && l.file.dev != 0 && l.file.ino != 0 && IsLoaded(w.loaded[..n], l) then true
      else n < |w.loaded| && w.loaded[n] == l
  }

  ghost predicate IsLoaded(loaded: seq<Loaded>, l: Loaded)
  {
    exists k :: 0 <= k < |loaded| && SameFile(loaded[k], l)
  }

  ghost predicate SameFile(a: Loaded, b: Loaded)
  {
    a.ns == b.ns && a.file.dev == b.file.dev && a.file.ino == b.file.ino && a.file.offset == b.file.offset
  }

  /** The tasks that are done were settled one after the other. `when` says how many libraries there were before each. */
  ghost predicate Settled(search: Search, w: Work, start: nat, names: nat, force: bool, when: seq<nat>)
  {
    && |when| == w.i <= |w.tasks| && start <= |w.loaded| && (forall i :: 0 <= i < w.i ==> start <= when[i] <= |w.loaded|)
    && (forall i, j :: 0 <= i < j < w.i ==> when[i] <= when[j])
    && forall i :: 0 <= i < w.i ==> SettledAt(search, w, i, when[i], force && i < names)
  }

  lemma LaidMore(w: Work, start: nat, names: nat, at: seq<nat>, l: Loaded)
    requires Laid(w, start, names, at) && start <= |w.loaded|
    ensures Laid(Work(w.tasks + Needs(l, |w.loaded|), w.i + 1, w.loaded + [l]), start, names, at + [|w.tasks| + |l.file.needed|])
  {
    var after := Work(w.tasks + Needs(l, |w.loaded|), w.i + 1, w.loaded + [l]);
    var more := at + [|w.tasks| + |l.file.needed|];
    forall j | 0 <= j < |more| - 1
      ensures AsksFor(after.tasks, more[j], after.loaded, start + j) && more[j + 1] == more[j] + |after.loaded[start + j].file.needed|
    {
      if j < |at| - 1 {
        assert AsksFor(w.tasks, at[j], w.loaded, start + j);
      }
    }
  }

  ghost predicate LaidOut(w: Work, names: seq<string>, ns: Namespace, caller: nat, start: nat, at: seq<nat>)
  {
    AskedFirst(w.tasks, names, ns, caller) && Laid(w, start, |names|, at)
  }

  lemma LaidStep(search: Search, w: Work, names: seq<string>, ns: Namespace, caller: nat, start: nat, force: bool, at: seq<nat>)
    returns (after: seq<nat>)
    requires LaidOut(w, names, ns, caller, start, at) && start <= |w.loaded| && w.i < |w.tasks|
    ensures LaidOut(Step(search, w, |names|, force), names, ns, caller, start, after)
  {
    after := at;
    if |Step(search, w, |names|, force).loaded| > |w.loaded| {
      var l := search(w.loaded, w.tasks[w.i]).file;
      LaidMore(w, start, |names|, at, l);
      after := at + [|w.tasks| + |l.file.needed|];
    }
  }

  lemma SettledMore(search: Search, w: Work, start: nat, names: nat, force: bool, when: seq<nat>)
    requires Settled(search, w, start, names, force, when)
    requires w.i < |w.tasks| && !search(w.loaded, w.tasks[w.i]).Missing?
    ensures Settled(search, Step(search, w, names, force), start, names, force, when + [|w.loaded|])
  {
    var after, more := Step(search, w, names, force), when + [|w.loaded|];
    forall i | 0 <= i < after.i ensures SettledAt(search, after, i, more[i], force && i < names) {
      assert after.loaded[..more[i]] == w.loaded[..more[i]];
      if i < w.i {
        assert SettledAt(search, w, i, when[i], force && i < names);
      } else {
        assert w.loaded[..|w.loaded|] == w.loaded;
      }
    }
  }

  /** The loop of step 1. It ends whatever the files need, also from each other, and loads each of them at most once
      into a namespace unless the caller forces it. */
  method Expand(names: seq<string>, ns: Namespace, caller: nat, start: seq<Loaded>, force: bool, search: Search,
                ghost files: set<Loaded>)
    returns (ok: bool, w: Work, ghost at: seq<nat>, ghost when: seq<nat>)
    requires Within(search, files) && Tame(files)
    ensures w.i <= |w.tasks| && (ok <==> w.i == |w.tasks|)
    ensures !ok ==> search(w.loaded, w.tasks[w.i]) == Missing
    ensures start <= w.loaded && Fresh(w.loaded, |start| + if force then |names| else 0)
    ensures (forall l :: l in files ==> !l.file.Nameless()) ==> |w.loaded| <= |start| + |files| + |names|
    ensures LaidOut(w, names, ns, caller, |start|, at)
    ensures Settled(search, w, |start|, |names|, force, when)
  {
    at, when := [|names|], [];
    w := Work(seq(|names|, k requires 0 <= k < |names| => Task(names[k], caller, ns)), 0, start);
    Smaller(Unseen(files, start), files);
    while w.i < |w.tasks|
      invariant Expanding(files, start, w, |names|, force)
      invariant LaidOut(w, names, ns, caller, |start|, at)
      invariant Settled(search, w, |start|, |names|, force, when)
      decreases Budget(files, w, |names|), |w.tasks| - w.i
    {
      if search(w.loaded, w.tasks[w.i]) == Missing {
        return false, w, at, when;
      }
      Progress(search, w, |names|, force, files);
      ExpandStep(search, files, start, w, |names|, force);
      SettledMore(search, w, |start|, |names|, force, when);
      at := LaidStep(search, w, names, ns, caller, |start|, force, at);
      when := when + [|w.loaded|];
      w := Step(search, w, |names|, force);
    }
    ok := true;
  }

  // ---------------------------------------------------------------------------------
  // When there is an end
  // ---------------------------------------------------------------------------------

  ghost predicate Stopped(search: Search, w: Work)
  {
    w.i >= |w.tasks| || search(w.loaded, w.tasks[w.i]).Missing?
  }

  /** The state after at most `n` rounds. */
  ghost function Run(search: Search, w: Work, names: nat, force: bool, n: nat): Work
    decreases n
  {
    if n == 0 || Stopped(search, w) then w else Run(search, Step(search, w, names, force), names, force, n - 1)
  }

  /** If files that are not recognized need nothing, every search comes to an end, from every state. */
  lemma {:induction false} Ends(search: Search, w: Work, names: nat, force: bool, files: set<Loaded>) returns (n: nat)
    requires Within(search, files) && Tame(files) && w.i <= |w.tasks|
    ensures Stopped(search, Run(search, w, names, force, n))
    decreases Budget(files, w, names), |w.tasks| - w.i
  {
    if Stopped(search, w) {
      n := 0;
    } else {
      Progress(search, w, names, force, files);
      n := Ends(search, Step(search, w, names, force), names, force, files);
      n := n + 1;
    }
  }

  /** Every name leads to `l`. */
  ghost function Always(l: Loaded): Search
  {
    (loaded, task) => Opened(l)
  }

  /** If one needs something, and the name leads back to it, there is no end. */
  lemma {:induction false} NeverEnds(l: Loaded, w: Work, names: nat, force: bool, n: nat)
    requires l.file.Nameless() && l.file.needed != [] && w.i < |w.tasks|
    ensures var after := Run(Always(l), w, names, force, n);
            Within(Always(l), {l}) && !Stopped(Always(l), after) && |after.loaded| == |w.loaded| + n
    decreases n
  {
    if n > 0 {
      NeverEnds(l, Work(w.tasks + Needs(l, |w.loaded|), w.i + 1, w.loaded + [l]), names, force, n - 1);
    }
  }
}
