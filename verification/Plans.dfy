/**
  What step 1 of `find_libraries` makes of a plan, in closed form. Tasks are worked off in the order in which they are
  created, and a library that is loaded creates one for each of its DT_NEEDED entries. So the place of a task in the list
  tells which entry of which library it is for.
 */
module Plans {
  import opened Basics
  import opened Soinfo
  import opened Groups
  import opened Opening

  /** How many libraries the first `k` entries of a plan load. */
  ghost function Loads(plan: seq<Resolution>, k: nat): nat
    requires k <= |plan|
  {
    if k == 0 then 0 else Loads(plan, k - 1) + if plan[k - 1].Load? then 1 else 0
  }

  /** How many DT_NEEDED entries these libraries have together. */
  ghost function Needs(plan: seq<Resolution>, k: nat): nat
    requires k <= |plan|
  {
    if k == 0 then 0 else Needs(plan, k - 1) + if plan[k - 1].Load? then plan[k - 1].needed else 0
  }

  /** The library that entry `k` leads to, when new libraries are numbered from `first` on. */
  ghost function Target(plan: seq<Resolution>, first: nat, k: nat): Lib
    requires k < |plan|
  {
    if plan[k].Found? then plan[k].lib else first + Loads(plan, k)
  }

  /** The place in the list of tasks of the one for DT_NEEDED entry `j` of the library that entry `k` loads. */
  ghost function Place(plan: seq<Resolution>, k: nat, j: nat): nat
    requires k <= |plan|
  {
    1 + Needs(plan, k) + j
  }

  lemma {:induction false} LoadsMore(plan: seq<Resolution>, a: nat, b: nat)
    requires a <= b <= |plan|
    ensures Loads(plan, a) <= Loads(plan, b) && (a < b && plan[a].Load? ==> Loads(plan, a) < Loads(plan, b))
    ensures Needs(plan, a) <= Needs(plan, b) && (a < b && plan[a].Load? ==> Needs(plan, a) + plan[a].needed <= Needs(plan, b))
  {
    if a < b {
      LoadsMore(plan, a, b - 1);
    }
  }

  /** Every task but the first is for an entry of a library that was loaded. */
  lemma {:induction false} PlaceFound(plan: seq<Resolution>, i: nat, t: nat) returns (k: nat, j: nat)
    requires i <= |plan| && 1 <= t < 1 + Needs(plan, i)
    ensures k < i && plan[k].Load? && j < plan[k].needed && t == Place(plan, k, j)
    decreases i
  {
    if t < 1 + Needs(plan, i - 1) {
      k, j := PlaceFound(plan, i - 1, t);
    } else {
      k, j := i - 1, t - 1 - Needs(plan, i - 1);
    }
  }

  // ---------------------------------------------------------------------------------
  // Who needs what
  // ---------------------------------------------------------------------------------

  /** The list of tasks, those that were resolved and those that were not, after `|tasks|` entries. */
  ghost predicate Lined(plan: seq<Resolution>, first: nat, tasks: seq<Task>, pending: seq<Option<Lib>>)
  {
    && |tasks| <= |plan| && |tasks| + |pending| == 1 + Needs(plan, |tasks|)
    && forall k, j :: 0 <= k < |tasks| && plan[k].Load? && 0 <= j < plan[k].needed ==> LinedAt(plan, first, tasks, pending, k, j)
  }

  ghost predicate LinedAt(plan: seq<Resolution>, first: nat, tasks: seq<Task>, pending: seq<Option<Lib>>, k: nat, j: nat)
    requires k < |plan|
  {
    var t, n := Place(plan, k, j), Some(first + Loads(plan, k));
    if t < |tasks| then tasks[t].neededBy == n else t - |tasks| < |pending| && pending[t - |tasks|] == n
  }

  /** What every resolved task has led to. */
  ghost predicate Led(plan: seq<Resolution>, first: nat, tasks: seq<Task>)
  {
    |tasks| <= |plan| && forall k :: 0 <= k < |tasks| ==> !plan[k].NotFound? && tasks[k].si == Target(plan, first, k)
  }

  lemma LinedStep(plan: seq<Resolution>, first: nat, tasks: seq<Task>, pending: seq<Option<Lib>>, si: Lib, k: nat, j: nat)
    requires Lined(plan, first, tasks, pending) && pending != [] && |tasks| < |plan|
    requires plan[|tasks|].Load? ==> si == first + Loads(plan, |tasks|)
    requires k <= |tasks| && plan[k].Load? && j < plan[k].needed
    ensures LinedAt(plan, first, tasks + [Task(pending[0], si)], pending[1..] + AddedTasks(plan[|tasks|], si), k, j)
  {
    var i := |tasks|;
    if k < i {
      assert LinedAt(plan, first, tasks, pending, k, j);
    }
  }

  lemma LinedMore(plan: seq<Resolution>, first: nat, tasks: seq<Task>, pending: seq<Option<Lib>>, si: Lib)
    requires Lined(plan, first, tasks, pending) && pending != [] && |tasks| < |plan|
    requires plan[|tasks|].Load? ==> si == first + Loads(plan, |tasks|)
    ensures Lined(plan, first, tasks + [Task(pending[0], si)], pending[1..] + AddedTasks(plan[|tasks|], si))
  {
    forall k, j | 0 <= k < |tasks| + 1 && plan[k].Load? && 0 <= j < plan[k].needed
      ensures LinedAt(plan, first, tasks + [Task(pending[0], si)], pending[1..] + AddedTasks(plan[|tasks|], si), k, j)
    {
      LinedStep(plan, first, tasks, pending, si, k, j);
    }
  }

  /** What is still to be resolved when step 1 has ended. */
  lemma {:induction false} ExpandedLined(s: State, tasks: seq<Task>, pending: seq<Option<Lib>>, startWith: Option<Lib>, plan: seq<Resolution>, first: nat)
    returns (left: seq<Option<Lib>>)
    requires |tasks| <= |plan| && s.next == first + Loads(plan, |tasks|) && Lined(plan, first, tasks, pending) && Led(plan, first, tasks)
    ensures var x := Expanded(s, tasks, pending, startWith, plan, |tasks|);
            && Lined(plan, first, x.tasks, left) && Led(plan, first, x.tasks) && x.s.next == first + Loads(plan, |x.tasks|)
            && (x.ok <==> left == [])
    decreases |plan| - |tasks|
  {
    var i := |tasks|;
    if pending != [] && i < |plan| && Resolves(s, plan[i]) {
      var (t, si) := Resolved(s, plan[i]);
      var u := Linked(t, si, pending[0], startWith);
      assert u.next == t.next;
      LinedMore(plan, first, tasks, pending, si);
      left := ExpandedLined(u, tasks + [Task(pending[0], si)], pending[1..] + AddedTasks(plan[i], si), startWith, plan, first);
    } else {
      left := pending;
    }
  }

  // ---------------------------------------------------------------------------------
  // The children
  // ---------------------------------------------------------------------------------

  /** If the tasks for `n` are those from `lo` to `hi`, its children are what these have led to. */
  lemma {:induction false} SisBetween(tasks: seq<Task>, n: Lib, lo: nat, hi: nat)
    requires lo <= hi <= |tasks| && forall t :: 0 <= t < |tasks| ==> (tasks[t].neededBy == Some(n) <==> lo <= t < hi)
    ensures |Sis(tasks, n)| == hi - lo && forall j :: 0 <= j < hi - lo ==> Sis(tasks, n)[j] == tasks[lo + j].si
  {
    if tasks != [] {
      var m := |tasks| - 1;
      assert tasks[m].neededBy == Some(n) <==> lo <= m < hi;
      if hi <= m {
        SisBetween(tasks[..m], n, lo, hi);
      } else if lo <= m {
        SisBetween(tasks[..m], n, lo, m);
      } else {
        SisBetween(tasks[..m], n, m, m);
      }
    }
  }

  /** A task is for library `n` of entry `k` exactly if it is in its place. */
  lemma NeededBy(plan: seq<Resolution>, first: nat, tasks: seq<Task>, startWith: Option<Lib>, k: nat, t: nat)
    requires Lined(plan, first, tasks, []) && k < |tasks| && plan[k].Load? && t < |tasks|
    requires (startWith.Some? ==> startWith.value < first) && tasks[0].neededBy == startWith
    ensures tasks[t].neededBy == Some(first + Loads(plan, k)) <==> Place(plan, k, 0) <= t < Place(plan, k, plan[k].needed)
  {
    if t > 0 {
      var k', j := PlaceFound(plan, |tasks|, t);
      assert LinedAt(plan, first, tasks, [], k', j);
      LoadsMore(plan, k, if k < k' then k' else k);
      LoadsMore(plan, k', if k' < k then k else k');
    }
  }

  /** The library of entry `k` is as the plan says: it has the namespace, the flag and the addresses of its entry, as far
      as they were not taken, and its children are what its DT_NEEDED entries were resolved to, in order. */
  ghost predicate AsPlanned(s: State, plan: seq<Resolution>, first: nat, k: nat)
    requires k < |plan| && plan[k].Load?
  {
    var r, n := plan[k], first + Loads(plan, k);
    && n in s.children && n in s.namespace && n in s.image
    && |s.children[n]| == r.needed
    && (forall j :: 0 <= j < r.needed ==> Place(plan, k, j) < |plan| && s.children[n][j] == Target(plan, first, Place(plan, k, j)))
    && s.namespace[n] == r.ns && (n in s.keep <==> r.keep)
    && (forall h :: h in s.image[n] <==> h in r.image && forall m :: m in s.image && m < n ==> h !in s.image[m])
  }

  // ---------------------------------------------------------------------------------
  // What a library is given
  // ---------------------------------------------------------------------------------

  ghost predicate Given(s: State, r: Resolution, n: Lib)
    requires r.Load?
  {
    && n in s.namespace && n in s.image && s.namespace[n] == r.ns && (n in s.keep <==> r.keep)
    && (forall h :: h in s.image[n] <==> h in r.image && forall m :: m in s.image && m < n ==> h !in s.image[m])
  }

  ghost predicate AllGiven(s: State, plan: seq<Resolution>, first: nat, i: nat)
    requires i <= |plan|
  {
    && s.next == first + Loads(plan, i) && (forall l :: l in s.image ==> l < s.next)
    && forall k :: 0 <= k < i && plan[k].Load? ==> Given(s, plan[k], first + Loads(plan, k))
  }

  lemma GivenNow(s: State, r: Resolution)
    requires r.Load? && forall l :: l in s.image ==> l < s.next
    ensures Given(Resolved(s, r).0, r, s.next)
  {
    var t := Resolved(s, r).0;
    assert t.image[s.next] == Unmapped(s.image, r.image);
    forall h ensures h in t.image[s.next] <==> h in r.image && forall m :: m in t.image && m < s.next ==> h !in t.image[m] {
      if h in r.image && forall m :: m in t.image && m < s.next ==> h !in t.image[m] {
        forall l | l in s.image ensures h !in s.image[l] {
          assert t.image[l] == s.image[l];
        }
      }
    }
  }

  /** Later libraries change nothing about earlier ones. */
  lemma StillGiven(s: State, t: State, r: Resolution, n: Lib)
    requires r.Load? && Given(s, r, n) && n < s.next && Kept(s.namespace.Keys, s.namespace, t.namespace)
    requires forall l :: l < s.next ==> (l in t.image <==> l in s.image) && (l in s.image ==> t.image[l] == s.image[l])
    requires n in t.keep <==> n in s.keep
    ensures Given(t, r, n)
  {
  }

  /** An edge changes nothing but the two lists. */
  lemma OnlyEdges(t: State, si: Lib, need: Option<Lib>, startWith: Option<Lib>, u: State)
    requires u == Linked(t, si, need, startWith)
    ensures u == t.(children := u.children, parents := u.parents)
  {
  }

  lemma ResolvedKeeps(s: State, r: Resolution, t: State)
    requires Resolves(s, r) && t == Resolved(s, r).0
    requires (forall l :: l in s.namespace ==> l < s.next) && forall l :: l in s.image ==> l < s.next
    ensures Kept(s.namespace.Keys, s.namespace, t.namespace)
    ensures forall l :: l < s.next ==> (l in t.image <==> l in s.image) && (l in s.image ==> t.image[l] == s.image[l])
    ensures forall l :: l < s.next ==> (l in t.keep <==> l in s.keep)
    ensures (forall l :: l in t.namespace ==> l < t.next) && forall l :: l in t.image ==> l < t.next
    ensures t.next == s.next + if r.Load? then 1 else 0
  {
  }

  lemma StepKeeps(s: State, r: Resolution, need: Option<Lib>, startWith: Option<Lib>, u: State)
    requires Resolves(s, r) && u == Linked(Resolved(s, r).0, Resolved(s, r).1, need, startWith)
    requires (forall l :: l in s.namespace ==> l < s.next) && forall l :: l in s.image ==> l < s.next
    ensures Kept(s.namespace.Keys, s.namespace, u.namespace)
    ensures forall l :: l < s.next ==> (l in u.image <==> l in s.image) && (l in s.image ==> u.image[l] == s.image[l])
    ensures forall l :: l < s.next ==> (l in u.keep <==> l in s.keep)
    ensures (forall l :: l in u.namespace ==> l < u.next) && forall l :: l in u.image ==> l < u.next
    ensures u.next == s.next + if r.Load? then 1 else 0
  {
    OnlyEdges(Resolved(s, r).0, Resolved(s, r).1, need, startWith, u);
    ResolvedKeeps(s, r, Resolved(s, r).0);
  }

  lemma GivenStep(s: State, plan: seq<Resolution>, first: nat, i: nat, need: Option<Lib>, startWith: Option<Lib>, u: State)
    requires i < |plan| && AllGiven(s, plan, first, i) && (forall l :: l in s.namespace ==> l < s.next)
    requires Resolves(s, plan[i]) && u == Linked(Resolved(s, plan[i]).0, Resolved(s, plan[i]).1, need, startWith)
    ensures AllGiven(u, plan, first, i + 1) && forall l :: l in u.namespace ==> l < u.next
  {
    StepKeeps(s, plan[i], need, startWith, u);
    forall k | 0 <= k < i + 1 && plan[k].Load? ensures Given(u, plan[k], first + Loads(plan, k)) {
      if k < i {
        LoadsMore(plan, k, i);
        StillGiven(s, u, plan[k], first + Loads(plan, k));
      } else {
        GivenNow(s, plan[i]);
        OnlyEdges(Resolved(s, plan[i]).0, Resolved(s, plan[i]).1, need, startWith, u);
      }
    }
  }

  lemma {:induction false} ExpandedGiven(s: State, tasks: seq<Task>, pending: seq<Option<Lib>>, startWith: Option<Lib>, plan: seq<Resolution>, first: nat)
    requires |tasks| <= |plan| && AllGiven(s, plan, first, |tasks|) && forall l :: l in s.namespace ==> l < s.next
    ensures |Expanded(s, tasks, pending, startWith, plan, |tasks|).tasks| <= |plan|
    ensures AllGiven(Expanded(s, tasks, pending, startWith, plan, |tasks|).s, plan, first, |Expanded(s, tasks, pending, startWith, plan, |tasks|).tasks|)
    decreases |plan| - |tasks|
  {
    var i := |tasks|;
    if pending != [] && i < |plan| && Resolves(s, plan[i]) {
      var (t, si) := Resolved(s, plan[i]);
      var u := Linked(t, si, pending[0], startWith);
      GivenStep(s, plan, first, i, pending[0], startWith, u);
      ExpandedGiven(u, tasks + [Task(pending[0], si)], pending[1..] + AddedTasks(plan[i], si), startWith, plan, first);
    }
  }

  // ---------------------------------------------------------------------------------
  // When step 1 succeeds
  // ---------------------------------------------------------------------------------

  /** Entry `k` does not make the search fail: it loads a library, or finds one that is there by then. */
  ghost predicate Resolvable(s0: State, plan: seq<Resolution>, k: nat)
    requires k < |plan|
  {
    plan[k].Load? || (plan[k].Found? && (plan[k].lib in s0.live || s0.next <= plan[k].lib < s0.next + Loads(plan, k)))
  }

  /** The first `n` entries resolve all tasks, and none of them is without one. */
  ghost predicate Settles(s0: State, plan: seq<Resolution>, n: nat)
  {
    n <= |plan| && n == 1 + Needs(plan, n) && forall k :: 0 <= k < n ==> k < 1 + Needs(plan, k) && Resolvable(s0, plan, k)
  }

  /** Where step 1 stands after `i` entries. */
  ghost predicate Stands(s0: State, s: State, plan: seq<Resolution>, i: nat, waiting: nat)
    requires i <= |plan|
  {
    && s.next == s0.next + Loads(plan, i) && i + waiting == 1 + Needs(plan, i)
    && (forall l :: l in s.live <==> l in s0.live || s0.next <= l < s.next)
    && forall k :: 0 <= k < i ==> k < 1 + Needs(plan, k) && Resolvable(s0, plan, k)
  }

  lemma StandsMore(s0: State, s: State, plan: seq<Resolution>, i: nat, pending: seq<Option<Lib>>, startWith: Option<Lib>, u: State)
    requires i < |plan| && pending != [] && Stands(s0, s, plan, i, |pending|) && Resolves(s, plan[i])
    requires u == Linked(Resolved(s, plan[i]).0, Resolved(s, plan[i]).1, pending[0], startWith)
    ensures Stands(s0, u, plan, i + 1, |pending[1..] + AddedTasks(plan[i], Resolved(s, plan[i]).1)|)
  {
    OnlyEdges(Resolved(s, plan[i]).0, Resolved(s, plan[i]).1, pending[0], startWith, u);
    ResolvedLive(s0, s, plan[i], Resolved(s, plan[i]).0);
  }

  lemma ResolvedLive(s0: State, s: State, r: Resolution, t: State)
    requires Resolves(s, r) && t == Resolved(s, r).0 && s0.next <= s.next && forall l :: l in s.live <==> l in s0.live || s0.next <= l < s.next
    ensures (forall l :: l in t.live <==> l in s0.live || s0.next <= l < t.next) && t.next == s.next + if r.Load? then 1 else 0
  {
  }

  lemma {:induction false} ExpandedSettles(s0: State, s: State, tasks: seq<Task>, pending: seq<Option<Lib>>, startWith: Option<Lib>, plan: seq<Resolution>)
    requires |tasks| <= |plan| && Stands(s0, s, plan, |tasks|, |pending|)
    ensures var x := Expanded(s, tasks, pending, startWith, plan, |tasks|);
            if x.ok then Settles(s0, plan, |x.tasks|) else forall n :: !Settles(s0, plan, n)
    decreases |plan| - |tasks|
  {
    var i := |tasks|;
    if pending != [] && i < |plan| && Resolves(s, plan[i]) {
      var (t, si) := Resolved(s, plan[i]);
      var u := Linked(t, si, pending[0], startWith);
      StandsMore(s0, s, plan, i, pending, startWith, u);
      ExpandedSettles(s0, u, tasks + [Task(pending[0], si)], pending[1..] + AddedTasks(plan[i], si), startWith, plan);
    } else if pending != [] {
      forall n ensures !Settles(s0, plan, n) {
        NoneSettles(s0, s, plan, i, |pending|, n);
      }
    }
  }

  lemma NoneSettles(s0: State, s: State, plan: seq<Resolution>, i: nat, waiting: nat, n: nat)
    requires i <= |plan| && Stands(s0, s, plan, i, waiting) && waiting > 0 && (i == |plan| || !Resolves(s, plan[i]))
    ensures !Settles(s0, plan, n)
  {
    if i < n <= |plan| {
      assert !Resolvable(s0, plan, i);
    } else if n < i {
      assert n < 1 + Needs(plan, n);
    }
  }

  // ---------------------------------------------------------------------------------
  // All of it
  // ---------------------------------------------------------------------------------

  /** All libraries of the first `n` entries are as planned, and there are no others. */
  ghost predicate Planned(s0: State, s: State, plan: seq<Resolution>, n: nat)
  {
    && Settles(s0, plan, n) && s.next == s0.next + Loads(plan, n)
    && forall k :: 0 <= k < n && plan[k].Load? ==> AsPlanned(s, plan, s0.next, k)
  }

  lemma ChildrenPlanned(s: State, plan: seq<Resolution>, first: nat, tasks: seq<Task>, startWith: Option<Lib>, k: nat)
    requires Lined(plan, first, tasks, []) && Led(plan, first, tasks) && k < |tasks| && plan[k].Load?
    requires (startWith.Some? ==> startWith.value < first) && tasks[0].neededBy == startWith
    requires first + Loads(plan, k) in s.children && s.children[first + Loads(plan, k)] == Sis(tasks, first + Loads(plan, k))
    requires Given(s, plan[k], first + Loads(plan, k))
    ensures AsPlanned(s, plan, first, k)
  {
    var n := first + Loads(plan, k);
    LoadsMore(plan, k, |tasks|);
    forall t | 0 <= t < |tasks| ensures tasks[t].neededBy == Some(n) <==> Place(plan, k, 0) <= t < Place(plan, k, plan[k].needed) {
      NeededBy(plan, first, tasks, startWith, k, t);
    }
    SisBetween(tasks, n, Place(plan, k, 0), Place(plan, k, plan[k].needed));
    forall j | 0 <= j < plan[k].needed ensures Place(plan, k, j) < |plan| && s.children[n][j] == Target(plan, first, Place(plan, k, j)) {
      assert Place(plan, k, j) == Place(plan, k, 0) + j;
    }
  }

  /** This depends on nothing but the fields that it is about. */
  lemma StillPlanned(s0: State, s: State, t: State, plan: seq<Resolution>, n: nat)
    requires Planned(s0, s, plan, n) && t.next == s.next && t.children == s.children && t.namespace == s.namespace
    requires t.keep == s.keep && t.image == s.image
    ensures Planned(s0, t, plan, n)
  {
    forall k | 0 <= k < n && plan[k].Load? ensures AsPlanned(t, plan, s0.next, k) {
      assert AsPlanned(s, plan, s0.next, k);
    }
  }

  lemma AtStart(s0: State, startWith: Option<Lib>, plan: seq<Resolution>)
    requires Domains(s0)
    ensures Lined(plan, s0.next, [], [startWith]) && Led(plan, s0.next, []) && AllGiven(s0, plan, s0.next, 0)
    ensures Stands(s0, s0, plan, 0, 1)
  {
  }

  /** When step 1 succeeds every library that it has loaded is as planned, and it succeeds exactly if the plan resolves all
      tasks. */
  lemma StepOnePlanned(s0: State, startWith: Option<Lib>, plan: seq<Resolution>)
    requires Domains(s0) && (startWith.Some? ==> startWith.value < s0.next)
    ensures StepOne(s0, startWith, plan).ok <==> exists n :: Settles(s0, plan, n)
    ensures StepOne(s0, startWith, plan).ok ==>
              && Planned(s0, StepOne(s0, startWith, plan).s, plan, |StepOne(s0, startWith, plan).tasks|)
              && StepOne(s0, startWith, plan).tasks[0].si == Target(plan, s0.next, 0)
  {
    var x := StepOne(s0, startWith, plan);
    AtStart(s0, startWith, plan);
    ExpandedSettles(s0, s0, [], [startWith], startWith, plan);
    if x.ok {
      StepOneStarted(s0, startWith, plan);
      AllPlanned(s0, startWith, plan);
    }
  }

  lemma AllPlanned(s0: State, startWith: Option<Lib>, plan: seq<Resolution>)
    requires Domains(s0) && (startWith.Some? ==> startWith.value < s0.next)
    requires StepOne(s0, startWith, plan).ok && Started(s0, StepOne(s0, startWith, plan), startWith)
    requires Settles(s0, plan, |StepOne(s0, startWith, plan).tasks|)
    ensures Planned(s0, StepOne(s0, startWith, plan).s, plan, |StepOne(s0, startWith, plan).tasks|)
    ensures StepOne(s0, startWith, plan).tasks[0].si == Target(plan, s0.next, 0)
  {
    var x := StepOne(s0, startWith, plan);
    AtStart(s0, startWith, plan);
    var left := ExpandedLined(s0, [], [startWith], startWith, plan, s0.next);
    ExpandedGiven(s0, [], [startWith], startWith, plan, s0.next);
    assert NeedKnown(s0, x.s, x.tasks, startWith, 0, x.tasks[0].neededBy);
    forall k | 0 <= k < |x.tasks| && plan[k].Load? ensures AsPlanned(x.s, plan, s0.next, k) {
      OnePlanned(s0, x.s, plan, x.tasks, startWith, k);
    }
  }

  lemma OnePlanned(s0: State, s: State, plan: seq<Resolution>, tasks: seq<Task>, startWith: Option<Lib>, k: nat)
    requires Lined(plan, s0.next, tasks, []) && Led(plan, s0.next, tasks) && k < |tasks| && plan[k].Load?
    requires (startWith.Some? ==> startWith.value < s0.next) && tasks[0].neededBy == startWith
    requires AllGiven(s, plan, s0.next, |tasks|) && ChildrenAre(s0, s, tasks)
    ensures AsPlanned(s, plan, s0.next, k)
  {
    LoadsMore(plan, k, |tasks|);
    assert New(s0, s, s0.next + Loads(plan, k));
    ChildrenPlanned(s, plan, s0.next, tasks, startWith, k);
  }
}
