/**
  Opening a library: step 1 of `find_libraries` on the loader's state.

  What the file system holds decides how a load task is resolved; a plan lists the outcomes, one for
  each task, so that every run of the loader has a plan.
 */
module Opening {
  import opened Basics
  import opened Soinfo
  import opened Groups

  /** How a load task ends: no such library, a library that is loaded already, or a newly loaded library with
      its namespace, the number of its DT_NEEDED entries, its flags and the addresses it is mapped to. */
  datatype Resolution =
    | NotFound
    | Found(lib: Lib)
    | Load(ns: Namespace, needed: nat, keep: bool, image: set<Address>)

  /** `soinfo_alloc`. */
  function AddLib(s: State, ns: Namespace, keep: bool, image: set<Address>): State
  {
    var n := s.next;
    s.(next := n + 1, live := s.live + {n},
       children := s.children[n := []], parents := s.parents[n := []],
       refs := s.refs[n := 0], opens := s.opens[n := 0],
       keep := if keep then s.keep + {n} else s.keep - {n},
       namespace := s.namespace[n := ns], secondary := s.secondary[n := {}],
       image := s.image[n := image])
  }

  /** The kernel never maps a library over another one. */
  function Unmapped(images: map<Lib, set<Address>>, image: set<Address>): (r: set<Address>)
    ensures forall l :: l in images ==> images[l] !! r
  {
    set h | h in image && forall l :: l in images ==> h !in images[l]
  }

  /** `add_child`. */
  function AddEdge(s: State, a: Lib, b: Lib): State
  {
    if a in s.children && b in s.parents then
      s.(children := s.children[a := s.children[a] + [b]], parents := s.parents[b := s.parents[b] + [a]])
    else s
  }

  lemma KeysGrow<V>(m: map<Lib, V>, live: set<Lib>, n: Lib, v: V)
    requires m.Keys == live
    ensures m[n := v].Keys == live + {n}
  {
  }

  lemma AddLibDomains(s: State, ns: Namespace, keep: bool, image: set<Address>)
    requires Domains(s)
    ensures Domains(AddLib(s, ns, keep, image))
  {
    KeysGrow(s.children, s.live, s.next, []);
    KeysGrow(s.parents, s.live, s.next, []);
    KeysGrow(s.refs, s.live, s.next, 0);
    KeysGrow(s.opens, s.live, s.next, 0);
    KeysGrow(s.namespace, s.live, s.next, ns);
    KeysGrow(s.secondary, s.live, s.next, {});
    KeysGrow(s.image, s.live, s.next, image);
  }

  lemma AddLibEdges(s: State, ns: Namespace, keep: bool, image: set<Address>)
    requires Domains(s) && Symmetric(s)
    ensures Domains(AddLib(s, ns, keep, image)) && Symmetric(AddLib(s, ns, keep, image))
  {
    var t := AddLib(s, ns, keep, image);
    AddLibDomains(s, ns, keep, image);
    forall l, c {:trigger c in t.children[l]} | l in t.live && c in t.children[l] ensures c in t.live && l in t.parents[c] {
      OldEdge(s, t, l, c);
    }
    forall l, p {:trigger p in t.parents[l]} | l in t.live && p in t.parents[l] ensures p in t.live && l in t.children[p] {
      OldEdge(s, t, p, l);
    }
  }

  lemma OldEdge(s: State, t: State, a: Lib, b: Lib)
    requires Domains(s) && Symmetric(s) && t.live == s.live + {s.next}
    requires t.children == s.children[s.next := []] && t.parents == s.parents[s.next := []]
    requires (a in t.children && b in t.children[a]) || (b in t.parents && a in t.parents[b])
    ensures a in t.live && b in t.live && a in t.children && b in t.parents && b in t.children[a] && a in t.parents[b]
  {
  }

  lemma AddLibGroups(s: State, ns: Namespace, keep: bool, image: set<Address>)
    requires Domains(s) && GroupsFormed(s)
    ensures Domains(AddLib(s, ns, keep, image)) && GroupsFormed(AddLib(s, ns, keep, image))
  {
    var t := AddLib(s, ns, keep, image);
    AddLibDomains(s, ns, keep, image);
    forall l | l in t.linked && t.groupRoot[l] in t.live ensures LeadsItself(t, t.groupRoot[l]) {
      assert LeadsItself(s, s.groupRoot[l]);
    }
  }

  lemma AddLibPinned(s: State, ns: Namespace, keep: bool, image: set<Address>)
    requires Domains(s) && Pinned(s)
    ensures Domains(AddLib(s, ns, keep, image)) && Pinned(AddLib(s, ns, keep, image))
  {
    AddLibDomains(s, ns, keep, image);
  }

  lemma AddLibHandles(s: State, ns: Namespace, keep: bool, image: set<Address>)
    requires Domains(s) && HandlesOwned(s) && forall l :: l in s.image ==> s.image[l] !! image
    ensures Domains(AddLib(s, ns, keep, image)) && HandlesOwned(AddLib(s, ns, keep, image))
  {
    AddLibDomains(s, ns, keep, image);
    AddImage(s.linked, s.image, s.dso, s.next, image);
  }

  lemma AddImage(linked: set<Lib>, images: map<Lib, set<Address>>, dso: map<Address, nat>, n: Lib, image: set<Address>)
    requires Apart(images) && Owned(linked, images, dso)
    requires n !in images && forall l :: l in images ==> images[l] !! image
    ensures Apart(images[n := image]) && Owned(linked, images[n := image], dso)
  {
    forall h | h in dso && dso[h] > 0 ensures exists l :: l in linked && l in images[n := image] && h in images[n := image][l] {
      var l :| l in linked && l in images && h in images[l];
      assert l in images[n := image];
    }
  }

  lemma AddLibBalanced(s: State, ns: Namespace, keep: bool, image: set<Address>, r: Lib)
    requires Domains(s) && Balanced(s, [], r)
    ensures Balanced(AddLib(s, ns, keep, image), [], r)
  {
    var t := AddLib(s, ns, keep, image);
    HeldSame(s, t, r, s.next);
  }

  lemma AddLibInv(s: State, ns: Namespace, keep: bool, image: set<Address>)
    requires Inv(s, []) && forall l :: l in s.image ==> s.image[l] !! image
    ensures Inv(AddLib(s, ns, keep, image), [])
  {
    var t := AddLib(s, ns, keep, image);
    AddLibEdges(s, ns, keep, image);
    AddLibGroups(s, ns, keep, image);
    AddLibPinned(s, ns, keep, image);
    AddLibHandles(s, ns, keep, image);
    forall r: Lib ensures Balanced(t, [], r) {
      assert Balanced(s, [], r);
      AddLibBalanced(s, ns, keep, image, r);
    }
  }

  lemma AddEdgeDomains(s: State, a: Lib, b: Lib)
    requires Domains(s)
    ensures Domains(AddEdge(s, a, b))
  {
  }

  lemma AddEdgeEdges(s: State, a: Lib, b: Lib)
    requires Domains(s) && Symmetric(s) && a in s.live && b in s.live
    ensures Domains(AddEdge(s, a, b)) && Symmetric(AddEdge(s, a, b))
  {
    var t := AddEdge(s, a, b);
    AddEdgeDomains(s, a, b);
    forall l, c {:trigger c in t.children[l]} | l in t.live && c in t.children[l] ensures c in t.live && l in t.parents[c] {
      assert c in s.children[l] || (l == a && c == b);
    }
    forall l, p {:trigger p in t.parents[l]} | l in t.live && p in t.parents[l] ensures p in t.live && l in t.children[p] {
      assert p in s.parents[l] || (l == b && p == a);
    }
  }

  lemma AddEdgeGroups(s: State, a: Lib, b: Lib)
    requires Domains(s) && GroupsFormed(s) && Pinned(s) && a in s.live && b in s.live && a !in s.linked
    ensures Domains(AddEdge(s, a, b)) && GroupsFormed(AddEdge(s, a, b)) && Pinned(AddEdge(s, a, b))
  {
    var t := AddEdge(s, a, b);
    AddEdgeDomains(s, a, b);
    forall l | l in t.linked && t.groupRoot[l] in t.live ensures LeadsItself(t, t.groupRoot[l]) {
      assert LeadsItself(s, s.groupRoot[l]);
    }
  }

  lemma AddEdgeBalanced(s: State, a: Lib, b: Lib, r: Lib)
    requires a !in s.linked && Balanced(s, [], r)
    ensures Balanced(AddEdge(s, a, b), [], r)
  {
    HeldSame(s, AddEdge(s, a, b), r, s.next);
  }

  lemma AddEdgeHandles(s: State, a: Lib, b: Lib)
    requires Domains(s) && HandlesOwned(s)
    ensures Domains(AddEdge(s, a, b)) && HandlesOwned(AddEdge(s, a, b))
  {
    AddEdgeDomains(s, a, b);
  }

  /** An edge of an unlinked library is not counted. */
  lemma AddEdgeInv(s: State, a: Lib, b: Lib)
    requires Inv(s, []) && Loose(s, a) && b in s.live
    ensures Inv(AddEdge(s, a, b), [])
  {
    AddEdgeEdges(s, a, b);
    AddEdgeGroups(s, a, b);
    AddEdgeHandles(s, a, b);
    forall r: Lib ensures Balanced(AddEdge(s, a, b), [], r) {
      assert Balanced(s, [], r);
      AddEdgeBalanced(s, a, b, r);
    }
  }

  // ---------------------------------------------------------------------------------
  // Step 1
  // ---------------------------------------------------------------------------------

  /** The state after `load_library` has allocated a library, or found one. */
  function Resolved(s: State, r: Resolution): (State, Lib)
  {
    match r
    case Load(ns, needed, keep, image) => (AddLib(s, ns, keep, Unmapped(s.image, image)), s.next)
    case Found(l) => (s, l)
    case NotFound => (s, 0)
  }

  /** A resolution that does not make `find_library_internal` fail. */
  predicate Resolves(s: State, r: Resolution)
  {
    r.Load? || (r.Found? && r.lib in s.live)
  }

  /** The state after a task has been resolved. */
  function Linked(s: State, si: Lib, need: Option<Lib>, startWith: Option<Lib>): State
  {
    if need.Some? && need != startWith then AddEdge(s, need.value, si) else s
  }

  /** The tasks that a resolution adds: one for each DT_NEEDED entry of a newly loaded library. */
  function AddedTasks(r: Resolution, si: Lib): seq<Option<Lib>>
  {
    if r.Load? then seq(r.needed, _ => Some(si)) else []
  }

  /** How step 1 ends: whether all tasks were resolved, the state, and the tasks that were. */
  datatype Expansion = Expansion(ok: bool, s: State, tasks: seq<Task>)

  /** Step 1, from the `i`th entry of the plan on: `pending` are the needing libraries of the tasks to be resolved. */
  function Expanded(s: State, tasks: seq<Task>, pending: seq<Option<Lib>>, startWith: Option<Lib>, plan: seq<Resolution>, i: nat): Expansion
    requires i <= |plan|
    decreases |plan| - i
  {
    if pending == [] then Expansion(true, s, tasks)
    else if i == |plan| || !Resolves(s, plan[i]) then Expansion(false, s, tasks)
    else
      var (t, si) := Resolved(s, plan[i]);
      Expanded(Linked(t, si, pending[0], startWith), tasks + [Task(pending[0], si)], pending[1..] + AddedTasks(plan[i], si), startWith, plan, i + 1)
  }

  /** Step 1 for one library. */
  function StepOne(s: State, startWith: Option<Lib>, plan: seq<Resolution>): Expansion
  {
    Expanded(s, [], [startWith], startWith, plan, 0)
  }

  /** Step 1 of `find_libraries`, for one library: the list of load tasks grows while it is worked off. */
  method Expand(s0: State, startWith: Option<Lib>, plan: seq<Resolution>) returns (ok: bool, s: State, tasks: seq<Task>)
    ensures Expansion(ok, s, tasks) == StepOne(s0, startWith, plan)
  {
    s, tasks := s0, [];
    var pending := [startWith];
    var i := 0;
    while pending != []
      invariant i <= |plan|
      invariant Expanded(s, tasks, pending, startWith, plan, i) == StepOne(s0, startWith, plan)
      decreases |plan| - i
    {
      if i == |plan| || !Resolves(s, plan[i]) {
        return false, s, tasks;
      }
      var (t, si) := Resolved(s, plan[i]);
      s := Linked(t, si, pending[0], startWith);
      tasks := tasks + [Task(pending[0], si)];
      pending := pending[1..] + AddedTasks(plan[i], si);
      i := i + 1;
    }
    ok := true;
  }

  // The invariant ------------------------------------------------------------------

  /** Tasks are created for libraries that are not linked yet. */
  ghost predicate LooseNeeds(s: State, pending: seq<Option<Lib>>, startWith: Option<Lib>)
  {
    forall k :: 0 <= k < |pending| ==> LooseNeed(s, pending[k], startWith)
  }

  ghost predicate LooseNeed(s: State, need: Option<Lib>, startWith: Option<Lib>)
  {
    need == startWith || (need.Some? && Loose(s, need.value))
  }

  lemma ResolvedInv(s: State, r: Resolution, t: State, si: Lib)
    requires Inv(s, []) && Resolves(s, r) && (t, si) == Resolved(s, r)
    ensures Inv(t, []) && si in t.live
  {
    if r.Load? {
      AddLibInv(s, r.ns, r.keep, Unmapped(s.image, r.image));
    }
  }

  lemma StepInv(s: State, r: Resolution, t: State, si: Lib, need: Option<Lib>, startWith: Option<Lib>)
    requires Inv(s, []) && Resolves(s, r) && (t, si) == Resolved(s, r) && LooseNeed(s, need, startWith)
    ensures Inv(Linked(t, si, need, startWith), [])
  {
    ResolvedInv(s, r, t, si);
    if need.Some? && need != startWith {
      AddEdgeInv(t, need.value, si);
    }
  }

  /** Loose libraries stay loose. */
  lemma LooseStays(s: State, r: Resolution, t: State, si: Lib, need: Option<Lib>, startWith: Option<Lib>, u: State)
    requires s.linked <= s.live && s.next !in s.live && Resolves(s, r) && (t, si) == Resolved(s, r) && u == Linked(t, si, need, startWith)
    ensures s.live <= u.live && u.linked == s.linked && (r.Load? ==> Loose(u, si))
  {
  }

  lemma NeedsStayLoose(s: State, u: State, needs: seq<Option<Lib>>, startWith: Option<Lib>)
    requires s.live <= u.live && u.linked == s.linked && LooseNeeds(s, needs, startWith)
    ensures LooseNeeds(u, needs, startWith)
  {
    forall k | 0 <= k < |needs| ensures LooseNeed(u, needs[k], startWith) {
      assert LooseNeed(s, needs[k], startWith);
    }
  }

  lemma StepLoose(u: State, pending: seq<Option<Lib>>, added: seq<Option<Lib>>, startWith: Option<Lib>)
    requires pending != [] && LooseNeeds(u, pending, startWith) && LooseNeeds(u, added, startWith)
    ensures LooseNeeds(u, pending[1..] + added, startWith)
  {
    var rest := pending[1..] + added;
    forall k | 0 <= k < |rest| ensures LooseNeed(u, rest[k], startWith) {
      assert LooseNeed(u, if k < |pending| - 1 then pending[k + 1] else added[k - (|pending| - 1)], startWith);
    }
  }

  lemma AddedIsLoose(u: State, r: Resolution, si: Lib, startWith: Option<Lib>)
    requires r.Load? ==> Loose(u, si)
    ensures LooseNeeds(u, AddedTasks(r, si), startWith)
  {
  }

  lemma {:induction false} ExpandedInv(s: State, tasks: seq<Task>, pending: seq<Option<Lib>>, startWith: Option<Lib>, plan: seq<Resolution>, i: nat)
    requires i <= |plan| && Inv(s, []) && LooseNeeds(s, pending, startWith)
    ensures Inv(Expanded(s, tasks, pending, startWith, plan, i).s, [])
    decreases |plan| - i
  {
    if pending != [] && i < |plan| && Resolves(s, plan[i]) {
      var (t, si) := Resolved(s, plan[i]);
      var u := Linked(t, si, pending[0], startWith);
      assert LooseNeed(s, pending[0], startWith);
      StepInv(s, plan[i], t, si, pending[0], startWith);
      LooseStays(s, plan[i], t, si, pending[0], startWith, u);
      NeedsStayLoose(s, u, pending, startWith);
      AddedIsLoose(u, plan[i], si, startWith);
      StepLoose(u, pending, AddedTasks(plan[i], si), startWith);
      ExpandedInv(u, tasks + [Task(pending[0], si)], pending[1..] + AddedTasks(plan[i], si), startWith, plan, i + 1);
    }
  }

  // What stays ---------------------------------------------------------------------

  /** Nothing but new, unlinked libraries has been added. */
  ghost predicate Added(s0: State, s: State)
  {
    && s0.next <= s.next
    && (forall l :: l in s.live <==> l in s0.live || New(s0, s, l))
    && s.linked == s0.linked && s.groupRoot == s0.groupRoot && s.exe == s0.exe && s.dso == s0.dso
  }

  lemma AddedGrew(s0: State, s: State)
    requires Added(s0, s)
    ensures Grew(s0.live, s0.next, s.live, s.next)
  {
  }

  lemma StaysKept<V>(live: set<Lib>, m: map<Lib, V>, m': map<Lib, V>, n: Lib, v: V)
    requires Kept(live, m, m') && n !in live
    ensures Kept(live, m, m'[n := v])
  {
  }

  /** New libraries have no references yet. */
  ghost predicate Idle(m: map<Lib, nat>, lo: nat, hi: nat)
  {
    forall l: Lib {:trigger l in m} :: lo <= l < hi ==> l in m && m[l] == 0
  }

  ghost predicate OldKept(s0: State, s: State)
  {
    && Kept(s0.live, s0.children, s.children) && Kept(s0.live, s0.refs, s.refs) && Kept(s0.live, s0.opens, s.opens)
    && Idle(s.refs, s0.next, s.next) && Idle(s.opens, s0.next, s.next)
    && forall l :: l in s0.live ==> (l in s.keep <==> l in s0.keep)
  }

  /** Dependants are only added. */
  ghost predicate MoreParents(s0: State, s: State)
  {
    forall l, p {:trigger p in s0.parents[l]} :: l in s0.parents && p in s0.parents[l] ==> l in s.parents && p in s.parents[l]
  }

  /** The libraries that `n` was found to need, in order. */
  ghost function Sis(tasks: seq<Task>, n: Lib): seq<Lib>
  {
    if tasks == [] then []
    else
      var last := tasks[|tasks| - 1];
      Sis(tasks[..|tasks| - 1], n) + if last.neededBy == Some(n) then [last.si] else []
  }

  /** The children of the new libraries are what their tasks were resolved to. */
  ghost predicate ChildrenAre(s0: State, s: State, tasks: seq<Task>)
  {
    forall n :: New(s0, s, n) ==> n in s.children && s.children[n] == Sis(tasks, n)
  }

  lemma SisMore(tasks: seq<Task>, t: Task, n: Lib)
    ensures Sis(tasks + [t], n) == Sis(tasks, n) + if t.neededBy == Some(n) then [t.si] else []
  {
    assert (tasks + [t])[..|tasks|] == tasks;
  }

  lemma {:induction false} SisNone(tasks: seq<Task>, n: Lib)
    requires forall k :: 0 <= k < |tasks| ==> tasks[k].neededBy != Some(n)
    ensures Sis(tasks, n) == []
  {
    if tasks != [] {
      SisNone(tasks[..|tasks| - 1], n);
    }
  }

  /** What step 1 has done so far to the state it started from. */
  ghost predicate Framed(s0: State, s: State, tasks: seq<Task>)
  {
    Added(s0, s) && OldKept(s0, s) && MoreParents(s0, s) && ChildrenAre(s0, s, tasks)
  }

  /** Tasks are about new libraries, or the one the call started with. */
  ghost predicate NewNeed(s0: State, s: State, need: Option<Lib>, startWith: Option<Lib>)
  {
    need == startWith || (need.Some? && New(s0, s, need.value))
  }

  ghost predicate NewNeeds(s0: State, s: State, needs: seq<Option<Lib>>, startWith: Option<Lib>)
  {
    forall k :: 0 <= k < |needs| ==> NewNeed(s0, s, needs[k], startWith)
  }

  ghost function Needers(tasks: seq<Task>): seq<Option<Lib>>
  {
    seq(|tasks|, k requires 0 <= k < |tasks| => tasks[k].neededBy)
  }

  lemma AddLibAdded(s0: State, s: State, ns: Namespace, keep: bool, image: set<Address>)
    requires Added(s0, s)
    ensures Added(s0, AddLib(s, ns, keep, image))
  {
    var t := AddLib(s, ns, keep, image);
    forall l ensures l in t.live <==> l in s0.live || New(s0, t, l) {
      assert l in s.live <==> l in s0.live || New(s0, s, l);
    }
  }

  lemma AddLibOldKept(s0: State, s: State, ns: Namespace, keep: bool, image: set<Address>)
    requires Domains(s0) && s0.next <= s.next && OldKept(s0, s)
    ensures OldKept(s0, AddLib(s, ns, keep, image))
  {
    StaysKept(s0.live, s0.children, s.children, s.next, []);
    StaysKept(s0.live, s0.refs, s.refs, s.next, 0);
    StaysKept(s0.live, s0.opens, s.opens, s.next, 0);
  }

  lemma AddLibChildren(s0: State, s: State, ns: Namespace, keep: bool, image: set<Address>, tasks: seq<Task>)
    requires ChildrenAre(s0, s, tasks)
    requires forall k :: 0 <= k < |tasks| ==> tasks[k].neededBy != Some(s.next)
    ensures ChildrenAre(s0, AddLib(s, ns, keep, image), tasks)
  {
    var t := AddLib(s, ns, keep, image);
    SisNone(tasks, s.next);
    forall n | New(s0, t, n) ensures n in t.children && t.children[n] == Sis(tasks, n) {
      assert n == s.next || New(s0, s, n);
    }
  }

  lemma AddLibParents(s0: State, s: State, ns: Namespace, keep: bool, image: set<Address>)
    requires Domains(s0) && s0.next <= s.next && MoreParents(s0, s)
    ensures MoreParents(s0, AddLib(s, ns, keep, image))
  {
  }

  lemma ResolvedFrame(s0: State, s: State, r: Resolution, tasks: seq<Task>, t: State, si: Lib)
    requires Framed(s0, s, tasks) && Domains(s0) && Domains(s) && Resolves(s, r) && (t, si) == Resolved(s, r)
    requires forall k :: 0 <= k < |tasks| ==> tasks[k].neededBy != Some(s.next)
    ensures Framed(s0, t, tasks) && Domains(t) && si in t.live
  {
    if r.Load? {
      AddLibDomains(s, r.ns, r.keep, Unmapped(s.image, r.image));
      AddLibAdded(s0, s, r.ns, r.keep, Unmapped(s.image, r.image));
      AddLibOldKept(s0, s, r.ns, r.keep, Unmapped(s.image, r.image));
      AddLibParents(s0, s, r.ns, r.keep, Unmapped(s.image, r.image));
      AddLibChildren(s0, s, r.ns, r.keep, Unmapped(s.image, r.image), tasks);
    }
  }

  lemma EdgeChildren(s0: State, s: State, tasks: seq<Task>, n: Lib, si: Lib)
    requires ChildrenAre(s0, s, tasks) && New(s0, s, n) && si in s.parents
    ensures ChildrenAre(s0, AddEdge(s, n, si), tasks + [Task(Some(n), si)])
  {
    var t := AddEdge(s, n, si);
    forall m | New(s0, t, m) ensures m in t.children && t.children[m] == Sis(tasks + [Task(Some(n), si)], m) {
      SisMore(tasks, Task(Some(n), si), m);
    }
  }

  lemma NoEdgeChildren(s0: State, s: State, tasks: seq<Task>, need: Option<Lib>, si: Lib)
    requires ChildrenAre(s0, s, tasks) && (need.Some? ==> need.value < s0.next)
    ensures ChildrenAre(s0, s, tasks + [Task(need, si)])
  {
    forall m | New(s0, s, m) ensures m in s.children && s.children[m] == Sis(tasks + [Task(need, si)], m) {
      SisMore(tasks, Task(need, si), m);
    }
  }

  lemma EdgeOldKept(s0: State, s: State, n: Lib, si: Lib)
    requires OldKept(s0, s) && MoreParents(s0, s) && New(s0, s, n) && forall l :: l in s0.live ==> l < s0.next
    ensures OldKept(s0, AddEdge(s, n, si)) && MoreParents(s0, AddEdge(s, n, si))
  {
  }

  lemma LinkedFrame(s0: State, s: State, tasks: seq<Task>, si: Lib, need: Option<Lib>, startWith: Option<Lib>)
    requires Framed(s0, s, tasks) && Domains(s0) && Domains(s) && si in s.live
    requires (startWith.Some? ==> startWith.value < s0.next) && NewNeed(s0, s, need, startWith)
    ensures Framed(s0, Linked(s, si, need, startWith), tasks + [Task(need, si)]) && Domains(Linked(s, si, need, startWith))
  {
    if need.Some? && need != startWith {
      AddEdgeDomains(s, need.value, si);
      EdgeChildren(s0, s, tasks, need.value, si);
      EdgeOldKept(s0, s, need.value, si);
    } else {
      NoEdgeChildren(s0, s, tasks, need, si);
    }
  }

  lemma NotNeededYet(s0: State, s: State, tasks: seq<Task>, startWith: Option<Lib>)
    requires NewNeeds(s0, s, Needers(tasks), startWith) && (startWith.Some? ==> startWith.value < s0.next) && s0.next <= s.next
    ensures forall k :: 0 <= k < |tasks| ==> tasks[k].neededBy != Some(s.next)
  {
    forall k | 0 <= k < |tasks| ensures tasks[k].neededBy != Some(s.next) {
      assert NewNeed(s0, s, Needers(tasks)[k], startWith);
    }
  }

  lemma NeedsStay(s0: State, s: State, u: State, needs: seq<Option<Lib>>, startWith: Option<Lib>)
    requires s.next <= u.next && NewNeeds(s0, s, needs, startWith)
    ensures NewNeeds(s0, u, needs, startWith)
  {
    forall k | 0 <= k < |needs| ensures NewNeed(s0, u, needs[k], startWith) {
      assert NewNeed(s0, s, needs[k], startWith);
    }
  }

  lemma NeedsBoth(s0: State, s: State, a: seq<Option<Lib>>, b: seq<Option<Lib>>, startWith: Option<Lib>)
    requires NewNeeds(s0, s, a, startWith) && NewNeeds(s0, s, b, startWith)
    ensures NewNeeds(s0, s, a + b, startWith)
  {
    forall k | 0 <= k < |a + b| ensures NewNeed(s0, s, (a + b)[k], startWith) {
      assert NewNeed(s0, s, if k < |a| then a[k] else b[k - |a|], startWith);
    }
  }

  lemma NeedsRest(s0: State, s: State, a: seq<Option<Lib>>, startWith: Option<Lib>)
    requires NewNeeds(s0, s, a, startWith) && a != []
    ensures NewNeed(s0, s, a[0], startWith) && NewNeeds(s0, s, a[1..], startWith)
  {
    forall k | 0 <= k < |a[1..]| ensures NewNeed(s0, s, a[1..][k], startWith) {
      assert NewNeed(s0, s, a[k + 1], startWith);
    }
  }

  lemma NeedersMore(tasks: seq<Task>, t: Task)
    ensures Needers(tasks + [t]) == Needers(tasks) + [t.neededBy]
  {
  }

  lemma StepNeeds(s0: State, s: State, u: State, tasks: seq<Task>, si: Lib, pending: seq<Option<Lib>>, added: seq<Option<Lib>>, startWith: Option<Lib>)
    requires s.next <= u.next && pending != [] && forall k :: 0 <= k < |added| ==> added[k] == Some(si) && New(s0, u, si)
    requires NewNeeds(s0, s, Needers(tasks), startWith) && NewNeeds(s0, s, pending, startWith)
    ensures NewNeeds(s0, u, Needers(tasks + [Task(pending[0], si)]), startWith) && NewNeeds(s0, u, pending[1..] + added, startWith)
  {
    NeedsStay(s0, s, u, Needers(tasks), startWith);
    NeedsStay(s0, s, u, pending, startWith);
    NeedsRest(s0, u, pending, startWith);
    NeedersMore(tasks, Task(pending[0], si));
    NeedsBoth(s0, u, Needers(tasks), [pending[0]], startWith);
    NeedsBoth(s0, u, pending[1..], added, startWith);
  }

  lemma FrameStep(s0: State, s: State, r: Resolution, t: State, si: Lib, tasks: seq<Task>, need: Option<Lib>, startWith: Option<Lib>)
    requires Framed(s0, s, tasks) && Domains(s0) && Domains(s) && Resolves(s, r) && (t, si) == Resolved(s, r)
    requires (startWith.Some? ==> startWith.value < s0.next) && NewNeed(s0, s, need, startWith)
    requires forall k :: 0 <= k < |tasks| ==> tasks[k].neededBy != Some(s.next)
    ensures Framed(s0, Linked(t, si, need, startWith), tasks + [Task(need, si)]) && Domains(Linked(t, si, need, startWith))
  {
    ResolvedFrame(s0, s, r, tasks, t, si);
    LinkedFrame(s0, t, tasks, si, need, startWith);
  }

  lemma {:induction false} ExpandedFrame(s0: State, s: State, tasks: seq<Task>, pending: seq<Option<Lib>>, startWith: Option<Lib>, plan: seq<Resolution>, i: nat)
    requires i <= |plan| && Domains(s0) && Domains(s) && Framed(s0, s, tasks) && (startWith.Some? ==> startWith.value < s0.next)
    requires NewNeeds(s0, s, Needers(tasks), startWith) && NewNeeds(s0, s, pending, startWith)
    ensures Framed(s0, Expanded(s, tasks, pending, startWith, plan, i).s, Expanded(s, tasks, pending, startWith, plan, i).tasks)
    decreases |plan| - i
  {
    if pending != [] && i < |plan| && Resolves(s, plan[i]) {
      var (t, si) := Resolved(s, plan[i]);
      var u := Linked(t, si, pending[0], startWith);
      NotNeededYet(s0, s, tasks, startWith);
      assert NewNeed(s0, s, pending[0], startWith);
      FrameStep(s0, s, plan[i], t, si, tasks, pending[0], startWith);
      StepLive(s0, s, plan[i], t, si, pending[0], startWith, u);
      StepNeeds(s0, s, u, tasks, si, pending, AddedTasks(plan[i], si), startWith);
      ExpandedFrame(s0, u, tasks + [Task(pending[0], si)], pending[1..] + AddedTasks(plan[i], si), startWith, plan, i + 1);
    }
  }

  // The tasks ----------------------------------------------------------------------

  ghost predicate LoadedBefore(tasks: seq<Task>, k: int, n: Lib)
  {
    exists j :: 0 <= j < k && j < |tasks| && tasks[j].si == n
  }

  ghost predicate NeedKnown(s0: State, s: State, tasks: seq<Task>, startWith: Option<Lib>, k: int, need: Option<Lib>)
  {
    if k == 0 then need == startWith
    else need.Some? && New(s0, s, need.value) && LoadedBefore(tasks, k, need.value)
  }

  /** Every task but the first was created for a library that an earlier task has loaded, and every new
      library was loaded by a task. */
  ghost predicate TasksKnown(s0: State, s: State, tasks: seq<Task>, startWith: Option<Lib>)
  {
    && (forall k :: 0 <= k < |tasks| ==> tasks[k].si in s.live && NeedKnown(s0, s, tasks, startWith, k, tasks[k].neededBy))
    && (forall n :: New(s0, s, n) ==> LoadedBefore(tasks, |tasks|, n))
  }

  /** The tasks that have not been resolved yet. */
  ghost predicate Due(s0: State, s: State, tasks: seq<Task>, startWith: Option<Lib>, needs: seq<Option<Lib>>)
  {
    forall k :: 0 <= k < |needs| ==> NeedKnown(s0, s, tasks, startWith, |tasks| + k, needs[k])
  }

  lemma LoadedMore(tasks: seq<Task>, t: Task, k: int, n: Lib)
    ensures LoadedBefore(tasks, k, n) ==> LoadedBefore(tasks + [t], k, n)
    ensures LoadedBefore(tasks + [t], |tasks| + 1, t.si)
  {
    if LoadedBefore(tasks, k, n) {
      var j :| 0 <= j < k && j < |tasks| && tasks[j].si == n;
      assert (tasks + [t])[j].si == n;
    }
    assert (tasks + [t])[|tasks|].si == t.si;
  }

  /** Resolving one more task keeps what is known of the others. */
  lemma TasksMore(s0: State, s: State, s': State, tasks: seq<Task>, startWith: Option<Lib>, t: Task)
    requires TasksKnown(s0, s, tasks, startWith)
    requires s.next <= s'.next && s.live <= s'.live
    requires forall n :: New(s0, s', n) ==> New(s0, s, n) || n == t.si
    requires t.si in s'.live
    requires NeedKnown(s0, s, tasks, startWith, |tasks|, t.neededBy)
    ensures TasksKnown(s0, s', tasks + [t], startWith)
  {
    var more := tasks + [t];
    forall k | 0 <= k < |more| ensures more[k].si in s'.live && NeedKnown(s0, s', more, startWith, k, more[k].neededBy) {
      if k < |tasks| {
        assert more[k] == tasks[k];
        assert NeedKnown(s0, s, tasks, startWith, k, tasks[k].neededBy);
        if k > 0 {
          LoadedMore(tasks, t, k, tasks[k].neededBy.value);
        }
      } else if k > 0 {
        LoadedMore(tasks, t, k, t.neededBy.value);
      }
    }
    forall n | New(s0, s', n) ensures LoadedBefore(more, |more|, n) {
      LoadedMore(tasks, t, |tasks|, n);
      if n != t.si {
        var j :| 0 <= j < |tasks| && tasks[j].si == n;
        assert more[j].si == n;
      }
    }
  }

  lemma NeedsMore(s0: State, s: State, s': State, tasks: seq<Task>, startWith: Option<Lib>, needs: seq<Option<Lib>>, t: Task, added: seq<Option<Lib>>)
    requires Due(s0, s, tasks, startWith, needs) && needs != []
    requires s.next <= s'.next
    requires forall k :: 0 <= k < |added| ==> added[k] == Some(t.si) && New(s0, s', t.si)
    ensures Due(s0, s', tasks + [t], startWith, needs[1..] + added)
  {
    var more, rest := tasks + [t], needs[1..] + added;
    forall k | 0 <= k < |rest| ensures NeedKnown(s0, s', more, startWith, |more| + k, rest[k]) {
      if k < |needs| - 1 {
        assert NeedKnown(s0, s, tasks, startWith, |tasks| + (k + 1), needs[k + 1]);
        LoadedMore(tasks, t, |more| + k, rest[k].value);
      } else {
        LoadedMore(tasks, t, 0, t.si);
        var j :| 0 <= j < |more| && more[j].si == t.si;
        assert LoadedBefore(more, |more| + k, t.si);
      }
    }
  }

  /** What one round does to the list of libraries. */
  lemma StepLive(s0: State, s: State, r: Resolution, t: State, si: Lib, need: Option<Lib>, startWith: Option<Lib>, u: State)
    requires s0.next <= s.next && Resolves(s, r) && (t, si) == Resolved(s, r) && u == Linked(t, si, need, startWith)
    ensures s.next <= u.next && s.live <= u.live && si in u.live
    ensures forall n :: New(s0, u, n) ==> New(s0, s, n) || n == si
    ensures forall k :: 0 <= k < |AddedTasks(r, si)| ==> AddedTasks(r, si)[k] == Some(si) && New(s0, u, si)
  {
    assert u.next == t.next && u.live == t.live;
    if r.Load? {
      assert New(s0, u, si);
    } else {
      assert AddedTasks(r, si) == [];
    }
  }

  lemma {:induction false} ExpandedTasks(s0: State, s: State, tasks: seq<Task>, pending: seq<Option<Lib>>, startWith: Option<Lib>, plan: seq<Resolution>, i: nat)
    requires i <= |plan| && s0.next <= s.next
    requires TasksKnown(s0, s, tasks, startWith) && Due(s0, s, tasks, startWith, pending)
    ensures TasksKnown(s0, Expanded(s, tasks, pending, startWith, plan, i).s, Expanded(s, tasks, pending, startWith, plan, i).tasks, startWith)
    decreases |plan| - i
  {
    if pending != [] && i < |plan| && Resolves(s, plan[i]) {
      var (t, si) := Resolved(s, plan[i]);
      var u := Linked(t, si, pending[0], startWith);
      assert NeedKnown(s0, s, tasks, startWith, |tasks| + 0, pending[0]);
      StepLive(s0, s, plan[i], t, si, pending[0], startWith, u);
      TasksMore(s0, s, u, tasks, startWith, Task(pending[0], si));
      NeedsMore(s0, s, u, tasks, startWith, pending, Task(pending[0], si), AddedTasks(plan[i], si));
      ExpandedTasks(s0, u, tasks + [Task(pending[0], si)], pending[1..] + AddedTasks(plan[i], si), startWith, plan, i + 1);
    }
  }

  lemma {:induction false} ExpandedMore(s: State, tasks: seq<Task>, pending: seq<Option<Lib>>, startWith: Option<Lib>, plan: seq<Resolution>, i: nat)
    requires i <= |plan|
    ensures tasks <= Expanded(s, tasks, pending, startWith, plan, i).tasks
    decreases |plan| - i
  {
    if pending != [] && i < |plan| && Resolves(s, plan[i]) {
      var (t, si) := Resolved(s, plan[i]);
      ExpandedMore(Linked(t, si, pending[0], startWith), tasks + [Task(pending[0], si)], pending[1..] + AddedTasks(plan[i], si), startWith, plan, i + 1);
    }
  }

  // All of it ----------------------------------------------------------------------

  /** The library that was asked for is new, unless it was loaded and nothing had to be done. */
  ghost predicate FirstIs(s0: State, x: Expansion, startWith: Option<Lib>)
  {
    if x.tasks == [] then !x.ok && x.s == s0
    else New(s0, x.s, x.tasks[0].si) || (x.tasks[0].si in s0.live && x == Expansion(true, s0, [Task(startWith, x.tasks[0].si)]))
  }

  lemma FirstTask(s0: State, startWith: Option<Lib>, plan: seq<Resolution>)
    requires forall l :: l in s0.live ==> l < s0.next
    requires Added(s0, StepOne(s0, startWith, plan).s)
    requires TasksKnown(s0, StepOne(s0, startWith, plan).s, StepOne(s0, startWith, plan).tasks, startWith)
    ensures FirstIs(s0, StepOne(s0, startWith, plan), startWith)
    ensures plan != [] && plan[0].Found? && plan[0].lib in s0.live ==>
              StepOne(s0, startWith, plan) == Expansion(true, s0, [Task(startWith, plan[0].lib)])
  {
    if plan != [] && Resolves(s0, plan[0]) {
      var (t, si) := Resolved(s0, plan[0]);
      var pending, tasks := [startWith], [] + [Task(startWith, si)];
      assert pending[1..] + AddedTasks(plan[0], si) == AddedTasks(plan[0], si);
      assert StepOne(s0, startWith, plan) == Expanded(t, tasks, AddedTasks(plan[0], si), startWith, plan, 1);
      ExpandedMore(t, tasks, AddedTasks(plan[0], si), startWith, plan, 1);
      assert StepOne(s0, startWith, plan).tasks[0] == tasks[0];
    }
  }

  lemma FrameBegins(s0: State, startWith: Option<Lib>)
    requires Domains(s0)
    ensures Framed(s0, s0, []) && NewNeeds(s0, s0, Needers([]), startWith) && NewNeeds(s0, s0, [startWith], startWith)
    ensures TasksKnown(s0, s0, [], startWith) && Due(s0, s0, [], startWith, [startWith]) && LooseNeeds(s0, [startWith], startWith)
  {
  }

  /** What steps 2 to 7 rely on. */
  ghost predicate Started(s0: State, x: Expansion, startWith: Option<Lib>)
  {
    Framed(s0, x.s, x.tasks) && TasksKnown(s0, x.s, x.tasks, startWith) && FirstIs(s0, x, startWith)
  }

  lemma StepOneStarted(s0: State, startWith: Option<Lib>, plan: seq<Resolution>)
    requires Domains(s0) && (startWith.Some? ==> startWith.value < s0.next)
    ensures Started(s0, StepOne(s0, startWith, plan), startWith)
  {
    FrameBegins(s0, startWith);
    ExpandedFrame(s0, s0, [], [startWith], startWith, plan, 0);
    ExpandedTasks(s0, s0, [], [startWith], startWith, plan, 0);
    FirstTask(s0, startWith, plan);
  }

  lemma StepOneInv(s0: State, startWith: Option<Lib>, plan: seq<Resolution>)
    requires Inv(s0, [])
    ensures Inv(StepOne(s0, startWith, plan).s, [])
  {
    FrameBegins(s0, startWith);
    ExpandedInv(s0, [], [startWith], startWith, plan, 0);
  }

  /** A library that is not linked yet leads no group. */
  lemma LoadedUsed(s0: State, s: State)
    requires Domains(s0) && Added(s0, s) && OldKept(s0, s) && AllUsed(s0)
    ensures AllUsed(s)
  {
    forall r ensures !Unused(s, r) {
      assert Unused(s, r) ==> Unused(s0, r);
    }
  }

  lemma NewIsUnlinked(s0: State, s: State, n: Lib)
    requires Domains(s0) && Domains(s) && Added(s0, s) && New(s0, s, n)
    ensures n in s.live && n in s.children && n in s.parents && n !in s.linked
  {
  }
}
