/**
  The loader's global state: the `soinfo` records of every loaded library, the dependency
  graph between them, the local groups they were linked in, and the references that keep a
  group loaded.

  A `soinfo*` is modelled by a number that is never handed out twice; the fields of the
  records are maps keyed by it.
 */
module Soinfo {

  type Lib = nat
  type Namespace = nat
  type Address = nat

  datatype State = State(
    next: nat,                              // every soinfo allocated so far is below `next`
    live: set<Lib>,                         // the solist
    children: map<Lib, seq<Lib>>,           // one entry for each DT_NEEDED edge
    parents: map<Lib, seq<Lib>>,
    linked: set<Lib>,                       // FLAG_LINKED
    groupRoot: map<Lib, Lib>,               // local_group_root_, absent while null
    refs: map<Lib, nat>,                    // ref_count_
    keep: set<Lib>,                         // RTLD_NODELETE or RTLD_GLOBAL
    namespace: map<Lib, Namespace>,         // primary_namespace_
    secondary: map<Lib, set<Namespace>>,    // secondary_namespaces_
    image: map<Lib, set<Address>>,          // addresses covered by the PT_LOAD segments
    exe: Lib,                               // start_with of the initial link
    opens: map<Lib, nat>,                   // dlopen handles the program has not closed yet
    dso: map<Address, nat>)                 // g_dso_handle_counters

  // ---------------------------------------------------------------------------------
  // What refers to a group
  // ---------------------------------------------------------------------------------

  /** The number of entries of `libs` whose local group root is `r`. */
  ghost function CountInto(libs: seq<Lib>, root: map<Lib, Lib>, r: Lib): nat
  {
    if libs == [] then 0
    else (if libs[0] in root && root[libs[0]] == r then 1 else 0) + CountInto(libs[1..], root, r)
  }

  /** The dso-handles with a non-zero counter that lie inside an image. */
  ghost function DsoIn(dso: map<Address, nat>, image: set<Address>): set<Address>
  {
    set h | h in dso && dso[h] > 0 && h in image
  }

  /** The number of open handles and dso-handles on library `l`. */
  ghost function Handles(s: State, l: Lib): nat
  {
    (if l in s.opens then s.opens[l] else 0) + (if l in s.image then |DsoIn(s.dso, s.image[l])| else 0)
  }

  /** What library `l` contributes to the reference count of the group of `r`: the open handles and
      dso-handles on `l` if it is a member, and its dependency edges into the group if it is not.
      Edges of the executable are not counted, and neither is anything of an unlinked library. */
  ghost function Contribution(s: State, l: Lib, r: Lib): nat
  {
    if l !in s.live || l !in s.linked || l !in s.groupRoot then 0
    else if s.groupRoot[l] == r then Handles(s, l)
    else if l == s.exe || l !in s.children then 0
    else CountInto(s.children[l], s.groupRoot, r)
  }

  /** The contributions of all libraries below `n`. */
  ghost function Held(s: State, r: Lib, n: nat): nat
  {
    if n == 0 then 0 else Held(s, r, n - 1) + Contribution(s, n - 1, r)
  }

  /** The reference count of `r` is exactly what is held on its group, plus the references that are
      still waiting to be released; nothing refers to a group whose root has been freed. */
  ghost predicate Balanced(s: State, pending: seq<Lib>, r: Lib)
  {
    var held := Held(s, r, s.next) + CountInto(pending, s.groupRoot, r);
    if r in s.live then r in s.refs && s.refs[r] == held else held == 0
  }

  ghost predicate Accounts(s: State, pending: seq<Lib>)
  {
    forall r: Lib :: Balanced(s, pending, r)
  }

  // ---------------------------------------------------------------------------------
  // Shape of the state
  // ---------------------------------------------------------------------------------

  ghost predicate Domains(s: State)
  {
    && (forall l :: l in s.live ==> l < s.next)
    && s.children.Keys == s.live
    && s.parents.Keys == s.live
    && s.refs.Keys == s.live
    && s.opens.Keys == s.live
    && s.image.Keys == s.live
    && s.namespace.Keys == s.live
    && s.secondary.Keys == s.live
    && s.linked <= s.live
    && s.linked <= s.groupRoot.Keys
    && (forall l :: l in s.linked ==> s.groupRoot[l] < s.next)
  }

  /** Every edge is recorded on both sides. */
  ghost predicate Symmetric(s: State)
    requires Domains(s)
  {
    && (forall l, c {:trigger c in s.children[l]} :: l in s.live && c in s.children[l] ==> c in s.live && l in s.parents[c])
    && (forall l, p {:trigger p in s.parents[l]} :: l in s.live && p in s.parents[l] ==> p in s.live && l in s.children[p])
  }

  /** A linked library depends on linked libraries only, and a group root leads its own group for as
      long as it is loaded. */
  ghost predicate GroupsFormed(s: State)
    requires Domains(s)
  {
    && (forall l, c {:trigger c in s.children[l]} :: l in s.linked && c in s.children[l] ==> c in s.linked)
    && (forall l :: l in s.linked && s.groupRoot[l] in s.live ==> LeadsItself(s, s.groupRoot[l]))
  }

  ghost predicate LeadsItself(s: State, r: Lib)
    requires Domains(s)
  {
    r in s.linked && s.groupRoot[r] == r
  }

  /** Once it is linked, the executable and the groups it depends on stay for ever. */
  ghost predicate Pinned(s: State)
    requires Domains(s)
  {
    s.exe in s.linked ==>
      && s.groupRoot[s.exe] == s.exe && s.exe in s.keep
      && forall c {:trigger c in s.children[s.exe]} :: c in s.children[s.exe] && c in s.linked ==> s.groupRoot[c] in s.live && s.groupRoot[c] in s.keep
  }

  ghost predicate Apart(image: map<Lib, set<Address>>)
  {
    forall l, m {:trigger image[l], image[m]} :: l in image && m in image && l != m ==> image[l] !! image[m]
  }

  /** A dso-handle with a non-zero counter lies in a linked library. */
  ghost predicate Owned(linked: set<Lib>, image: map<Lib, set<Address>>, dso: map<Address, nat>)
  {
    forall h :: h in dso && dso[h] > 0 ==> exists l :: l in linked && l in image && h in image[l]
  }

  ghost predicate HandlesOwned(s: State)
    requires Domains(s)
  {
    && Apart(s.image)
    && Owned(s.linked, s.image, s.dso)
    && (forall l :: l in s.live && l !in s.linked ==> s.opens[l] == 0)
  }

  ghost predicate WellFormed(s: State)
  {
    && Domains(s)
    && Symmetric(s)
    && GroupsFormed(s)
    && Pinned(s)
    && HandlesOwned(s)
  }

  /** The invariant of the loader while the references in `pending` wait to be released. */
  ghost predicate Inv(s: State, pending: seq<Lib>)
  {
    WellFormed(s) && Accounts(s, pending) && forall p :: p in pending ==> p in s.linked
  }

  /** `list.remove(x)`: drops every occurrence, keeps the order of the rest. */
  function Without(libs: seq<Lib>, x: Lib): (r: seq<Lib>)
    ensures forall y :: y in r <==> y in libs && y != x
    ensures x !in libs ==> r == libs
  {
    if libs == [] then [] else (if libs[0] == x then [] else [libs[0]]) + Without(libs[1..], x)
  }

  // ---------------------------------------------------------------------------------
  // Counting lemmas
  // ---------------------------------------------------------------------------------

  lemma {:induction false} CountConcat(a: seq<Lib>, b: seq<Lib>, root: map<Lib, Lib>, r: Lib)
    ensures CountInto(a + b, root, r) == CountInto(a, root, r) + CountInto(b, root, r)
  {
    if a == [] {
      assert a + b == b;
    } else {
      CountConcat(a[1..], b, root, r);
      assert (a + b)[1..] == a[1..] + b;
    }
  }

  lemma {:induction false} CountPositive(libs: seq<Lib>, root: map<Lib, Lib>, r: Lib, x: Lib)
    requires x in libs && x in root && root[x] == r
    ensures CountInto(libs, root, r) > 0
  {
    if libs[0] != x {
      CountPositive(libs[1..], root, r, x);
    }
  }

  lemma {:induction false} CountZero(libs: seq<Lib>, root: map<Lib, Lib>, r: Lib)
    requires forall x :: x in libs && x in root ==> root[x] != r
    ensures CountInto(libs, root, r) == 0
  {
    if libs != [] {
      assert forall x :: x in libs[1..] ==> x in libs;
      CountZero(libs[1..], root, r);
    }
  }

  /** Only the roots of the listed libraries matter. */
  lemma {:induction false} CountSameRoots(libs: seq<Lib>, root: map<Lib, Lib>, root': map<Lib, Lib>, r: Lib)
    requires forall x :: x in libs ==> x in root && x in root' && root[x] == root'[x]
    ensures CountInto(libs, root, r) == CountInto(libs, root', r)
  {
    if libs != [] {
      assert forall x :: x in libs[1..] ==> x in libs;
      CountSameRoots(libs[1..], root, root', r);
    }
  }

  lemma {:induction false} CountWithout(libs: seq<Lib>, x: Lib, root: map<Lib, Lib>, r: Lib)
    requires x in root ==> root[x] != r
    ensures CountInto(Without(libs, x), root, r) == CountInto(libs, root, r)
  {
    if libs != [] {
      CountWithout(libs[1..], x, root, r);
      var head := if libs[0] == x then [] else [libs[0]];
      CountConcat(head, Without(libs[1..], x), root, r);
    }
  }

  lemma {:induction false} HeldSame(s: State, t: State, r: Lib, n: nat)
    requires forall l: Lib :: l < n ==> Contribution(s, l, r) == Contribution(t, l, r)
    ensures Held(s, r, n) == Held(t, r, n)
  {
    if n > 0 {
      HeldSame(s, t, r, n - 1);
    }
  }

  /** Changing one library changes the total by what that library's contribution changed. */
  lemma {:induction false} HeldChange(s: State, t: State, r: Lib, n: nat, k: Lib)
    requires k < n
    requires forall l: Lib :: l < n && l != k ==> Contribution(s, l, r) == Contribution(t, l, r)
    ensures Held(s, r, n) - Contribution(s, k, r) == Held(t, r, n) - Contribution(t, k, r)
  {
    if k == n - 1 {
      HeldSame(s, t, r, n - 1);
    } else {
      HeldChange(s, t, r, n - 1, k);
    }
  }

  lemma {:induction false} HeldIncludes(s: State, r: Lib, n: nat, k: Lib)
    requires k < n
    ensures Contribution(s, k, r) <= Held(s, r, n)
  {
    if k != n - 1 {
      HeldIncludes(s, r, n - 1, k);
    }
  }

  lemma {:induction false} HeldNothing(s: State, r: Lib, n: nat)
    requires forall l: Lib :: l < n ==> Contribution(s, l, r) == 0
    ensures Held(s, r, n) == 0
  {
    if n > 0 {
      HeldNothing(s, r, n - 1);
    }
  }

  // ---------------------------------------------------------------------------------
  // What a balanced count of zero means
  // ---------------------------------------------------------------------------------

  /** Nothing outside the group of `r` depends on a member, and no handle is open on one. */
  ghost predicate Unreferenced(s: State, pending: seq<Lib>, r: Lib)
    requires Domains(s)
  {
    forall m :: m in s.linked && s.groupRoot[m] == r ==>
      && s.opens[m] == 0
      && DsoIn(s.dso, s.image[m]) == {}
      && m !in pending
      && forall p {:trigger p in s.parents[m]} :: p in s.parents[m] && p in s.linked ==> s.groupRoot[p] == r
  }

  /** A zero count means that the group is unreferenced. */
  lemma ZeroMeansUnreferenced(s: State, pending: seq<Lib>, r: Lib)
    requires WellFormed(s)
    requires Held(s, r, s.next) + CountInto(pending, s.groupRoot, r) == 0
    requires r !in s.keep
    ensures Unreferenced(s, pending, r)
  {
    forall m | m in s.linked && s.groupRoot[m] == r
      ensures s.opens[m] == 0 && DsoIn(s.dso, s.image[m]) == {} && m !in pending
    {
      HeldIncludes(s, r, s.next, m);
      assert Contribution(s, m, r) == Handles(s, m);
      if m in pending {
        CountPositive(pending, s.groupRoot, r, m);
      }
    }
    forall m, p | m in s.linked && s.groupRoot[m] == r && p in s.parents[m] && p in s.linked
      ensures s.groupRoot[p] == r
    {
      if s.groupRoot[p] != r {
        HeldIncludes(s, r, s.next, p);
        assert m in s.children[p];
        if p != s.exe {
          CountPositive(s.children[p], s.groupRoot, r, m);
        }
      }
    }
  }

  /** A library that leads no group has no references of its own. */
  lemma NobodyLed(s: State, pending: seq<Lib>, x: Lib)
    requires WellFormed(s) && (forall p :: p in pending ==> p in s.linked)
    requires x in s.live && !LeadsItself(s, x)
    ensures Held(s, x, s.next) + CountInto(pending, s.groupRoot, x) == 0
  {
    forall l | l in s.linked ensures s.groupRoot[l] != x {
      assert s.groupRoot[l] in s.live ==> LeadsItself(s, s.groupRoot[l]);
    }
    forall l: Lib | l < s.next ensures Contribution(s, l, x) == 0 {
      if l in s.linked {
        CountZero(s.children[l], s.groupRoot, x);
      }
    }
    HeldNothing(s, x, s.next);
    CountZero(pending, s.groupRoot, x);
  }

  /** Conversely, whatever is referred to has a loaded root with a positive count. */
  lemma ReferredRootIsLive(s: State, pending: seq<Lib>, m: Lib)
    requires Inv(s, pending)
    requires m in s.linked
    requires m in pending || s.opens[m] > 0 || DsoIn(s.dso, s.image[m]) != {}
    ensures s.groupRoot[m] in s.live && s.refs[s.groupRoot[m]] > 0
  {
    var r := s.groupRoot[m];
    assert Balanced(s, pending, r);
    if m in pending {
      CountPositive(pending, s.groupRoot, r, m);
    } else {
      HeldIncludes(s, r, s.next, m);
      assert Contribution(s, m, r) == Handles(s, m);
    }
  }

  // ---------------------------------------------------------------------------------
  // Groups that nothing refers to
  // ---------------------------------------------------------------------------------

  /** A group that nothing refers to, and that is not flagged to stay. */
  ghost predicate Unused(s: State, r: Lib)
  {
    r in s.linked && r in s.groupRoot && s.groupRoot[r] == r && r in s.refs && s.refs[r] == 0 && r !in s.keep
  }

  /** No group is loaded without need. */
  ghost predicate AllUsed(s: State)
  {
    forall r :: !Unused(s, r)
  }

  /** No group but that of `x` is loaded without need. */
  ghost predicate UsedBut(s: State, x: Lib)
  {
    forall r :: Unused(s, r) ==> r == x
  }

  // ---------------------------------------------------------------------------------
  // Leftovers
  // ---------------------------------------------------------------------------------

  /** A library left over from an earlier call: it was never linked, or its group root has been freed. */
  ghost predicate Stray(s: State, l: Lib)
  {
    l in s.live && (l !in s.linked || l !in s.groupRoot || s.groupRoot[l] !in s.live)
  }

  ghost predicate Clean(s: State)
  {
    forall l :: !Stray(s, l)
  }

  /** A library that was loaded and never linked. */
  ghost predicate Loose(s: State, l: Lib)
  {
    l in s.live && l !in s.linked
  }

  ghost predicate HeldByLoose(s: State, l: Lib)
  {
    l in s.parents && exists p :: p in s.parents[l] && Loose(s, p)
  }

  /** Libraries that a failed call has left behind hold each other. */
  ghost predicate Knotted(s: State)
  {
    forall l :: Loose(s, l) ==> HeldByLoose(s, l)
  }

  /** Allocated by a call that started in `s0`. */
  ghost predicate New(s0: State, s: State, n: Lib)
  {
    s0.next <= n < s.next
  }

  /** The entries of the libraries in `libs` are the same. */
  ghost predicate Kept<V>(libs: set<Lib>, m: map<Lib, V>, m': map<Lib, V>)
  {
    forall l :: l in libs && l in m ==> l in m' && m'[l] == m[l]
  }

  /** Libraries have been allocated, and none was freed. */
  ghost predicate Grew(live: set<Lib>, next: nat, live': set<Lib>, next': nat)
  {
    && next <= next' && live <= live'
    && (forall l :: l in live' ==> l in live || next <= l)
    && (forall l: Lib {:trigger l in live'} :: next <= l < next' ==> l in live')
  }

  /** The shape of the state does not depend on the reference counts. */
  lemma RefsOnly(s: State, t: State)
    requires WellFormed(s)
    requires t == s.(refs := t.refs) && t.refs.Keys == s.refs.Keys
    ensures WellFormed(t)
  {
    assert Domains(t);
    forall l | l in t.linked && t.groupRoot[l] in t.live ensures LeadsItself(t, t.groupRoot[l]) {
      assert LeadsItself(s, s.groupRoot[l]);
    }
  }

  /** An unlinked library has no handles. */
  lemma LooseHasNoHandles(s: State, x: Lib)
    requires Domains(s) && HandlesOwned(s) && Loose(s, x)
    ensures s.opens[x] == 0 && DsoIn(s.dso, s.image[x]) == {} && Handles(s, x) == 0
  {
    forall h | h in s.dso && s.dso[h] > 0 ensures h !in s.image[x] {
      var l :| l in s.linked && h in s.image[l];
    }
    assert DsoIn(s.dso, s.image[x]) == {};
  }

  // ---------------------------------------------------------------------------------
  // The sum of all reference counts
  // ---------------------------------------------------------------------------------

  ghost function TotalRefs(refs: map<Lib, nat>, n: nat): nat
  {
    if n == 0 then 0 else TotalRefs(refs, n - 1) + if n - 1 in refs then refs[n - 1] else 0
  }

  lemma {:induction false} TotalSame(refs: map<Lib, nat>, refs': map<Lib, nat>, n: nat)
    requires forall l: Lib :: l < n ==> (if l in refs then refs[l] else 0) == (if l in refs' then refs'[l] else 0)
    ensures TotalRefs(refs, n) == TotalRefs(refs', n)
  {
    if n > 0 {
      TotalSame(refs, refs', n - 1);
    }
  }

  lemma {:induction false} TotalDrops(refs: map<Lib, nat>, r: Lib, n: nat)
    requires r in refs && refs[r] > 0 && r < n
    ensures TotalRefs(refs[r := refs[r] - 1], n) == TotalRefs(refs, n) - 1
  {
    if r == n - 1 {
      TotalSame(refs, refs[r := refs[r] - 1], n - 1);
    } else {
      TotalDrops(refs, r, n - 1);
    }
  }

  /** `t` is `s` after some libraries have been freed: nothing else about the others has changed but their
      edges and reference counts. */
  ghost predicate Shrunk(s: State, t: State)
  {
    && t.next == s.next && t.exe == s.exe && t.keep == s.keep && t.dso == s.dso && t.groupRoot == s.groupRoot
    && t.live <= s.live
    && t.linked == s.linked * t.live
    && (s.exe in s.linked ==> s.exe in t.linked)
    && (forall l :: l in t.live && l in s.opens && l in t.opens ==> t.opens[l] == s.opens[l])
  }
}
