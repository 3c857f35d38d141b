/**
  The references a program takes and gives back itself: open handles and dso-handles.
 */
module References {
  import opened Soinfo

  /** The references on library `l` change by `d`; nothing else does, but for the reference count of its group. */
  ghost predicate HandleStep(s: State, t: State, l: Lib, d: int)
  {
    && t == s.(opens := t.opens, dso := t.dso, refs := t.refs)
    && l in s.live && l in s.linked && l in s.groupRoot
    && Handles(t, l) == Handles(s, l) + d
    && forall m :: m != l ==> Handles(t, m) == Handles(s, m)
  }

  lemma HandleHeld(s: State, t: State, l: Lib, d: int, r: Lib)
    requires HandleStep(s, t, l, d) && l < s.next
    ensures Held(t, r, s.next) == Held(s, r, s.next) + if s.groupRoot[l] == r then d else 0
  {
    HeldChange(s, t, r, s.next, l);
  }

  /** Taking a reference keeps the accounts. */
  lemma TakeAccounts(s: State, t: State, l: Lib)
    requires Accounts(s, []) && HandleStep(s, t, l, 1) && l < s.next
    requires s.groupRoot[l] in s.live && s.groupRoot[l] in s.refs
    requires t == s.(opens := t.opens, dso := t.dso, refs := s.refs[s.groupRoot[l] := s.refs[s.groupRoot[l]] + 1])
    ensures Accounts(t, [])
  {
    forall r: Lib ensures Balanced(t, [], r) {
      assert Balanced(s, [], r);
      HandleHeld(s, t, l, 1, r);
    }
  }

  /** Giving a reference back makes it pending. */
  lemma GiveAccounts(s: State, t: State, l: Lib)
    requires Accounts(s, []) && HandleStep(s, t, l, -1) && l < s.next
    requires t == s.(opens := t.opens, dso := t.dso)
    ensures Accounts(t, [l])
  {
    forall r: Lib ensures Balanced(t, [l], r) {
      assert Balanced(s, [], r);
      HandleHeld(s, t, l, -1, r);
    }
  }

  /** Handles do not affect the shape of the state. */
  lemma HandleShape(s: State, t: State)
    requires WellFormed(s)
    requires t == s.(opens := t.opens, dso := t.dso, refs := t.refs)
    requires (forall l :: l in t.opens <==> l in s.opens) && (forall l :: l in t.refs <==> l in s.refs)
    requires Owned(t.linked, t.image, t.dso)
    requires forall l :: l in s.live && l !in s.linked ==> t.opens[l] == 0
    ensures WellFormed(t)
  {
    assert t.opens.Keys == s.opens.Keys && t.refs.Keys == s.refs.Keys;
    assert Domains(t);
    forall l | l in t.linked && t.groupRoot[l] in t.live ensures LeadsItself(t, t.groupRoot[l]) {
      assert LeadsItself(s, s.groupRoot[l]);
    }
  }

  function OpenHandle(s: State, l: Lib): State
    requires l in s.opens && l in s.groupRoot && s.groupRoot[l] in s.refs
  {
    s.(opens := s.opens[l := s.opens[l] + 1], refs := s.refs[s.groupRoot[l] := s.refs[s.groupRoot[l]] + 1])
  }

  lemma OpenStep(s: State, l: Lib)
    requires l in s.opens && l in s.linked && l in s.live && l in s.groupRoot && s.groupRoot[l] in s.refs
    ensures HandleStep(s, OpenHandle(s, l), l, 1)
  {
  }

  lemma OpenHandleInv(s: State, l: Lib)
    requires Inv(s, []) && l in s.linked && s.groupRoot[l] in s.live
    ensures Inv(OpenHandle(s, l), [])
  {
    OpenStep(s, l);
    TakeAccounts(s, OpenHandle(s, l), l);
    OpenShape(s, l);
  }

  lemma OpenShape(s: State, l: Lib)
    requires WellFormed(s) && l in s.linked && s.groupRoot[l] in s.live
    ensures WellFormed(OpenHandle(s, l))
  {
    HandleShape(s, OpenHandle(s, l));
  }

  function CloseHandle(s: State, l: Lib): State
    requires l in s.opens && s.opens[l] > 0
  {
    s.(opens := s.opens[l := s.opens[l] - 1])
  }

  lemma CloseStep(s: State, l: Lib)
    requires l in s.opens && s.opens[l] > 0 && l in s.linked && l in s.live && l in s.groupRoot
    ensures HandleStep(s, CloseHandle(s, l), l, -1)
  {
  }

  lemma CloseHandleInv(s: State, l: Lib)
    requires Inv(s, []) && l in s.live && s.opens[l] > 0
    ensures l in s.linked && Inv(CloseHandle(s, l), [l])
  {
    CloseStep(s, l);
    GiveAccounts(s, CloseHandle(s, l), l);
    CloseShape(s, l);
  }

  lemma CloseShape(s: State, l: Lib)
    requires WellFormed(s) && l in s.live && s.opens[l] > 0
    ensures WellFormed(CloseHandle(s, l))
  {
    HandleShape(s, CloseHandle(s, l));
  }

  /** A counter that becomes non-zero, or zero, is one handle more, or less, in the image it lies in. */
  lemma CounterStarts(dso: map<Address, nat>, h: Address, n: nat, image: set<Address>)
    requires h !in dso || dso[h] == 0
    requires n > 0
    ensures |DsoIn(dso[h := n], image)| == |DsoIn(dso, image)| + if h in image then 1 else 0
  {
    assert DsoIn(dso[h := n], image) == DsoIn(dso, image) + if h in image then {h} else {};
  }

  lemma CounterStops(dso: map<Address, nat>, h: Address, image: set<Address>)
    requires h in dso && dso[h] > 0
    ensures |DsoIn(dso[h := 0], image)| == |DsoIn(dso, image)| - if h in image then 1 else 0
  {
    assert DsoIn(dso[h := 0], image) + (if h in image then {h} else {}) == DsoIn(dso, image);
  }

  lemma CounterSame(dso: map<Address, nat>, dso': map<Address, nat>, image: set<Address>)
    requires SameCounted(dso, dso')
    ensures DsoIn(dso, image) == DsoIn(dso', image)
  {
  }

  function StartHandle(s: State, h: Address, l: Lib): State
    requires l in s.groupRoot && s.groupRoot[l] in s.refs
  {
    s.(dso := s.dso[h := 1], refs := s.refs[s.groupRoot[l] := s.refs[s.groupRoot[l]] + 1])
  }

  /** Images do not overlap, so that one library has one handle more. */
  lemma StartStep(s: State, h: Address, l: Lib)
    requires Apart(s.image) && (h !in s.dso || s.dso[h] == 0)
    requires l in s.live && l in s.linked && l in s.groupRoot && l in s.image && h in s.image[l] && s.groupRoot[l] in s.refs
    ensures HandleStep(s, StartHandle(s, h, l), l, 1)
  {
    var t := StartHandle(s, h, l);
    forall m ensures Handles(t, m) == Handles(s, m) + if m == l then 1 else 0 {
      if m in s.image {
        CounterStarts(s.dso, h, 1, s.image[m]);
        assert m != l ==> s.image[m] !! s.image[l];
      }
    }
  }

  lemma StartHandleInv(s: State, h: Address, l: Lib)
    requires Inv(s, []) && (h !in s.dso || s.dso[h] == 0)
    requires l in s.linked && h in s.image[l] && s.groupRoot[l] in s.live
    ensures Inv(StartHandle(s, h, l), [])
  {
    StartStep(s, h, l);
    TakeAccounts(s, StartHandle(s, h, l), l);
    StartOwned(s.linked, s.image, s.dso, h, l);
    HandleShape(s, StartHandle(s, h, l));
  }

  lemma StartOwned(linked: set<Lib>, image: map<Lib, set<Address>>, dso: map<Address, nat>, h: Address, l: Lib)
    requires Owned(linked, image, dso) && l in linked && l in image && h in image[l]
    ensures Owned(linked, image, dso[h := 1])
  {
  }

  function StopHandle(s: State, h: Address): State
  {
    s.(dso := s.dso[h := 0])
  }

  lemma StopHandleInv(s: State, h: Address, l: Lib)
    requires Inv(s, []) && h in s.dso && s.dso[h] > 0
    requires l in s.linked && h in s.image[l]
    ensures Inv(StopHandle(s, h), [l])
  {
    var t := StopHandle(s, h);
    forall m ensures Handles(t, m) == Handles(s, m) + if m == l then -1 else 0 {
      if m in s.image {
        CounterStops(s.dso, h, s.image[m]);
        assert m != l ==> s.image[m] !! s.image[l];
      }
    }
    GiveAccounts(s, t, l);
    HandleShape(s, t);
  }

  /** Counters stay zero or stay above zero. */
  ghost predicate SameCounted(dso: map<Address, nat>, dso': map<Address, nat>)
  {
    forall h :: (h in dso && dso[h] > 0) <==> (h in dso' && dso'[h] > 0)
  }

  lemma CountersAccounts(s: State, dso: map<Address, nat>, pending: seq<Lib>)
    requires Accounts(s, pending) && SameCounted(s.dso, dso)
    ensures Accounts(s.(dso := dso), pending)
  {
    var t := s.(dso := dso);
    forall m ensures Handles(t, m) == Handles(s, m) {
      if m in s.image {
        CounterSame(s.dso, dso, s.image[m]);
      }
    }
    forall r: Lib ensures Balanced(t, pending, r) {
      assert Balanced(s, pending, r);
      HeldSame(s, t, r, s.next);
    }
  }

  /** Counters may change as long as they stay zero or stay above zero. */
  lemma CountersInv(s: State, dso: map<Address, nat>, pending: seq<Lib>)
    requires Inv(s, pending) && SameCounted(s.dso, dso)
    ensures Inv(s.(dso := dso), pending)
  {
    CountersAccounts(s, dso, pending);
    HandleShape(s, s.(dso := dso));
  }

  /** The library a counted dso-handle lies in is loaded, linked, and the only one that contains it. */
  lemma OwnerFound(s: State, h: Address)
    requires WellFormed(s) && h in s.dso && s.dso[h] > 0
    ensures exists l :: l in s.live && h in s.image[l]
    ensures forall l :: l in s.live && h in s.image[l] ==> l in s.linked
  {
    var o :| o in s.linked && h in s.image[o];
    forall l | l in s.live && h in s.image[l] ensures l == o {
    }
  }
}
