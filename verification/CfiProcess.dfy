/** A process whose libraries come and go: the shadow is mapped late, yet never differs from one that was there
    from the start. */
module CfiProcess {
  import opened Basics
  import opened CfiFormat
  import opened CfiWriter

  function Remove(libs: seq<Dso>, d: Dso): (r: seq<Dso>)
    ensures forall e :: e in r <==> e in libs && e != d
  {
    if libs == [] then []
    else if libs[0] == d then Remove(libs[1..], d)
    else [libs[0]] + Remove(libs[1..], d)
  }

  function RemoveAll(libs: seq<Dso>, gone: seq<Dso>): (r: seq<Dso>)
    ensures forall e :: e in r <==> e in libs && e !in gone
    decreases gone
  {
    if gone == [] then libs else RemoveAll(Remove(libs, gone[0]), gone[1..])
  }

  class Process {
    const cfi: CfiShadowWriter
    var solist: seq<Dso>

    /** The libraries that failed loads have left behind. */
    ghost var left: set<Dso>

    /** Between two calls: a mapped shadow is about all the loaded libraries, and while there is none no loaded
        library uses it. For libraries that were left behind nothing is promised. */
    ghost predicate Consistent()
      reads this, cfi, cfi.shadow
    {
      && cfi.Valid() && Loadable(cfi.abi, Elems(solist)) && Harmless(cfi.abi, left) && left <= Elems(solist)
      && Covered(cfi.mapped, cfi.shown, solist, left)
      && (cfi.initialLinkDone && !cfi.mapped ==> NoneUses(solist, left))
    }

    constructor (abi: Abi, page: nat)
      requires page > 0 && abi.Elements() % page == 0
      ensures Consistent() && fresh(cfi) && fresh(cfi.shadow) && solist == [] && left == {} && !cfi.initialLinkDone
    {
      cfi := new CfiShadowWriter(abi, page);
      solist := [];
      left := {};
    }

    /** The initial link, with which the process starts or dies. */
    method Start(libs: seq<Dso>, libdl: bool) returns (ok: bool)
      requires Consistent() && !cfi.initialLinkDone && solist == [] && Loadable(cfi.abi, Elems(libs))
      modifies this, cfi
      ensures ok ==> Consistent() && cfi.initialLinkDone && solist == libs && left == {} && (cfi.mapped <==> Uses(libs))
      ensures ok <==> !Uses(libs) || (libdl && forall d :: d in libs ==> d.Acceptable(cfi.abi))
      ensures cfi.shadow == old(cfi.shadow) || fresh(cfi.shadow)
    {
      solist, left := libs, {};
      ok := cfi.InitialLinkDone(solist, libdl);
      UsedByNone(libs);
    }

    /** A `dlopen` that loads `recent` and links them in some order. After `upTo` of them something else may fail; then, or
        if one cannot be added, the libraries in `taken` are unloaded again, and the others are left behind. */
    method Load(recent: seq<Dso>, order: seq<Dso>, upTo: nat, taken: seq<Dso>, libdl: bool) returns (ok: bool)
      requires Consistent() && cfi.initialLinkDone
      requires Loadable(cfi.abi, Elems(solist + recent)) && Elems(order) == Elems(recent) && upTo <= |order|
      requires (forall d :: d in recent ==> d !in solist) && forall d :: d in taken ==> d in recent
      modifies this, cfi, cfi.shadow
      ensures cfi.initialLinkDone && (cfi.shadow == old(cfi.shadow) || fresh(cfi.shadow))
      ensures ok ==> Consistent() && solist == old(solist) + recent && left == old(left) && upTo == |order|
      ensures ok ==> (cfi.mapped <==> old(cfi.mapped) || Uses(recent))
      ensures !ok ==> solist == RemoveAll(old(solist) + recent, taken) && left == old(left) + (Elems(recent) - Elems(taken))
      ensures !ok && Harmless(cfi.abi, Elems(recent) - Elems(taken)) ==> Consistent()
    {
      ghost var before := solist;
      solist := solist + recent;
      Members(before, recent, order);
      for k := 0 to upTo
        invariant solist == before + recent && left == old(left) && cfi.Valid() && cfi.initialLinkDone
        invariant cfi.shadow == old(cfi.shadow) || fresh(cfi.shadow)
        invariant cfi.shown <= Elems(solist)
        invariant cfi.mapped ==> Elems(before) - left <= cfi.shown
        invariant cfi.mapped ==> forall j :: 0 <= j < k ==> order[j] in cfi.shown
        invariant cfi.mapped <==> old(cfi.mapped) || Uses(order[..k])
      {
        ghost var was := cfi.mapped;
        var added := cfi.AfterLoad(order[k], solist, libdl);
        if !added {
          if cfi.mapped && !was {
            PrefixShown(cfi.abi, before, recent, left, cfi.shown);
          }
          Fail(before, recent, taken);
          return false;
        }
        assert order[..k + 1][k] == order[k];
        UsesMore(order, k);
      }
      if upTo < |order| {
        Fail(before, recent, taken);
        return false;
      }
      ok := true;
      assert order[..|order|] == order;
      SameUse(order, recent);
      AllCovered(before, recent, order, left, cfi.shown);
      if !cfi.mapped {
        UsedByNone(recent);
      }
    }

    /** The end of a load that has failed. */
    method Fail(ghost before: seq<Dso>, ghost recent: seq<Dso>, taken: seq<Dso>)
      requires cfi.Valid() && cfi.initialLinkDone && solist == before + recent && Loadable(cfi.abi, Elems(solist))
      requires cfi.shown <= Elems(solist) && left <= Elems(before) && Harmless(cfi.abi, left)
      requires (cfi.mapped ==> Elems(before) - left <= cfi.shown) && (!cfi.mapped ==> NoneUses(before, left))
      requires (forall d :: d in recent ==> d !in before) && forall d :: d in taken ==> d in recent
      modifies this, cfi, cfi.shadow
      ensures cfi.initialLinkDone && cfi.shadow == old(cfi.shadow)
      ensures solist == RemoveAll(before + recent, taken) && left == old(left) + (Elems(recent) - Elems(taken))
      ensures Harmless(cfi.abi, Elems(recent) - Elems(taken)) ==> Consistent()
    {
      Unload(taken);
      left := left + (Elems(recent) - Elems(taken));
      StillCovered(before, recent, taken, old(left), old(cfi.shown));
    }

    /** The end of `soinfo_unload_impl`. */
    method Unload(gone: seq<Dso>)
      requires cfi.Valid() && Loadable(cfi.abi, Elems(solist)) && cfi.shown <= Elems(solist)
      requires forall d :: d in gone ==> d in solist
      modifies this`solist, cfi, cfi.shadow
      ensures cfi.Valid() && cfi.mapped == old(cfi.mapped) && cfi.initialLinkDone == old(cfi.initialLinkDone)
      ensures cfi.shadow == old(cfi.shadow)
      ensures solist == RemoveAll(old(solist), gone) && cfi.shown == old(cfi.shown) - Elems(gone)
    {
      for k := 0 to |gone|
        invariant cfi.Valid() && cfi.mapped == old(cfi.mapped) && cfi.initialLinkDone == old(cfi.initialLinkDone)
        invariant cfi.shadow == old(cfi.shadow)
        invariant RemoveAll(solist, gone[k..]) == RemoveAll(old(solist), gone)
        invariant cfi.shown == old(cfi.shown) - Elems(gone[..k])
        invariant forall d :: d in solist ==> d in old(solist)
      {
        cfi.BeforeUnload(gone[k]);
        solist := Remove(solist, gone[k]);
        assert gone[k..][0] == gone[k] && gone[k..][1..] == gone[k + 1..];
      }
      assert gone[..|gone|] == gone;
    }

    /** A `dlclose`. */
    method Close(gone: seq<Dso>)
      requires Consistent() && forall d :: d in gone ==> d in solist
      modifies this, cfi, cfi.shadow
      ensures Consistent() && solist == RemoveAll(old(solist), gone) && cfi.mapped == old(cfi.mapped)
      ensures left == old(left) - Elems(gone)
    {
      Unload(gone);
      left := left - Elems(gone);
    }
  }

  /** None of these libraries would be refused. */
  ghost predicate Harmless(abi: Abi, libs: set<Dso>)
  {
    forall d :: d in libs ==> d.Acceptable(abi)
  }

  /** A mapped shadow is about loaded libraries, and about all of them that were not left behind. */
  ghost predicate Covered(mapped: bool, shown: set<Dso>, libs: seq<Dso>, left: set<Dso>)
  {
    shown <= Elems(libs) && (mapped ==> Elems(libs) - left <= shown)
  }

  ghost predicate NoneUses(libs: seq<Dso>, left: set<Dso>)
  {
    forall d :: d in libs && d !in left ==> d.symbol == 0
  }

  lemma UsedByNone(libs: seq<Dso>)
    ensures !Uses(libs) ==> forall d :: d in libs ==> d.symbol == 0
  {
  }

  lemma AllCovered(before: seq<Dso>, recent: seq<Dso>, order: seq<Dso>, left: set<Dso>, shown: set<Dso>)
    requires Elems(order) == Elems(recent)
    ensures Elems(before) - left <= shown && (forall j :: 0 <= j < |order| ==> order[j] in shown) ==> Elems(before + recent) - left <= shown
  {
    if forall j :: 0 <= j < |order| ==> order[j] in shown {
      forall d | d in recent ensures d in shown {
        assert d in Elems(order);
      }
    }
  }

  lemma StillCovered(before: seq<Dso>, recent: seq<Dso>, taken: seq<Dso>, left: set<Dso>, shown: set<Dso>)
    requires (forall d :: d in recent ==> d !in before) && (forall d :: d in taken ==> d in recent) && left <= Elems(before)
    requires shown <= Elems(before + recent)
    ensures var libs, more := RemoveAll(before + recent, taken), left + (Elems(recent) - Elems(taken));
            && more <= Elems(libs) && shown - Elems(taken) <= Elems(libs)
            && (Elems(before) - left <= shown ==> Elems(libs) - more <= shown - Elems(taken))
            && (NoneUses(before, left) ==> NoneUses(libs, more))
  {
  }

  lemma Members(before: seq<Dso>, recent: seq<Dso>, order: seq<Dso>)
    requires Elems(order) == Elems(recent)
    ensures forall j :: 0 <= j < |order| ==> order[j] in before + recent
    ensures forall d :: d in before + recent ==> d in before || exists j :: 0 <= j < |order| && order[j] == d
  {
    forall j | 0 <= j < |order| ensures order[j] in before + recent {
      assert order[j] in Elems(recent);
    }
    forall d | d in before + recent && d !in before ensures exists j :: 0 <= j < |order| && order[j] == d {
      assert d in Elems(order);
    }
  }

  lemma UsesMore(libs: seq<Dso>, k: nat)
    requires k < |libs|
    ensures Uses(libs[..k + 1]) <==> Uses(libs[..k]) || libs[k].symbol != 0
  {
    var longer := libs[..k + 1];
    if j :| 0 <= j < k && libs[..k][j].symbol != 0 {
      assert longer[j].symbol != 0;
    }
    assert longer[k] == libs[k];
    if Uses(longer) && libs[k].symbol == 0 {
      var j :| 0 <= j < |longer| && longer[j].symbol != 0;
      assert libs[..k][j].symbol != 0;
    }
  }

  lemma SameUse(a: seq<Dso>, b: seq<Dso>)
    requires Elems(a) == Elems(b)
    ensures Uses(a) <==> Uses(b)
  {
    if i :| 0 <= i < |a| && a[i].symbol != 0 {
      assert a[i] in Elems(b);
    }
    if i :| 0 <= i < |b| && b[i].symbol != 0 {
      assert b[i] in Elems(a);
    }
  }

  /** What is loaded is not refused, so that only a new library can be. */
  lemma PrefixShown(abi: Abi, before: seq<Dso>, recent: seq<Dso>, left: set<Dso>, shown: set<Dso>)
    requires NoneUses(before, left) && Harmless(abi, left)
    requires exists k: nat :: FirstBad(abi, before + recent, k) && shown == Elems((before + recent)[..k])
    ensures Elems(before) <= shown
  {
    var k: nat :| FirstBad(abi, before + recent, k) && shown == Elems((before + recent)[..k]);
    forall i | 0 <= i < |before| ensures (before + recent)[i].Acceptable(abi) {
      assert before[i] in before;
    }
    assert k >= |before|;
    forall d | d in before ensures d in shown {
      var i :| 0 <= i < |before| && before[i] == d;
      assert (before + recent)[..k][i] == d;
    }
  }

  /** Whatever was loaded and unloaded on the way, and whenever the shadow was mapped: two processes with the same
      libraries have the same shadow, but for libraries that were left behind. The second may be one that mapped it at the
      start. */
  lemma LazyIsEager(lazy: Process, eager: Process, i: nat)
    requires lazy.Consistent() && eager.Consistent() && lazy.cfi.abi == eager.cfi.abi && i < lazy.cfi.abi.Elements()
    requires lazy.cfi.mapped && eager.cfi.mapped && Elems(lazy.solist) == Elems(eager.solist)
    requires forall d :: d in lazy.left + eager.left ==> !d.Covers(i)
    ensures lazy.cfi.shadow[i] == eager.cfi.shadow[i]
  {
    AtElsewhere(lazy.cfi.abi, lazy.cfi.shown, eager.cfi.shown, i);
  }

  /** If nothing was left behind, all of it is the same. */
  lemma LazyIsAllEager(lazy: Process, eager: Process)
    requires lazy.Consistent() && eager.Consistent() && lazy.cfi.abi == eager.cfi.abi && lazy.left == {} && eager.left == {}
    requires lazy.cfi.mapped && eager.cfi.mapped && Elems(lazy.solist) == Elems(eager.solist)
    ensures lazy.cfi.shadow[..] == eager.cfi.shadow[..]
  {
    forall i | 0 <= i < lazy.cfi.shadow.Length ensures lazy.cfi.shadow[i] == eager.cfi.shadow[i] {
      LazyIsEager(lazy, eager, i);
    }
  }

  /** A call through any address of a library at or above its `__cfi_check` reaches that function. */
  method Resolve(p: Process, d: Dso, target: nat) returns (check: nat)
    requires p.Consistent() && p.cfi.mapped && d in p.solist && d !in p.left
    requires d.Placed() && d.symbol != 0 && d.Acceptable(p.cfi.abi)
    requires d.First(p.cfi.abi) * SHADOW_ALIGN <= target < d.base + d.size
    requires Exact(d.Check(p.cfi.abi), target / SHADOW_ALIGN) < VALUES
    ensures check == d.symbol
  {
    assert d in Elems(p.solist);
    InsideLibrary(p.cfi.abi, d, target);
    var v := ShadowLoad(p.cfi.abi, p.cfi.shadow, target);
    ShownValue(p, d, target / SHADOW_ALIGN);
    RoundTrip(p.cfi.abi, d, target);
    check := CheckAddr(p.cfi.abi, v, target);
  }

  lemma InsideLibrary(abi: Abi, d: Dso, target: nat)
    requires d.Placed() && d.Fits(abi) && d.First(abi) * SHADOW_ALIGN <= target < d.base + d.size
    ensures target <= abi.MaxTarget() && target / SHADOW_ALIGN < abi.Elements() && d.Covers(target / SHADOW_ALIGN)
  {
  }

  lemma ShownValue(p: Process, d: Dso, i: nat)
    requires p.Consistent() && p.cfi.mapped && d in p.solist && d !in p.left && d.Covers(i) && i < p.cfi.abi.Elements()
    ensures p.cfi.shadow[i] == ValueAt(p.cfi.abi, d, i)
  {
    assert d in Elems(p.solist);
    AtLibrary(p.cfi.abi, p.cfi.shown, d, i);
  }

  // ---------------------------------------------------------------------------------
  // What the shadow says about an address
  // ---------------------------------------------------------------------------------

  /** The address is one of the library. */
  ghost predicate Holds(d: Dso, target: nat)
  {
    d.base != 0 && d.size != 0 && d.base <= target < d.base + d.size
  }

  /** The library has nothing in the 2^18 bytes around the address. */
  ghost predicate Elsewhere(d: Dso, target: nat)
  {
    d.base == 0 || d.size == 0 || target / 0x4_0000 < d.base / 0x4_0000 || (d.base + d.size - 1) / 0x4_0000 < target / 0x4_0000
  }

  /** Where `__cfi_check` is, without the Thumb bit. */
  ghost function CheckOf(abi: Abi, d: Dso): nat
  {
    if abi == Arm && d.symbol % 2 == 1 then d.symbol - 1 else d.symbol
  }

  /** The address is in the 2^18 bytes that `__cfi_check`, or the library if it starts later, starts in, or above them. */
  ghost predicate AtOrAbove(abi: Abi, d: Dso, target: nat)
  {
    CheckOf(abi, d) / 0x4_0000 <= target / 0x4_0000 && d.base / 0x4_0000 <= target / 0x4_0000
  }

  /** How many pages of 2^12 bytes `__cfi_check` is below the end of the 2^18 bytes around the address, counted from 2 on. */
  ghost function PagesBelow(abi: Abi, d: Dso, target: nat): int
  {
    ((target / 0x4_0000 + 1) * 0x4_0000 - CheckOf(abi, d)) / 0x1000 + 2
  }

  /** From the address on, where `__cfi_check` is can be said in 16 bits. */
  ghost predicate Tellable(abi: Abi, d: Dso, target: nat)
  {
    d.symbol != 0 && AtOrAbove(abi, d, target) && PagesBelow(abi, d, target) < 0x1_0000
  }

  lemma Spread(abi: Abi, d: Dso, target: nat)
    requires d.Fits(abi) && Holds(d, target)
    ensures target <= abi.MaxTarget() && target / SHADOW_ALIGN < abi.Elements() && d.Covers(target / SHADOW_ALIGN)
    ensures AtOrAbove(abi, d, target) <==> d.First(abi) <= target / SHADOW_ALIGN
  {
  }

  lemma StoredFits(check: nat, first: nat, i: nat)
    requires first <= i && check < (first + 1) * SHADOW_ALIGN && Exact(check, i) < VALUES
    ensures Stored(check, first, i) == Exact(check, i)
  {
    ExactStep(check, first, i - first);
    assert Exact(check, first) >= REGULAR_MIN;
  }

  lemma FirstIsAbove(abi: Abi, d: Dso)
    ensures d.Check(abi) < (d.First(abi) + 1) * SHADOW_ALIGN
  {
  }

  /** What the shadow says about an address of a library that was not left behind: 1 if the library has no `__cfi_check`, 0
      below `__cfi_check`, and otherwise where it is, if that can be said. */
  lemma LibraryReads(p: Process, d: Dso, target: nat)
    requires p.Consistent() && p.cfi.mapped && d in p.solist && d !in p.left && Holds(d, target)
    ensures target / 0x4_0000 < p.cfi.shadow.Length
    ensures d.symbol == 0 ==> p.cfi.shadow[target / 0x4_0000] == 1
    ensures d.symbol != 0 && !AtOrAbove(p.cfi.abi, d, target) ==> p.cfi.shadow[target / 0x4_0000] == 0
    ensures Tellable(p.cfi.abi, d, target) ==> p.cfi.shadow[target / 0x4_0000] == PagesBelow(p.cfi.abi, d, target)
  {
    var abi, i := p.cfi.abi, target / SHADOW_ALIGN;
    assert d in Elems(p.solist);
    Spread(abi, d, target);
    ShownValue(p, d, i);
    if Tellable(abi, d, target) {
      FirstIsAbove(abi, d);
      StoredFits(d.Check(abi), d.First(abi), i);
    }
  }

  /** Where no library is the shadow says 0. */
  lemma NothingReads(p: Process, target: nat)
    requires p.Consistent() && p.cfi.mapped && target <= p.cfi.abi.MaxTarget() && forall d :: d in p.solist ==> Elsewhere(d, target)
    ensures target / 0x4_0000 < p.cfi.shadow.Length && p.cfi.shadow[target / 0x4_0000] == 0
  {
    var abi, i := p.cfi.abi, target / SHADOW_ALIGN;
    assert i < abi.Elements();
    assert p.cfi.shadow[i] == At(abi, p.cfi.shown, i);
    forall d | d in p.cfi.shown ensures !d.Covers(i) {
      assert d in p.solist;
    }
  }

  /** The reader on the shadow of a process, for every address. */
  method Read(p: Process, target: nat) returns (v: Value)
    requires p.Consistent() && p.cfi.mapped && target < p.cfi.abi.Word()
    ensures forall d :: d in p.solist && d !in p.left && Holds(d, target) && d.symbol == 0 ==> v == 1
    ensures forall d :: d in p.solist && d !in p.left && Holds(d, target) && d.symbol != 0 && !AtOrAbove(p.cfi.abi, d, target) ==> v == 0
    ensures forall d :: d in p.solist && d !in p.left && Holds(d, target) && Tellable(p.cfi.abi, d, target) ==> v == PagesBelow(p.cfi.abi, d, target)
    ensures (forall d :: d in p.solist ==> Elsewhere(d, target)) ==> v == 0
  {
    v := ShadowLoad(p.cfi.abi, p.cfi.shadow, target);
    forall d | d in p.solist && Holds(d, target) ensures target <= p.cfi.abi.MaxTarget() {
      assert d in Elems(p.solist);
      Spread(p.cfi.abi, d, target);
    }
    forall d | d in p.solist && d !in p.left && Holds(d, target)
      ensures d.symbol == 0 ==> v == 1
      ensures d.symbol != 0 && !AtOrAbove(p.cfi.abi, d, target) ==> v == 0
      ensures Tellable(p.cfi.abi, d, target) ==> v == PagesBelow(p.cfi.abi, d, target)
    {
      LibraryReads(p, d, target);
    }
    if target <= p.cfi.abi.MaxTarget() && forall d :: d in p.solist ==> Elsewhere(d, target) {
      NothingReads(p, target);
    }
  }
}
