/** The loader's side of the shadow: pages of it are rewritten as libraries come and go, once the first library
    that uses Control Flow Integrity has been seen. */
module CfiWriter {
  import opened Basics
  import opened CfiFormat

  // ---------------------------------------------------------------------------------
  // Rewriting pages
  // ---------------------------------------------------------------------------------

  function PageStart(i: nat, page: nat): (r: nat)
    requires page > 0
    ensures r <= i
  {
    i / page * page
  }

  function PageEnd(i: nat, page: nat): (r: nat)
    requires page > 0
    ensures i <= r
  {
    (i + page - 1) / page * page
  }

  lemma {:induction false} Monotone(a: nat, b: nat, n: nat)
    requires a <= b
    ensures a * n <= b * n
    decreases b
  {
    if a < b {
      Monotone(a, b - 1, n);
    }
  }

  lemma PagesInside(i: nat, length: nat, page: nat)
    requires page > 0 && length % page == 0 && i <= length
    ensures PageEnd(i, page) <= length
  {
    var x, q := (i + page - 1) / page, length / page;
    assert (q + 1) * page == length + page;
    if x > q {
      Monotone(q + 1, x, page);
    }
    Monotone(x, q, page);
  }

  /** New contents for the elements from `start` to `end`, prepared on the side in whole pages. */
  class ShadowWrite {
    const shadow: array<Value>
    const start: nat
    const end: nat
    const alignedStart: nat
    const alignedEnd: nat
    const tmp: array<Value>

    /** The rest of the first and of the last page is what the shadow holds. */
    ghost predicate Prepared()
      reads this, shadow, tmp
    {
      && alignedStart <= start <= end <= alignedEnd <= shadow.Length
      && tmp.Length == alignedEnd - alignedStart && tmp != shadow
      && (forall i :: alignedStart <= i < start ==> tmp[i - alignedStart] == shadow[i])
      && (forall i :: end <= i < alignedEnd ==> tmp[i - alignedStart] == shadow[i])
    }

    /** The elements to be written, counted from `start`. */
    function Contents(): (r: seq<Value>)
      requires alignedStart <= start <= end <= alignedEnd && tmp.Length == alignedEnd - alignedStart
      reads tmp
    {
      tmp[start - alignedStart..end - alignedStart]
    }

    constructor (shadow: array<Value>, page: nat, start: nat, end: nat)
      requires page > 0 && shadow.Length % page == 0 && start <= end <= shadow.Length
      ensures Prepared() && fresh(tmp)
      ensures this.shadow == shadow && this.start == start && this.end == end
      ensures forall i :: start - alignedStart <= i < end - alignedStart ==> tmp[i] == INVALID
    {
      PagesInside(end, shadow.Length, page);
      var from, to := PageStart(start, page), PageEnd(end, page);
      this.shadow, this.start, this.end := shadow, start, end;
      alignedStart, alignedEnd := from, to;
      var pages := new Value[to - from](_ => 0);
      tmp := pages;
      new;
      forall i | 0 <= i < start - alignedStart {
        tmp[i] := shadow[alignedStart + i];
      }
      forall i | end - alignedStart <= i < tmp.Length {
        tmp[i] := shadow[alignedStart + i];
      }
    }

    /** The destructor moves the pages into place. */
    method Commit()
      requires Prepared()
      modifies shadow
      ensures forall i :: 0 <= i < shadow.Length ==>
                shadow[i] == if start <= i < end then old(Contents())[i - start] else old(shadow[i])
    {
      forall i | alignedStart <= i < alignedEnd {
        shadow[i] := tmp[i - alignedStart];
      }
    }
  }

  // ---------------------------------------------------------------------------------
  // The running value
  // ---------------------------------------------------------------------------------

  /** The value after `k` steps: it stays where it is once a wrap has been noticed. */
  function Running(begin: Value, k: nat): Value {
    if begin >= STEP && begin + STEP * k >= VALUES then begin % STEP else (begin + STEP * k) % VALUES
  }

  lemma Congruent(begin: nat, k: nat)
    ensures (begin + STEP * k) % VALUES % STEP == begin % STEP
  {
    var x := begin + STEP * k;
    assert x % VALUES == begin + STEP * (k - (VALUES / STEP) * (x / VALUES));
  }

  lemma Turns(x: int, n: int)
    ensures (x + VALUES * n) % VALUES == x % VALUES
  {
  }

  lemma RunningStep(begin: Value, k: nat)
    ensures Running(begin, k) < begin <==> begin >= STEP && begin + STEP * k >= VALUES
    ensures Running(begin, k + 1) == if Running(begin, k) < begin then Running(begin, k) else (Running(begin, k) + STEP) % VALUES
  {
    var x := begin + STEP * k;
    if begin < STEP {
      Congruent(begin, k);
      Turns(x % VALUES + STEP, x / VALUES);
    } else if x < VALUES {
      assert x % VALUES == x;
      if x + STEP >= VALUES {
        Congruent(begin, k + 1);
        assert (x + STEP) % VALUES == x + STEP - VALUES;
      }
    }
  }

  lemma StoredRunning(check: nat, first: nat, k: nat)
    ensures var begin := Exact(check, first) % VALUES;
            Stored(check, first, first + k) == if Running(begin, k) < begin then UNCHECKED else Running(begin, k)
  {
    var x := Exact(check, first);
    ExactStep(check, first, k);
    RunningStep(x % VALUES, k);
    Turns(x % VALUES + STEP * k, x / VALUES);
  }

  /** If there is something in an element already, it becomes unchecked. The writer starts with empty elements, so that
      there never is. */
  function Merged(before: Value, v: Value): Value {
    if before == INVALID then v else UNCHECKED
  }

  // ---------------------------------------------------------------------------------
  // The writer
  // ---------------------------------------------------------------------------------

  ghost predicate Uses(libs: seq<Dso>)
  {
    exists i :: 0 <= i < |libs| && libs[i].symbol != 0
  }

  /** The list of loaded libraries: they fit, and share no element. */
  ghost predicate Loadable(abi: Abi, libs: set<Dso>)
  {
    Disjoint(libs) && forall d :: d in libs ==> d.Fits(abi)
  }

  /** What adding `d` leaves in element `i`. */
  function Written(abi: Abi, d: Dso, i: nat, before: Value): Value {
    if d.Covers(i) && (d.symbol == 0 || d.First(abi) <= i) then ValueAt(abi, d, i) else before
  }

  lemma Shown(abi: Abi, libs: set<Dso>, d: Dso, i: nat)
    requires Loadable(abi, libs + {d})
    ensures Written(abi, d, i, At(abi, libs, i)) == At(abi, libs + {d}, i)
  {
    if d.Covers(i) {
      AtLibrary(abi, libs + {d}, d, i);
      if d in libs {
        AtLibrary(abi, libs, d, i);
      }
    } else {
      AtElsewhere(abi, libs, libs + {d}, i);
    }
  }

  lemma Hidden(abi: Abi, libs: set<Dso>, d: Dso, i: nat)
    requires Loadable(abi, libs + {d})
    ensures At(abi, libs - {d}, i) == if d.Covers(i) then INVALID else At(abi, libs, i)
  {
    if !d.Covers(i) {
      AtElsewhere(abi, libs, libs - {d}, i);
    }
  }

  /** The first library that `AddLibrary` does not accept. */
  ghost predicate FirstBad(abi: Abi, libs: seq<Dso>, k: nat)
  {
    k < |libs| && !libs[k].Acceptable(abi) && forall j :: 0 <= j < k ==> libs[j].Acceptable(abi)
  }

  lemma Sublist(abi: Abi, libs: seq<Dso>, k: nat)
    requires Loadable(abi, Elems(libs)) && k < |libs|
    ensures Elems(libs[..k]) + {libs[k]} == Elems(libs[..k + 1]) && Loadable(abi, Elems(libs[..k + 1]))
  {
  }

  class CfiShadowWriter {
    const abi: Abi
    const page: nat
    var shadow: array<Value>
    var mapped: bool
    var initialLinkDone: bool

    /** The libraries that are in the shadow. */
    ghost var shown: set<Dso>

    ghost predicate Valid()
      reads this, shadow
    {
      && page > 0 && abi.Elements() % page == 0
      && Loadable(abi, shown)
      && (mapped ==> initialLinkDone && shadow.Length == abi.Elements())
      && (mapped ==> forall i :: 0 <= i < shadow.Length ==> shadow[i] == At(abi, shown, i))
      && (!mapped ==> shown == {})
    }

    constructor (abi: Abi, page: nat)
      requires page > 0 && abi.Elements() % page == 0
      ensures Valid() && !mapped && !initialLinkDone && this.abi == abi && this.page == page && fresh(shadow)
    {
      this.abi, this.page := abi, page;
      shadow := new Value[0];
      mapped, initialLinkDone := false, false;
      shown := {};
    }

    method AddConstant(begin: nat, end: nat, v: Value)
      requires page > 0 && shadow.Length == abi.Elements() && shadow.Length % page == 0
      requires begin < end <= abi.MaxTarget() + 1
      modifies shadow
      ensures forall i :: 0 <= i < shadow.Length ==>
                shadow[i] == if begin / SHADOW_ALIGN <= i <= (end - 1) / SHADOW_ALIGN then v else old(shadow[i])
    {
      var sw := new ShadowWrite(shadow, page, begin / SHADOW_ALIGN, (end - 1) / SHADOW_ALIGN + 1);
      forall i | sw.start - sw.alignedStart <= i < sw.end - sw.alignedStart {
        sw.tmp[i] := v;
      }
      sw.Commit();
    }

    method Add(base: nat, end: nat, check: nat)
      requires page > 0 && shadow.Length == abi.Elements() && shadow.Length % page == 0
      requires base < end <= abi.MaxTarget() + 1 && check < end && check % CHECK_ALIGN == 0
      modifies shadow
      ensures var first := (if base < check then check else base) / SHADOW_ALIGN;
              forall i :: 0 <= i < shadow.Length ==>
                shadow[i] == if first <= i <= (end - 1) / SHADOW_ALIGN then Stored(check, first, i) else old(shadow[i])
    {
      var first := (if base < check then check else base) / SHADOW_ALIGN;
      var begin := first * SHADOW_ALIGN;
      var sw := new ShadowWrite(shadow, page, begin / SHADOW_ALIGN, (end - 1) / SHADOW_ALIGN + 1);
      var svBegin := ((begin + SHADOW_ALIGN - check) / CHECK_ALIGN + REGULAR_MIN) % VALUES;
      Fill(sw.tmp, sw.start - sw.alignedStart, sw.end - sw.alignedStart, svBegin, check, first);
      sw.Commit();
    }

    /** The loop of `Add`. Nothing but the invalid marker is found in the elements: the pages are fresh there. */
    method Fill(s: array<Value>, lo: nat, hi: nat, svBegin: Value, ghost check: nat, ghost first: nat)
      requires lo <= hi <= s.Length && svBegin == Exact(check, first) % VALUES
      requires forall i :: lo <= i < hi ==> s[i] == INVALID
      modifies s
      ensures forall i :: 0 <= i < s.Length ==>
                s[i] == if lo <= i < hi then Stored(check, first, first + (i - lo)) else old(s[i])
    {
      var sv := svBegin;
      for j := lo to hi
        invariant sv == Running(svBegin, j - lo)
        invariant forall i :: lo <= i < j ==> s[i] == Stored(check, first, first + (i - lo))
        invariant forall i :: 0 <= i < s.Length && !(lo <= i < j) ==> s[i] == old(s[i])
      {
        RunningStep(svBegin, j - lo);
        StoredRunning(check, first, j - lo);
        if sv < svBegin {
          s[j] := UNCHECKED;
          continue;
        }
        s[j] := Merged(s[j], sv);
        sv := (sv + STEP) % VALUES;
      }
    }

    method AddLibrary(d: Dso) returns (ok: bool)
      requires page > 0 && shadow.Length == abi.Elements() && shadow.Length % page == 0 && d.Fits(abi)
      modifies shadow
      ensures ok <==> d.Acceptable(abi)
      ensures forall i :: 0 <= i < shadow.Length ==>
                shadow[i] == if ok then Written(abi, d, i, old(shadow[i])) else old(shadow[i])
    {
      if d.base == 0 || d.size == 0 {
        return true;
      }
      var check := d.symbol;
      if check == 0 {
        AddConstant(d.base, d.base + d.size, UNCHECKED);
        return true;
      }
      if abi.Arm? {
        if check % 2 != 1 {
          return false;
        }
        check := check - 1;
      }
      if check % CHECK_ALIGN != 0 {
        return false;
      }
      Add(d.base, d.base + d.size, check);
      ok := true;
    }

    /** `AddLibrary` on a shadow that is mapped. */
    method Show(d: Dso) returns (ok: bool)
      requires Valid() && mapped && Loadable(abi, shown + {d})
      modifies this, shadow
      ensures Valid() && mapped && shadow == old(shadow) && initialLinkDone == old(initialLinkDone)
      ensures ok <==> d.Acceptable(abi)
      ensures shown == if ok then old(shown) + {d} else old(shown)
    {
      ok := AddLibrary(d);
      if ok {
        forall i | 0 <= i < shadow.Length ensures shadow[i] == At(abi, shown + {d}, i) {
          Shown(abi, shown, d, i);
        }
        shown := shown + {d};
      }
    }

    method MapShadow()
      requires Valid() && initialLinkDone && !mapped
      modifies this
      ensures Valid() && mapped && shown == {} && initialLinkDone && fresh(shadow)
    {
      shadow := new Value[abi.Elements()](_ => 0);
      mapped := true;
    }

    /** `MaybeInit`. Whether `libdl.so` is in the list is up to the environment. */
    method MaybeInit(recent: seq<Dso>, solist: seq<Dso>, libdl: bool) returns (ok: bool)
      requires Valid() && initialLinkDone && !mapped && Loadable(abi, Elems(solist))
      modifies this
      ensures Valid() && initialLinkDone && (mapped ==> fresh(shadow)) && (!mapped ==> shadow == old(shadow))
      ensures mapped <==> Uses(recent) && libdl
      ensures ok && mapped ==> shown == Elems(solist)
      ensures ok <==> !Uses(recent) || (libdl && forall d :: d in solist ==> d.Acceptable(abi))
      ensures !ok && mapped ==> exists k: nat :: FirstBad(abi, solist, k) && shown == Elems(solist[..k])
    {
      var found := exists i :: 0 <= i < |recent| && recent[i].symbol != 0;
      if !found {
        return true;
      }
      if !libdl {
        return false;
      }
      MapShadow();
      for k := 0 to |solist|
        invariant Valid() && mapped && initialLinkDone && fresh(shadow) && shown == Elems(solist[..k])
        invariant forall j :: 0 <= j < k ==> solist[j].Acceptable(abi)
      {
        Sublist(abi, solist, k);
        var added := Show(solist[k]);
        if !added {
          assert FirstBad(abi, solist, k);
          return false;
        }
      }
      assert solist[..|solist|] == solist;
      ok := true;
    }

    method AfterLoad(si: Dso, solist: seq<Dso>, libdl: bool) returns (ok: bool)
      requires Valid() && Loadable(abi, Elems(solist)) && si in solist && shown <= Elems(solist)
      modifies this, shadow
      ensures Valid() && initialLinkDone == old(initialLinkDone) && (shadow == old(shadow) || fresh(shadow))
      ensures mapped <==> old(mapped) || (initialLinkDone && si.symbol != 0 && libdl)
      ensures ok && mapped ==> shown == if old(mapped) then old(shown) + {si} else Elems(solist)
      ensures ok && !mapped && initialLinkDone ==> si.symbol == 0
      ensures !ok && old(mapped) ==> shown == old(shown)
      ensures !ok && mapped && !old(mapped) ==> exists k: nat :: FirstBad(abi, solist, k) && shown == Elems(solist[..k])
    {
      if !initialLinkDone {
        return true;
      }
      if !mapped {
        ok := MaybeInit([si], solist, libdl);
        assert Uses([si]) <==> [si][0].symbol != 0;
        return;
      }
      assert shown + {si} <= Elems(solist);
      ok := Show(si);
    }

    method BeforeUnload(si: Dso)
      requires Valid() && Loadable(abi, shown + {si})
      modifies this, shadow
      ensures Valid() && initialLinkDone == old(initialLinkDone) && mapped == old(mapped) && shadow == old(shadow)
      ensures shown == old(shown) - {si}
    {
      if mapped && si.base != 0 && si.size != 0 {
        AddConstant(si.base, si.base + si.size, INVALID);
      }
      if mapped {
        forall i | 0 <= i < shadow.Length ensures shadow[i] == At(abi, shown - {si}, i) {
          Hidden(abi, shown, si, i);
        }
      }
      shown := shown - {si};
    }

    method InitialLinkDone(solist: seq<Dso>, libdl: bool) returns (ok: bool)
      requires Valid() && !initialLinkDone && Loadable(abi, Elems(solist))
      modifies this
      ensures Valid() && initialLinkDone && (mapped ==> fresh(shadow)) && (!mapped ==> shadow == old(shadow))
      ensures ok ==> if Uses(solist) then mapped && shown == Elems(solist) else !mapped
      ensures ok <==> !Uses(solist) || (libdl && forall d :: d in solist ==> d.Acceptable(abi))
    {
      initialLinkDone := true;
      ok := MaybeInit(solist, solist, libdl);
    }
  }
}
