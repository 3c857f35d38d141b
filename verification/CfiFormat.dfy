/** The format of the shadow for Control Flow Integrity: one 16-bit element for every 2^18 bytes of memory, which
    says where the `__cfi_check` function of the library in that memory is. */
module CfiFormat {

  const SHADOW_ALIGN := 0x4_0000
  const CHECK_ALIGN := 0x1000

  /** How much the distance to `__cfi_check` grows from one element to the next. */
  const STEP := 64

  const VALUES := 0x1_0000

  const INVALID: Value := 0
  const UNCHECKED: Value := 1
  const REGULAR_MIN: Value := 2

  type Value = v: nat | v < VALUES

  datatype Abi = Arm | Ilp32 | Lp64 {
    function Word(): nat {
      if Lp64? then 0x1_0000_0000_0000_0000 else 0x1_0000_0000
    }

    function MaxTarget(): nat {
      if Lp64? then 0xffff_ffff_ffff else 0xffff_ffff
    }

    /** The size of the shadow in bytes. It is odd: the elements are the 16-bit words that start inside it. */
    function ShadowSize(): nat {
      MaxTarget() / 0x2_0000
    }

    function Elements(): nat {
      (MaxTarget() + 1) / SHADOW_ALIGN
    }
  }

  /** A loaded library: where it is, and the address of its `__cfi_check`, or 0 if it has none. */
  datatype Dso = Dso(id: nat, base: nat, size: nat, symbol: nat) {
    predicate Placed() {
      base != 0 && size != 0
    }

    /** On arm the symbol has the Thumb bit. */
    function Check(abi: Abi): nat {
      if abi.Arm? && symbol % 2 == 1 then symbol - 1 else symbol
    }

    /** `AddLibrary` accepts it. */
    predicate Acceptable(abi: Abi) {
      Placed() && symbol != 0 ==> (abi.Arm? ==> symbol % 2 == 1) && Check(abi) % CHECK_ALIGN == 0
    }

    /** It lies in the memory that the shadow is about, and its `__cfi_check` is not above it. */
    predicate Fits(abi: Abi) {
      base + size <= abi.MaxTarget() + 1 && (symbol != 0 ==> 0 < Check(abi) < base + size)
    }

    function Covers(i: nat): (r: bool)
      ensures r ==> Placed()
    {
      Placed() && base / SHADOW_ALIGN <= i <= (base + size - 1) / SHADOW_ALIGN
    }

    /** The first element at or above `__cfi_check`. */
    function First(abi: Abi): nat {
      (if base < Check(abi) then Check(abi) else base) / SHADOW_ALIGN
    }
  }

  /** The value that leads from element `i` back to `check`, if it can be represented. */
  function Exact(check: nat, i: nat): int {
    ((i + 1) * SHADOW_ALIGN - check) / CHECK_ALIGN + REGULAR_MIN
  }

  /** What element `i` of a library holds whose first element is `first`: the values wrap around, and that is
      noticed only if the first one is at least a step above the smallest. */
  function Stored(check: nat, first: nat, i: nat): Value
    requires first <= i
  {
    var begin := Exact(check, first) % VALUES;
    if begin >= STEP && begin + STEP * (i - first) >= VALUES then UNCHECKED else Exact(check, i) % VALUES
  }

  /** What element `i` says about the library that covers it. */
  function ValueAt(abi: Abi, d: Dso, i: nat): Value {
    if d.symbol == 0 then UNCHECKED
    else if i < d.First(abi) then INVALID
    else Stored(d.Check(abi), d.First(abi), i)
  }

  /** The shadow of a set of libraries. */
  ghost function At(abi: Abi, libs: set<Dso>, i: nat): Value {
    if d :| d in libs && d.Covers(i) then ValueAt(abi, d, i) else INVALID
  }

  /** No element is about two libraries, as the loader aligns them. */
  ghost predicate Disjoint(libs: set<Dso>)
  {
    forall d, e, i: nat {:trigger d.Covers(i), e.Covers(i)} :: d in libs && e in libs && d.Covers(i) && e.Covers(i) ==> d == e
  }

  // ---------------------------------------------------------------------------------
  // The reader
  // ---------------------------------------------------------------------------------

  /** `shadow_load`. */
  method ShadowLoad(abi: Abi, shadow: array<Value>, p: nat) returns (v: Value)
    requires shadow.Length == abi.Elements() && p < abi.Word()
    ensures v == if p <= abi.MaxTarget() then shadow[p / SHADOW_ALIGN] else INVALID
  {
    var offset := (p / SHADOW_ALIGN) * 2;
    if offset > abi.ShadowSize() {
      return INVALID;
    }
    v := shadow[offset / 2];
  }

  /** `cfi_check_addr`. */
  function CheckAddr(abi: Abi, v: Value, p: nat): nat {
    var aligned := (p / SHADOW_ALIGN) * SHADOW_ALIGN + SHADOW_ALIGN;
    (aligned - (v - REGULAR_MIN) * CHECK_ALIGN + if abi.Arm? then 1 else 0) % abi.Word()
  }

  // ---------------------------------------------------------------------------------
  // Encoding and decoding
  // ---------------------------------------------------------------------------------

  lemma ExactStep(check: nat, i: nat, k: nat)
    ensures Exact(check, i + k) == Exact(check, i) + STEP * k
  {
    var x := (i + 1) * SHADOW_ALIGN - check;
    assert (i + k + 1) * SHADOW_ALIGN - check == x + CHECK_ALIGN * (STEP * k);
    assert (x + CHECK_ALIGN * (STEP * k)) / CHECK_ALIGN == x / CHECK_ALIGN + STEP * k;
  }

  lemma ExactAligned(check: nat, c: nat, i: nat)
    requires check == CHECK_ALIGN * c
    ensures Exact(check, i) == STEP * (i + 1) - c + REGULAR_MIN
  {
    var y := STEP * (i + 1) - c;
    assert (i + 1) * SHADOW_ALIGN - check == CHECK_ALIGN * y;
  }

  /** From the first element on no value is one of the markers. */
  lemma ExactIsRegular(abi: Abi, d: Dso, i: nat)
    requires d.symbol != 0 && d.Check(abi) % CHECK_ALIGN == 0 && d.First(abi) <= i
    ensures d.Check(abi) < (i + 1) * SHADOW_ALIGN && Exact(d.Check(abi), i) > REGULAR_MIN
  {
    var check := d.Check(abi);
    var above := if d.base < check then check else d.base;
    assert above < (above / SHADOW_ALIGN + 1) * SHADOW_ALIGN;
    ExactAligned(check, check / CHECK_ALIGN, i);
  }

  lemma Cut(begin: nat, m: nat)
    requires REGULAR_MIN < begin < STEP
    ensures (begin + STEP * m) % VALUES > REGULAR_MIN
  {
    var x := begin + STEP * m;
    assert x % VALUES == begin + STEP * (m - (VALUES / STEP) * (x / VALUES));
  }

  lemma OffTarget(word: nat, check: nat, far: nat, thumb: nat)
    requires 0 < check && check + far <= word && thumb <= 1 && check + thumb < word
    ensures (check + far + thumb) % word == check + thumb <==> far == 0
  {
    if check + far + thumb >= word {
      assert (check + far + thumb) % word == check + far + thumb - word;
    }
  }

  /** What a value that was cut off by `k` turns leads to. */
  lemma Decoded(abi: Abi, check: nat, i: nat, p: nat, v: Value, k: nat)
    requires check % CHECK_ALIGN == 0 && 0 < check < (i + 1) * SHADOW_ALIGN <= abi.Word() && i == p / SHADOW_ALIGN
    requires v >= REGULAR_MIN && v + VALUES * k == Exact(check, i)
    ensures CheckAddr(abi, v, p) == check + (if abi.Arm? then 1 else 0) <==> k == 0
  {
    var c, far := check / CHECK_ALIGN, k * (VALUES * CHECK_ALIGN);
    ExactAligned(check, c, i);
    assert i * SHADOW_ALIGN + SHADOW_ALIGN - (v - REGULAR_MIN) * CHECK_ALIGN == CHECK_ALIGN * (c + VALUES * k);
    OffTarget(abi.Word(), check, far, if abi.Arm? then 1 else 0);
  }

  /** The decoder undoes the encoder exactly where the value fits into an element: it finds the `__cfi_check` of
      the library that the address is in, with the Thumb bit on arm. */
  lemma RoundTrip(abi: Abi, d: Dso, p: nat)
    requires d.Placed() && d.symbol != 0 && d.Acceptable(abi) && d.Fits(abi)
    requires d.First(abi) * SHADOW_ALIGN <= p < d.base + d.size
    ensures var v := ValueAt(abi, d, p / SHADOW_ALIGN);
            v >= REGULAR_MIN && CheckAddr(abi, v, p) == d.symbol <==> Exact(d.Check(abi), p / SHADOW_ALIGN) < VALUES
  {
    var i, first, check := p / SHADOW_ALIGN, d.First(abi), d.Check(abi);
    ExactIsRegular(abi, d, i);
    ExactIsRegular(abi, d, first);
    ExactStep(check, first, i - first);
    var v := ValueAt(abi, d, i);
    if v >= REGULAR_MIN {
      Decoded(abi, check, i, p, v, Exact(check, i) / VALUES);
    }
  }

  /** A value that does not fit is replaced by the marker for unchecked memory if the first value is a step or
      more; otherwise it is cut off, and leads to another address. */
  lemma Overflow(abi: Abi, d: Dso, p: nat)
    requires d.Placed() && d.symbol != 0 && d.Acceptable(abi) && d.Fits(abi)
    requires d.First(abi) * SHADOW_ALIGN <= p < d.base + d.size
    requires Exact(d.Check(abi), d.First(abi)) < VALUES <= Exact(d.Check(abi), p / SHADOW_ALIGN)
    ensures var v := ValueAt(abi, d, p / SHADOW_ALIGN);
            if Exact(d.Check(abi), d.First(abi)) >= STEP then v == UNCHECKED
            else v > REGULAR_MIN && CheckAddr(abi, v, p) != d.symbol
  {
    RoundTrip(abi, d, p);
    OverflowStored(abi, d, p / SHADOW_ALIGN);
  }

  lemma OverflowStored(abi: Abi, d: Dso, i: nat)
    requires d.symbol != 0 && d.Check(abi) % CHECK_ALIGN == 0 && d.First(abi) <= i
    requires Exact(d.Check(abi), d.First(abi)) < VALUES <= Exact(d.Check(abi), i)
    ensures if Exact(d.Check(abi), d.First(abi)) >= STEP then Stored(d.Check(abi), d.First(abi), i) == UNCHECKED
            else Stored(d.Check(abi), d.First(abi), i) > REGULAR_MIN
  {
    var first, check := d.First(abi), d.Check(abi);
    ExactIsRegular(abi, d, first);
    ExactStep(check, first, i - first);
    if Exact(check, first) < STEP {
      Cut(Exact(check, first), i - first);
    }
  }

  /** When `__cfi_check` is inside its library, the first value is a step or more only if the function is on one
      of the first three pages of its element. */
  lemma FirstValue(abi: Abi, d: Dso)
    requires d.symbol != 0 && d.Check(abi) % CHECK_ALIGN == 0 && d.base <= d.Check(abi)
    ensures Exact(d.Check(abi), d.First(abi)) < VALUES
    ensures Exact(d.Check(abi), d.First(abi)) >= STEP <==> d.Check(abi) % SHADOW_ALIGN <= 2 * CHECK_ALIGN
  {
  }

  /** A library of a bit more than 256 MiB whose `__cfi_check` is on the fourth page: the element after 1024 steps
      repeats the first one, and leads 256 MiB above `__cfi_check`. */
  lemma MissedWrap()
    ensures var d := Dso(0, 0x4000_0000, 0x1010_0000, 0x4000_3000); var p := 0x5000_0000;
            && d.Acceptable(Lp64) && d.Fits(Lp64)
            && CheckAddr(Lp64, ValueAt(Lp64, d, p / SHADOW_ALIGN), p) == d.symbol + 0x1000_0000
  {
    var d := Dso(0, 0x4000_0000, 0x1010_0000, 0x4000_3000);
    assert d.First(Lp64) == 0x1000;
    ExactAligned(d.symbol, 0x4_0003, 0x1000);
    ExactAligned(d.symbol, 0x4_0003, 0x1400);
    assert ValueAt(Lp64, d, 0x1400) == 63;
  }

  // ---------------------------------------------------------------------------------
  // Shadows of sets of libraries
  // ---------------------------------------------------------------------------------

  lemma AtLibrary(abi: Abi, libs: set<Dso>, d: Dso, i: nat)
    requires Disjoint(libs) && d in libs && d.Covers(i)
    ensures At(abi, libs, i) == ValueAt(abi, d, i)
  {
  }

  lemma AtElsewhere(abi: Abi, libs: set<Dso>, more: set<Dso>, i: nat)
    requires Disjoint(libs) && Disjoint(more)
    requires forall d: Dso :: d.Covers(i) ==> (d in libs <==> d in more)
    ensures At(abi, libs, i) == At(abi, more, i)
  {
    if d :| d in libs && d.Covers(i) {
      AtLibrary(abi, libs, d, i);
      AtLibrary(abi, more, d, i);
    }
  }
}
