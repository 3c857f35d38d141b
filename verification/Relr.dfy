/** Packed relative relocations, in the format of SHT_RELR sections of the ELF generic ABI. */
module Relr {

  /** The sizes of an address: 4 or 8 bytes. */
  datatype Size = Four | Eight {
    function Bytes(): nat {
      if Four? then 4 else 8
    }

    /** How many words an odd entry is about. */
    function Span(): nat {
      if Four? then 31 else 63
    }

    function Word(): nat {
      if Four? then 0x1_0000_0000 else 0x1_0000_0000_0000_0000
    }
  }

  /** Addresses wrap around: the remainder. */
  function Wrap(z: Size, x: nat): (r: nat)
    ensures r < z.Word()
  {
    if x < z.Word() then x else Wrap(z, x - z.Word())
  }

  /** The size of `n` words. */
  function Words(z: Size, n: nat): nat {
    if z.Four? then 4 * n else 8 * n
  }

  type Byte = b: nat | b < 256

  // ---------------------------------------------------------------------------------
  // Bits
  // ---------------------------------------------------------------------------------

  /** `x / 2`, without the solver's division. */
  function Half(x: nat): nat {
    if x < 2 then 0 else 1 + Half(x - 2)
  }

  /** `x % 2 == 1`, the same way. */
  predicate Odd(x: nat) {
    if x < 2 then x == 1 else Odd(x - 2)
  }

  lemma {:induction false} HalfIs(x: nat)
    ensures Half(x) == x / 2 && (Odd(x) <==> x % 2 == 1)
  {
    if x >= 2 {
      HalfIs(x - 2);
    }
  }

  /** `x >> k`. */
  function Shifted(x: nat, k: nat): nat {
    if k == 0 then x else Half(Shifted(x, k - 1))
  }

  /** The lowest `n` bits. */
  function Bits(x: nat, n: nat): (r: seq<bool>)
    ensures |r| == n
    decreases n
  {
    if n == 0 then [] else [Odd(x)] + Bits(Half(x), n - 1)
  }

  lemma {:induction false} ShiftedHalf(x: nat, k: nat)
    ensures Shifted(Half(x), k) == Half(Shifted(x, k))
  {
    if k > 0 {
      ShiftedHalf(x, k - 1);
    }
  }

  lemma {:induction false} BitsAt(x: nat, n: nat, k: nat)
    requires k < n
    ensures Bits(x, n)[k] == Odd(Shifted(x, k))
    decreases k
  {
    if k > 0 {
      BitsAt(Half(x), n - 1, k - 1);
      ShiftedHalf(x, k - 1);
    }
  }

  function Pow2(k: nat): (r: nat)
    ensures r > 0
  {
    if k == 0 then 1 else 2 * Pow2(k - 1)
  }

  lemma {:induction false} ShiftedSmall(x: nat, n: nat, k: nat)
    requires x < Pow2(n) && k <= n
    ensures Shifted(x, k) < Pow2(n - k)
  {
    if k > 0 {
      ShiftedSmall(x, n, k - 1);
      HalfIs(Shifted(x, k - 1));
    }
  }

  // ---------------------------------------------------------------------------------
  // What a stream means
  // ---------------------------------------------------------------------------------

  /** An even entry is an address, an odd one is a bitmap. */
  datatype Entry = Address(offset: nat) | Map(bits: seq<bool>)

  function Parse(z: Size, e: nat): Entry {
    if Odd(e) then Map(Bits(Half(e), z.Span())) else Address(e)
  }

  function ParseAll(z: Size, stream: seq<nat>): (r: seq<Entry>)
    ensures |r| == |stream|
  {
    if stream == [] then [] else [Parse(z, stream[0])] + ParseAll(z, stream[1..])
  }

  /** Bit `k` of a bitmap stands for the word `k` words above the base. */
  function Chosen(z: Size, bits: seq<bool>, base: nat, k: nat): seq<nat>
    requires k <= |bits|
    decreases |bits| - k
  {
    if k == |bits| then []
    else (if bits[k] then [Wrap(z, base + Words(z, k))] else []) + Chosen(z, bits, base, k + 1)
  }

  /** The offsets of the words that a stream relocates, in order. */
  function Decode(z: Size, entries: seq<Entry>, base: nat): seq<nat> {
    if entries == [] then []
    else match entries[0]
      case Address(o) => [o] + Decode(z, entries[1..], Wrap(z, o + z.Bytes()))
      case Map(bits) => Chosen(z, bits, base, 0) + Decode(z, entries[1..], Wrap(z, base + Words(z, z.Span())))
  }

  // ---------------------------------------------------------------------------------
  // Memory
  // ---------------------------------------------------------------------------------

  /** A word in memory, least significant byte first. */
  function Load(m: seq<Byte>): nat {
    if m == [] then 0 else m[0] + 256 * Load(m[1..])
  }

  function Store(v: nat, n: nat): (r: seq<Byte>)
    ensures |r| == n
  {
    if n == 0 then [] else [v % 256] + Store(v / 256, n - 1)
  }

  function Pow256(n: nat): (r: nat)
    ensures r > 0
  {
    if n == 0 then 1 else 256 * Pow256(n - 1)
  }

  lemma {:induction false} LoadStore(v: nat, n: nat)
    requires v < Pow256(n)
    ensures Load(Store(v, n)) == v
  {
    if n > 0 {
      LoadStore(v / 256, n - 1);
      assert Store(v, n)[1..] == Store(v / 256, n - 1);
    }
  }

  lemma WordBytes(z: Size)
    ensures Pow256(z.Bytes()) == z.Word()
  {
    assert Pow256(4) == 0x1_0000_0000;
    assert Pow256(8) == 256 * 256 * 256 * 256 * Pow256(4);
  }

  function Destination(z: Size, offset: nat, bias: nat): nat {
    Wrap(z, offset + bias)
  }

  /** Memory after one relocation. */
  function Relocated(z: Size, m: seq<Byte>, offset: nat, bias: nat): (r: seq<Byte>)
    requires Destination(z, offset, bias) + z.Bytes() <= |m|
    ensures |r| == |m|
  {
    var a, n := Destination(z, offset, bias), z.Bytes();
    var word := Store(Wrap(z, Load(m[a..a + n]) + bias), n);
    seq(|m|, i requires 0 <= i < |m| => if a <= i < a + n then word[i - a] else m[i])
  }

  ghost predicate Reaches(z: Size, length: nat, offsets: seq<nat>, bias: nat)
  {
    forall i :: 0 <= i < |offsets| ==> Destination(z, offsets[i], bias) + z.Bytes() <= length
  }

  /** Memory after the first `n` relocations. */
  ghost function Applied(z: Size, m: seq<Byte>, offsets: seq<nat>, bias: nat, n: nat): (r: seq<Byte>)
    requires Reaches(z, |m|, offsets, bias) && n <= |offsets|
    ensures |r| == |m|
  {
    if n == 0 then m else Relocated(z, Applied(z, m, offsets, bias, n - 1), offsets[n - 1], bias)
  }

  // ---------------------------------------------------------------------------------
  // The loop
  // ---------------------------------------------------------------------------------

  /** Memory holds what the relocations in `done` make of `m`, and `todo` are the others. */
  ghost predicate Progress(z: Size, m: seq<Byte>, all: seq<nat>, done: seq<nat>, todo: seq<nat>, bias: nat, now: seq<Byte>)
  {
    Reaches(z, |m|, all, bias) && all == done + todo && now == Applied(z, m, all, bias, |done|)
  }

  lemma Advance(z: Size, m: seq<Byte>, all: seq<nat>, done: seq<nat>, offset: nat, rest: seq<nat>, bias: nat, now: seq<Byte>)
    requires Progress(z, m, all, done, [offset] + rest, bias, now)
    ensures Destination(z, offset, bias) + z.Bytes() <= |now|
    ensures Progress(z, m, all, done + [offset], rest, bias, Relocated(z, now, offset, bias))
  {
    assert all == (done + [offset]) + rest && all[|done|] == offset;
  }

  lemma Finished(z: Size, m: seq<Byte>, all: seq<nat>, done: seq<nat>, bias: nat, now: seq<Byte>)
    requires Progress(z, m, all, done, [], bias, now)
    ensures now == Applied(z, m, all, bias, |all|)
  {
  }

  /** `apply_relr_reloc` for memory without tags. */
  method Apply(z: Size, mem: array<Byte>, offset: nat, bias: nat)
    requires Destination(z, offset, bias) + z.Bytes() <= mem.Length
    modifies mem
    ensures mem[..] == Relocated(z, old(mem[..]), offset, bias)
  {
    var a, n := Destination(z, offset, bias), z.Bytes();
    var word := Store(Wrap(z, Load(mem[a..a + n]) + bias), n);
    assert mem[a..a + n] == mem[..][a..a + n];
    forall i | 0 <= i < n {
      mem[a + i] := word[i];
    }
  }

  /** One round of the inner loop, after the shift. */
  method ApplyBit(z: Size, mem: array<Byte>, entry: nat, offset: nat, bias: nat,
                  ghost m: seq<Byte>, ghost all: seq<nat>, ghost before: seq<nat>, ghost left: seq<nat>)
    returns (ghost done: seq<nat>)
    requires Progress(z, m, all, before, if Odd(entry) then [offset] + left else left, bias, mem[..])
    modifies mem
    ensures Progress(z, m, all, done, left, bias, mem[..])
  {
    done := before;
    HalfIs(entry);
    if entry % 2 != 0 {
      Advance(z, m, all, done, offset, left, bias, mem[..]);
      Apply(z, mem, offset, bias);
      done := done + [offset];
    }
  }

  /** The offsets that are left after `j` rounds. */
  ghost function Left(z: Size, bits: seq<bool>, base: nat, j: nat): seq<nat>
  {
    if j <= |bits| then Chosen(z, bits, base, j) else []
  }

  /** Where the inner loop is after `j` rounds. */
  ghost predicate Round(z: Size, e: nat, base: nat, entry: nat, offset: nat, j: nat)
  {
    && base < z.Word() && e < z.Word() && j <= z.Span() + 1
    && entry == Shifted(e, j) && offset == Wrap(z, base + Words(z, j))
  }

  lemma FirstRound(z: Size, e: nat, base: nat)
    requires base < z.Word() && e < z.Word()
    ensures Round(z, e, base, e, base, 0)
  {
  }

  lemma NextOffset(z: Size, base: nat, j: nat)
    requires base < z.Word() && j <= z.Span()
    ensures Wrap(z, Wrap(z, base + Words(z, j)) + z.Bytes()) == Wrap(z, base + Words(z, j + 1))
  {
  }

  lemma EightMore(k: nat)
    ensures Pow2(k + 8) == 256 * Pow2(k)
  {
    assert Pow2(k + 2) == 4 * Pow2(k);
    assert Pow2(k + 4) == 4 * Pow2(k + 2);
    assert Pow2(k + 6) == 4 * Pow2(k + 4);
  }

  lemma {:induction false} ByteBits(n: nat)
    ensures Pow2(8 * n) == Pow256(n)
  {
    if n > 0 {
      ByteBits(n - 1);
      EightMore(8 * n - 8);
    }
  }

  lemma WordBits(z: Size)
    ensures Pow2(z.Span() + 1) == z.Word()
  {
    ByteBits(z.Bytes());
    WordBytes(z);
  }

  /** An entry has no bits above the bitmap. */
  lemma NoMoreBits(z: Size, e: nat)
    requires e < z.Word()
    ensures Shifted(e, z.Span() + 1) == 0
  {
    WordBits(z);
    ShiftedSmall(e, z.Span() + 1, z.Span() + 1);
  }

  /** One bit is looked at. */
  lemma ChosenStep(z: Size, bits: seq<bool>, base: nat, j: nat, rest: seq<nat>)
    requires j < |bits|
    ensures Chosen(z, bits, base, j) + rest ==
            if bits[j] then [Wrap(z, base + Words(z, j))] + (Chosen(z, bits, base, j + 1) + rest) else Chosen(z, bits, base, j + 1) + rest
  {
  }

  lemma NextRound(z: Size, e: nat, base: nat, entry: nat, offset: nat, j: nat, rest: seq<nat>)
    requires Round(z, e, base, entry, offset, j) && entry != 0
    ensures Round(z, e, base, Half(entry), Wrap(z, offset + z.Bytes()), j + 1)
    ensures var bits := Bits(Half(e), z.Span()); var left := Left(z, bits, base, j + 1) + rest;
            Left(z, bits, base, j) + rest == if Odd(Half(entry)) then [offset] + left else left
  {
    var bits := Bits(Half(e), z.Span());
    NoMoreBits(z, e);
    NextOffset(z, base, j);
    if j < z.Span() {
      BitsAt(Half(e), z.Span(), j);
      ShiftedHalf(e, j);
      ChosenStep(z, bits, base, j, rest);
    }
  }

  lemma {:induction false} NoneChosen(z: Size, bits: seq<bool>, base: nat, k: nat)
    requires k <= |bits| && forall i :: k <= i < |bits| ==> !bits[i]
    ensures Chosen(z, bits, base, k) == []
    decreases |bits| - k
  {
    if k < |bits| {
      NoneChosen(z, bits, base, k + 1);
    }
  }

  lemma {:induction false} StaysZero(x: nat, j: nat, k: nat)
    requires Shifted(x, j) == 0 && j <= k
    ensures Shifted(x, k) == 0
  {
    if j < k {
      StaysZero(x, j, k - 1);
    }
  }

  lemma LastRound(z: Size, e: nat, base: nat, offset: nat, j: nat, rest: seq<nat>)
    requires Round(z, e, base, 0, offset, j)
    ensures Left(z, Bits(Half(e), z.Span()), base, j) + rest == rest
  {
    var bits := Bits(Half(e), z.Span());
    if j <= z.Span() {
      forall i | j <= i < |bits| ensures !bits[i] {
        BitsAt(Half(e), z.Span(), i);
        ShiftedHalf(e, i);
        StaysZero(e, j, i + 1);
      }
      NoneChosen(z, bits, base, j);
    }
  }

  /** The inner loop. */
  method ApplyBitmap(z: Size, mem: array<Byte>, e: nat, base: nat, bias: nat,
                     ghost m: seq<Byte>, ghost all: seq<nat>, ghost before: seq<nat>, ghost rest: seq<nat>)
    returns (ghost done: seq<nat>)
    requires e < z.Word() && base < z.Word()
    requires Progress(z, m, all, before, Left(z, Bits(Half(e), z.Span()), base, 0) + rest, bias, mem[..])
    modifies mem
    ensures Progress(z, m, all, done, rest, bias, mem[..])
  {
    done := before;
    var entry: nat, offset: nat := e, base;
    ghost var j: nat := 0;
    ghost var bits := Bits(Half(e), z.Span());
    ghost var todo := Left(z, bits, base, 0) + rest;
    FirstRound(z, e, base);
    while entry != 0
      invariant Round(z, e, base, entry, offset, j)
      invariant todo == Left(z, bits, base, j) + rest && Progress(z, m, all, done, todo, bias, mem[..])
      decreases entry
    {
      NextRound(z, e, base, entry, offset, j, rest);
      HalfIs(entry);
      entry := entry / 2;
      todo := Left(z, bits, base, j + 1) + rest;
      done := ApplyBit(z, mem, entry, offset, bias, m, all, done, todo);
      offset := Wrap(z, offset + z.Bytes());
      j := j + 1;
    }
    LastRound(z, e, base, offset, j, rest);
  }

  lemma ParseStep(z: Size, stream: seq<nat>, i: nat)
    requires i < |stream|
    ensures ParseAll(z, stream[i..]) == [Parse(z, stream[i])] + ParseAll(z, stream[i + 1..])
  {
    assert stream[i..][1..] == stream[i + 1..];
  }

  lemma DecodeStep(z: Size, entries: seq<Entry>, base: nat)
    requires entries != []
    ensures Decode(z, entries, base) ==
            if entries[0].Address? then [entries[0].offset] + Decode(z, entries[1..], Wrap(z, entries[0].offset + z.Bytes()))
            else Left(z, entries[0].bits, base, 0) + Decode(z, entries[1..], Wrap(z, base + Words(z, z.Span())))
  {
  }

  lemma EntryMeans(z: Size, entry: nat, rest: seq<Entry>, base: nat)
    ensures Decode(z, [Parse(z, entry)] + rest, base) ==
            if Odd(entry) then Left(z, Bits(Half(entry), z.Span()), base, 0) + Decode(z, rest, Wrap(z, base + Words(z, z.Span())))
            else [entry] + Decode(z, rest, Wrap(z, entry + z.Bytes()))
  {
    var entries := [Parse(z, entry)] + rest;
    assert entries[0] == Parse(z, entry) && entries[1..] == rest;
    DecodeStep(z, entries, base);
  }

  /** One entry of a stream. `rest` are the entries after it. */
  method ApplyEntry(z: Size, mem: array<Byte>, entry: nat, base: nat, bias: nat,
                    ghost m: seq<Byte>, ghost all: seq<nat>, ghost before: seq<nat>, ghost rest: seq<Entry>)
    returns (next: nat, ghost done: seq<nat>)
    requires entry < z.Word() && base < z.Word()
    requires Progress(z, m, all, before, Decode(z, [Parse(z, entry)] + rest, base), bias, mem[..])
    modifies mem
    ensures next < z.Word() && Progress(z, m, all, done, Decode(z, rest, next), bias, mem[..])
  {
    EntryMeans(z, entry, rest, base);
    HalfIs(entry);
    if entry % 2 == 0 {
      next := Wrap(z, entry + z.Bytes());
      ghost var todo := Decode(z, rest, next);
      Advance(z, m, all, before, entry, todo, bias, mem[..]);
      Apply(z, mem, entry, bias);
      done := before + [entry];
    } else {
      next := Wrap(z, base + Words(z, z.Span()));
      ghost var todo := Decode(z, rest, next);
      done := ApplyBitmap(z, mem, entry, base, bias, m, all, before, todo);
    }
  }

  /** `relocate_relr`: what it does to memory is what the stream means. */
  method RelocateRelr(z: Size, mem: array<Byte>, stream: seq<nat>, bias: nat)
    requires forall i :: 0 <= i < |stream| ==> stream[i] < z.Word()
    requires Reaches(z, mem.Length, Decode(z, ParseAll(z, stream), 0), bias)
    modifies mem
    ensures var all := Decode(z, ParseAll(z, stream), 0); mem[..] == Applied(z, old(mem[..]), all, bias, |all|)
  {
    ghost var m, entries := mem[..], ParseAll(z, stream);
    ghost var all := Decode(z, entries, 0);
    ghost var done: seq<nat> := [];
    var base: nat := 0;
    assert stream[0..] == stream;
    for i := 0 to |stream|
      invariant base < z.Word() && entries == ParseAll(z, stream[i..])
      invariant Progress(z, m, all, done, Decode(z, entries, base), bias, mem[..])
    {
      ParseStep(z, stream, i);
      entries := ParseAll(z, stream[i + 1..]);
      base, done := ApplyEntry(z, mem, stream[i], base, bias, m, all, done, entries);
    }
    Finished(z, m, all, done, bias, mem[..]);
  }
}
