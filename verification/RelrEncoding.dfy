/** Every list of words can be packed, and unpacking it relocates these words once, and nothing else. Words are
    counted here: word `q` is at the offset `q` times the size of a word. */
module RelrEncoding {
  import opened Relr

  /** The number of words there are. */
  function Count(z: Size): nat {
    if z.Four? then 0x4000_0000 else 0x2000_0000_0000_0000
  }

  lemma WordsSmall(z: Size, q: nat)
    requires q < Count(z)
    ensures Words(z, q) + z.Bytes() <= z.Word()
  {
  }

  ghost predicate Ascending(z: Size, qs: seq<nat>)
  {
    && (forall i :: 0 <= i < |qs| ==> qs[i] < Count(z))
    && (forall i, j :: 0 <= i < j < |qs| ==> qs[i] < qs[j])
  }

  /** The offsets of the words from index `i` up to `n`. */
  function Offsets(z: Size, qs: seq<nat>, i: nat, n: nat): (r: seq<nat>)
    requires i <= n <= |qs|
    ensures |r| == n - i
    decreases n - i
  {
    if i == n then [] else [Words(z, qs[i])] + Offsets(z, qs, i + 1, n)
  }

  lemma {:induction false} OffsetAt(z: Size, qs: seq<nat>, i: nat, n: nat, k: nat)
    requires i <= k < n <= |qs|
    ensures Offsets(z, qs, i, n)[k - i] == Words(z, qs[k])
    decreases k - i
  {
    if i < k {
      OffsetAt(z, qs, i + 1, n, k);
    }
  }

  // ---------------------------------------------------------------------------------
  // The packed form
  // ---------------------------------------------------------------------------------

  /** The bitmap at `base` for the words in `qs`. */
  function Present(z: Size, base: nat, qs: seq<nat>): (r: seq<bool>)
    ensures |r| == z.Span()
  {
    seq(z.Span(), k requires 0 <= k < z.Span() => base + k in qs)
  }

  /** The index of the first word from `i` on that is not below `x`. */
  function Below(qs: seq<nat>, x: nat, i: nat): (n: nat)
    requires i <= |qs|
    ensures i <= n <= |qs|
    decreases |qs| - i
  {
    if i < |qs| && qs[i] < x then Below(qs, x, i + 1) else i
  }

  function EncodeFrom(z: Size, base: nat, qs: seq<nat>, i: nat): seq<Entry>
    requires i <= |qs|
    decreases |qs| - i
  {
    if i == |qs| then []
    else
      var n := Below(qs, base + z.Span(), i);
      if n == i then [Address(Words(z, qs[i]))] + EncodeFrom(z, qs[i] + 1, qs, i + 1)
      else [Map(Present(z, base, qs))] + EncodeFrom(z, base + z.Span(), qs, n)
  }

  /** An address first, then bitmaps as long as they hold something, then the next address. */
  function Entries(z: Size, qs: seq<nat>): seq<Entry> {
    if qs == [] then [] else [Address(Words(z, qs[0]))] + EncodeFrom(z, qs[0] + 1, qs, 1)
  }

  /** The number that has these bits. */
  function Number(bits: seq<bool>): nat {
    if bits == [] then 0 else (if bits[0] then 1 else 0) + 2 * Number(bits[1..])
  }

  function Print(entry: Entry): nat {
    match entry
    case Address(o) => o
    case Map(bits) => 1 + 2 * Number(bits)
  }

  function PrintAll(entries: seq<Entry>): seq<nat> {
    if entries == [] then [] else [Print(entries[0])] + PrintAll(entries[1..])
  }

  function Encode(z: Size, qs: seq<nat>): seq<nat> {
    PrintAll(Entries(z, qs))
  }

  // ---------------------------------------------------------------------------------
  // Numbers and bits
  // ---------------------------------------------------------------------------------

  lemma {:induction false} Doubled(x: nat)
    ensures Half(2 * x) == x && Half(2 * x + 1) == x && !Odd(2 * x) && Odd(2 * x + 1)
  {
    if x > 0 {
      Doubled(x - 1);
    }
  }

  lemma {:induction false} BitsNumber(bits: seq<bool>)
    ensures Bits(Number(bits), |bits|) == bits && Number(bits) < Pow2(|bits|)
  {
    if bits != [] {
      BitsNumber(bits[1..]);
      Doubled(Number(bits[1..]));
    }
  }

  /** Entries that a stream can hold. */
  ghost predicate Printable(z: Size, entry: Entry)
  {
    match entry
    case Address(o) => !Odd(o) && o < z.Word()
    case Map(bits) => |bits| == z.Span()
  }

  lemma ParsePrint(z: Size, entry: Entry)
    requires Printable(z, entry)
    ensures Parse(z, Print(entry)) == entry && Print(entry) < z.Word()
  {
    match entry
    case Address(o) =>
    case Map(bits) =>
      BitsNumber(bits);
      Doubled(Number(bits));
      WordBits(z);
  }

  ghost predicate AllPrintable(z: Size, entries: seq<Entry>)
  {
    forall i :: 0 <= i < |entries| ==> Printable(z, entries[i])
  }

  lemma {:induction false} ParsePrintAll(z: Size, entries: seq<Entry>)
    requires AllPrintable(z, entries)
    ensures ParseAll(z, PrintAll(entries)) == entries
    ensures forall i :: 0 <= i < |PrintAll(entries)| ==> PrintAll(entries)[i] < z.Word()
  {
    if entries != [] {
      ParsePrint(z, entries[0]);
      ParsePrintAll(z, entries[1..]);
      ParseFirst(z, Print(entries[0]), PrintAll(entries[1..]));
      FirstAndRest(entries);
    }
  }

  lemma ParseFirst(z: Size, e: nat, rest: seq<nat>)
    ensures ParseAll(z, [e] + rest) == [Parse(z, e)] + ParseAll(z, rest)
  {
    var stream := [e] + rest;
    assert stream[0] == e && stream[1..] == rest;
  }

  lemma FirstAndRest<T>(s: seq<T>)
    requires s != []
    ensures [s[0]] + s[1..] == s
  {
  }

  // ---------------------------------------------------------------------------------
  // Unpacking the packed form
  // ---------------------------------------------------------------------------------

  lemma Located(z: Size, base: nat, k: nat)
    requires base + k < Count(z)
    ensures Wrap(z, Words(z, base) + Words(z, k)) == Words(z, base + k)
  {
    WordsSmall(z, base + k);
  }

  lemma {:induction false} OffsetsJoined(z: Size, qs: seq<nat>, i: nat, n: nat, e: nat)
    requires i <= n <= e <= |qs|
    ensures Offsets(z, qs, i, n) + Offsets(z, qs, n, e) == Offsets(z, qs, i, e)
    decreases n - i
  {
    if i < n {
      OffsetsJoined(z, qs, i + 1, n, e);
    }
  }

  /** Of an ascending list the words below `x` come first. */
  ghost predicate SplitAt(qs: seq<nat>, x: nat, i: nat)
  {
    i <= |qs| && forall j :: 0 <= j < |qs| ==> (j < i <==> qs[j] < x)
  }

  lemma NextSplit(z: Size, qs: seq<nat>, x: nat, i: nat)
    requires Ascending(z, qs) && SplitAt(qs, x, i)
    ensures x in qs <==> i < |qs| && qs[i] == x
    ensures SplitAt(qs, x + 1, if x in qs then i + 1 else i)
  {
    if x in qs {
      var j :| 0 <= j < |qs| && qs[j] == x;
      NotAbove(z, qs, i, j);
    }
  }

  lemma NotAbove(z: Size, qs: seq<nat>, i: nat, j: nat)
    requires Ascending(z, qs) && i <= j < |qs|
    ensures qs[i] <= qs[j]
  {
  }

  lemma SplitOnce(qs: seq<nat>, x: nat, i: nat, n: nat)
    requires SplitAt(qs, x, i) && SplitAt(qs, x, n)
    ensures i == n
  {
    if i < |qs| {
      assert i < n <==> qs[i] < x;
    }
    if n < |qs| {
      assert n < i <==> qs[n] < x;
    }
  }

  lemma {:induction false} BelowSplits(z: Size, qs: seq<nat>, base: nat, x: nat, i: nat)
    requires Ascending(z, qs) && i <= |qs| && base <= x && forall j :: 0 <= j < i ==> qs[j] < x
    ensures SplitAt(qs, x, Below(qs, x, i))
    decreases |qs| - i
  {
    if i < |qs| && qs[i] < x {
      BelowSplits(z, qs, base, x, i + 1);
    }
  }

  /** From bit `k` on the bitmap holds the words from index `i` on. */
  lemma {:induction false} PresentChosen(z: Size, base: nat, qs: seq<nat>, k: nat, i: nat, n: nat)
    requires Ascending(z, qs) && k <= z.Span() && SplitAt(qs, base + k, i) && SplitAt(qs, base + z.Span(), n) && i <= n
    ensures Chosen(z, Present(z, base, qs), Words(z, base), k) == Offsets(z, qs, i, n)
    decreases z.Span() - k
  {
    var bits := Present(z, base, qs);
    if k < z.Span() {
      NextSplit(z, qs, base + k, i);
      ChosenStep(z, bits, Words(z, base), k, []);
      if base + k in qs {
        assert i < n;
        PresentChosen(z, base, qs, k + 1, i + 1, n);
        Located(z, base, k);
      } else {
        PresentChosen(z, base, qs, k + 1, i, n);
      }
    } else {
      SplitOnce(qs, base + k, i, n);
    }
  }

  lemma BaseKept(z: Size, base: nat)
    requires base < Count(z)
    ensures Wrap(z, Words(z, base)) == Words(z, base)
    ensures Words(z, base + z.Span()) == Words(z, base) + Words(z, z.Span())
  {
    WordsSmall(z, base);
  }

  /** An address entry in front of a stream. */
  lemma AddressFirst(z: Size, qs: seq<nat>, i: nat, rest: seq<Entry>, base: nat)
    requires i < |qs| && Decode(z, rest, Wrap(z, Words(z, qs[i] + 1))) == Offsets(z, qs, i + 1, |qs|)
    ensures Decode(z, [Address(Words(z, qs[i]))] + rest, base) == Offsets(z, qs, i, |qs|)
  {
    var entries := [Address(Words(z, qs[i]))] + rest;
    assert entries[1..] == rest && Words(z, qs[i] + 1) == Words(z, qs[i]) + z.Bytes();
    DecodeStep(z, entries, base);
  }

  /** A bitmap in front of a stream. */
  lemma BitmapFirst(z: Size, qs: seq<nat>, i: nat, n: nat, bits: seq<bool>, rest: seq<Entry>, base: nat)
    requires i <= n <= |qs| && base < Count(z)
    requires Chosen(z, bits, Words(z, base), 0) == Offsets(z, qs, i, n)
    requires Decode(z, rest, Wrap(z, Words(z, base + z.Span()))) == Offsets(z, qs, n, |qs|)
    ensures Decode(z, [Map(bits)] + rest, Wrap(z, Words(z, base))) == Offsets(z, qs, i, |qs|)
  {
    var entries := [Map(bits)] + rest;
    assert entries[1..] == rest;
    BaseKept(z, base);
    DecodeStep(z, entries, Words(z, base));
    OffsetsJoined(z, qs, i, n, |qs|);
  }

  lemma BitmapRestored(z: Size, base: nat, qs: seq<nat>, i: nat, n: nat)
    requires Ascending(z, qs) && SplitAt(qs, base, i) && i < n == Below(qs, base + z.Span(), i) && SplitAt(qs, base + z.Span(), n)
    requires Decode(z, EncodeFrom(z, base + z.Span(), qs, n), Wrap(z, Words(z, base + z.Span()))) == Offsets(z, qs, n, |qs|)
    ensures Decode(z, EncodeFrom(z, base, qs, i), Wrap(z, Words(z, base))) == Offsets(z, qs, i, |qs|)
  {
    PresentChosen(z, base, qs, 0, i, n);
    BitmapFirst(z, qs, i, n, Present(z, base, qs), EncodeFrom(z, base + z.Span(), qs, n), base);
  }

  lemma AddressRestored(z: Size, base: nat, qs: seq<nat>, i: nat)
    requires i < |qs| && Below(qs, base + z.Span(), i) == i
    requires Decode(z, EncodeFrom(z, qs[i] + 1, qs, i + 1), Wrap(z, Words(z, qs[i] + 1))) == Offsets(z, qs, i + 1, |qs|)
    ensures Decode(z, EncodeFrom(z, base, qs, i), Wrap(z, Words(z, base))) == Offsets(z, qs, i, |qs|)
  {
    AddressFirst(z, qs, i, EncodeFrom(z, qs[i] + 1, qs, i + 1), Wrap(z, Words(z, base)));
  }

  lemma SplitAfter(z: Size, qs: seq<nat>, i: nat)
    requires Ascending(z, qs) && i < |qs|
    ensures SplitAt(qs, qs[i] + 1, i + 1)
  {
  }

  lemma {:induction false} DecodeEncodeFrom(z: Size, base: nat, qs: seq<nat>, i: nat)
    requires Ascending(z, qs) && SplitAt(qs, base, i)
    ensures Decode(z, EncodeFrom(z, base, qs, i), Wrap(z, Words(z, base))) == Offsets(z, qs, i, |qs|)
    decreases |qs| - i
  {
    if i < |qs| {
      var n := Below(qs, base + z.Span(), i);
      if n == i {
        SplitAfter(z, qs, i);
        DecodeEncodeFrom(z, qs[i] + 1, qs, i + 1);
        AddressRestored(z, base, qs, i);
      } else {
        BelowSplits(z, qs, base, base + z.Span(), i);
        DecodeEncodeFrom(z, base + z.Span(), qs, n);
        BitmapRestored(z, base, qs, i, n);
      }
    }
  }

  lemma {:induction false} EncodedPrintable(z: Size, base: nat, qs: seq<nat>, i: nat)
    requires Ascending(z, qs) && i <= |qs|
    ensures AllPrintable(z, EncodeFrom(z, base, qs, i))
    decreases |qs| - i
  {
    if i < |qs| {
      var n := Below(qs, base + z.Span(), i);
      if n == i {
        EncodedPrintable(z, qs[i] + 1, qs, i + 1);
        AddressPrintable(z, qs[i]);
      } else {
        EncodedPrintable(z, base + z.Span(), qs, n);
      }
    }
  }

  lemma AddressPrintable(z: Size, q: nat)
    requires q < Count(z)
    ensures Printable(z, Address(Words(z, q)))
  {
    Doubled(if z.Four? then 2 * q else 4 * q);
    WordsSmall(z, q);
  }

  /** Unpacking gives back the words that were packed. */
  lemma RoundTrip(z: Size, qs: seq<nat>)
    requires Ascending(z, qs)
    ensures Decode(z, ParseAll(z, Encode(z, qs)), 0) == Offsets(z, qs, 0, |qs|)
    ensures forall i :: 0 <= i < |Encode(z, qs)| ==> Encode(z, qs)[i] < z.Word()
  {
    EntriesPrintable(z, qs);
    ParsePrintAll(z, Entries(z, qs));
    EntriesDecode(z, qs);
  }

  lemma EntriesPrintable(z: Size, qs: seq<nat>)
    requires Ascending(z, qs)
    ensures forall i :: 0 <= i < |Entries(z, qs)| ==> Printable(z, Entries(z, qs)[i])
  {
    if qs != [] {
      assert SplitAt(qs, qs[0] + 1, 1);
      EncodedPrintable(z, qs[0] + 1, qs, 1);
      AddressPrintable(z, qs[0]);
    }
  }

  lemma EntriesDecode(z: Size, qs: seq<nat>)
    requires Ascending(z, qs)
    ensures Decode(z, Entries(z, qs), 0) == Offsets(z, qs, 0, |qs|)
  {
    if qs != [] {
      assert SplitAt(qs, qs[0] + 1, 1);
      DecodeEncodeFrom(z, qs[0] + 1, qs, 1);
      AddressFirst(z, qs, 0, EncodeFrom(z, qs[0] + 1, qs, 1), 0);
    }
  }

  // ---------------------------------------------------------------------------------
  // What is relocated
  // ---------------------------------------------------------------------------------

  function WordAt(z: Size, m: seq<Byte>, a: nat): nat
    requires a + z.Bytes() <= |m|
  {
    Load(m[a..a + z.Bytes()])
  }

  ghost predicate Clear(z: Size, a: nat, b: nat)
  {
    a + z.Bytes() <= b || b + z.Bytes() <= a
  }

  /** One relocation changes one word. */
  lemma RelocatedWord(z: Size, m: seq<Byte>, offset: nat, bias: nat)
    requires Destination(z, offset, bias) + z.Bytes() <= |m|
    ensures var a := Destination(z, offset, bias); WordAt(z, Relocated(z, m, offset, bias), a) == Wrap(z, WordAt(z, m, a) + bias)
  {
    var a, n, r := Destination(z, offset, bias), z.Bytes(), Relocated(z, m, offset, bias);
    var v := Wrap(z, WordAt(z, m, a) + bias);
    WordBytes(z);
    LoadStore(v, n);
    assert r[a..a + n] == Store(v, n);
  }

  lemma WordKept(z: Size, m: seq<Byte>, offset: nat, bias: nat, b: nat)
    requires Destination(z, offset, bias) + z.Bytes() <= |m| && b + z.Bytes() <= |m| && Clear(z, Destination(z, offset, bias), b)
    ensures WordAt(z, Relocated(z, m, offset, bias), b) == WordAt(z, m, b)
  {
    assert Relocated(z, m, offset, bias)[b..b + z.Bytes()] == m[b..b + z.Bytes()];
  }

  lemma WrapOnce(z: Size, x: nat)
    requires x < 2 * z.Word()
    ensures Wrap(z, x) == if x < z.Word() then x else x - z.Word()
  {
  }

  lemma DestinationsApart(z: Size, p: nat, q: nat, bias: nat)
    requires p < Count(z) && q < Count(z) && bias < z.Word() && p != q
    ensures Clear(z, Destination(z, Words(z, p), bias), Destination(z, Words(z, q), bias))
  {
    WordsSmall(z, p);
    WordsSmall(z, q);
    WrapOnce(z, Words(z, p) + bias);
    WrapOnce(z, Words(z, q) + bias);
  }

  /** The word that a relocation at `offset` is about. */
  function Target(z: Size, m: seq<Byte>, offset: nat, bias: nat): nat
    requires Destination(z, offset, bias) + z.Bytes() <= |m|
  {
    WordAt(z, m, Destination(z, offset, bias))
  }

  /** A relocation of word `k` and what it does to word `i`. */
  lemma WordStep(z: Size, before: seq<Byte>, qs: seq<nat>, offsets: seq<nat>, bias: nat, k: nat, i: nat)
    requires Ascending(z, qs) && bias < z.Word() && offsets == Offsets(z, qs, 0, |qs|)
    requires Reaches(z, |before|, offsets, bias) && k < |offsets| && i < |offsets|
    ensures Target(z, Relocated(z, before, offsets[k], bias), offsets[i], bias) ==
            if i == k then Wrap(z, Target(z, before, offsets[i], bias) + bias) else Target(z, before, offsets[i], bias)
  {
    if i == k {
      RelocatedWord(z, before, offsets[k], bias);
    } else {
      OffsetAt(z, qs, 0, |qs|, i);
      OffsetAt(z, qs, 0, |qs|, k);
      DestinationsApart(z, qs[i], qs[k], bias);
      WordKept(z, before, offsets[k], bias, Destination(z, offsets[i], bias));
    }
  }

  /** A word is left alone until its turn comes. */
  lemma {:induction false} BeforeTurn(z: Size, m: seq<Byte>, qs: seq<nat>, offsets: seq<nat>, bias: nat, n: nat, i: nat)
    requires Ascending(z, qs) && bias < z.Word() && offsets == Offsets(z, qs, 0, |qs|)
    requires Reaches(z, |m|, offsets, bias) && n <= i < |offsets|
    ensures Target(z, Applied(z, m, offsets, bias, n), offsets[i], bias) == Target(z, m, offsets[i], bias)
    decreases n
  {
    if n > 0 {
      BeforeTurn(z, m, qs, offsets, bias, n - 1, i);
      WordStep(z, Applied(z, m, offsets, bias, n - 1), qs, offsets, bias, n - 1, i);
    }
  }

  /** Then it is relocated, and left alone again. */
  lemma {:induction false} AfterTurn(z: Size, m: seq<Byte>, qs: seq<nat>, offsets: seq<nat>, bias: nat, n: nat, i: nat)
    requires Ascending(z, qs) && bias < z.Word() && offsets == Offsets(z, qs, 0, |qs|)
    requires Reaches(z, |m|, offsets, bias) && i < n <= |offsets|
    ensures Target(z, Applied(z, m, offsets, bias, n), offsets[i], bias) == Wrap(z, Target(z, m, offsets[i], bias) + bias)
    decreases n
  {
    WordStep(z, Applied(z, m, offsets, bias, n - 1), qs, offsets, bias, n - 1, i);
    if i == n - 1 {
      BeforeTurn(z, m, qs, offsets, bias, i, i);
    } else {
      AfterTurn(z, m, qs, offsets, bias, n - 1, i);
    }
  }

  ghost predicate WordsRelocated(z: Size, m: seq<Byte>, r: seq<Byte>, offsets: seq<nat>, bias: nat)
    requires |r| == |m| && Reaches(z, |m|, offsets, bias)
  {
    forall i :: 0 <= i < |offsets| ==> Target(z, r, offsets[i], bias) == Wrap(z, Target(z, m, offsets[i], bias) + bias)
  }

  ghost predicate RestKept(z: Size, m: seq<Byte>, r: seq<Byte>, offsets: seq<nat>, bias: nat)
    requires |r| == |m|
  {
    forall x :: 0 <= x < |m| && Untouched(z, offsets, bias, x) ==> r[x] == m[x]
  }

  ghost predicate Untouched(z: Size, offsets: seq<nat>, bias: nat, x: nat)
  {
    forall i :: 0 <= i < |offsets| ==> !(Destination(z, offsets[i], bias) <= x < Destination(z, offsets[i], bias) + z.Bytes())
  }

  lemma {:induction false} ByteKept(z: Size, m: seq<Byte>, offsets: seq<nat>, bias: nat, n: nat, x: nat)
    requires Reaches(z, |m|, offsets, bias) && n <= |offsets| && x < |m| && Untouched(z, offsets, bias, x)
    ensures Applied(z, m, offsets, bias, n)[x] == m[x]
    decreases n
  {
    if n > 0 {
      ByteKept(z, m, offsets, bias, n - 1, x);
    }
  }

  lemma EachOnce(z: Size, m: seq<Byte>, qs: seq<nat>, offsets: seq<nat>, bias: nat)
    requires Ascending(z, qs) && bias < z.Word() && offsets == Offsets(z, qs, 0, |qs|) && Reaches(z, |m|, offsets, bias)
    ensures WordsRelocated(z, m, Applied(z, m, offsets, bias, |offsets|), offsets, bias)
  {
    forall i | 0 <= i < |offsets| ensures
        Target(z, Applied(z, m, offsets, bias, |offsets|), offsets[i], bias) == Wrap(z, Target(z, m, offsets[i], bias) + bias) {
      AfterTurn(z, m, qs, offsets, bias, |offsets|, i);
    }
  }

  lemma NothingElse(z: Size, m: seq<Byte>, offsets: seq<nat>, bias: nat)
    requires Reaches(z, |m|, offsets, bias)
    ensures RestKept(z, m, Applied(z, m, offsets, bias, |offsets|), offsets, bias)
  {
    forall x | 0 <= x < |m| && Untouched(z, offsets, bias, x) ensures Applied(z, m, offsets, bias, |offsets|)[x] == m[x] {
      ByteKept(z, m, offsets, bias, |offsets|, x);
    }
  }

  // ---------------------------------------------------------------------------------
  // Written out
  // ---------------------------------------------------------------------------------

  lemma {:induction false} WrapIs(z: Size, x: nat)
    ensures Wrap(z, x) == x % z.Word()
  {
    if x >= z.Word() {
      WrapIs(z, x - z.Word());
    }
  }

  /** The address of word `q` of an image that is loaded with a bias. */
  ghost function AddressOf(z: Size, q: nat, bias: nat): nat
  {
    match z
    case Four => (4 * q + bias) % 0x1_0000_0000
    case Eight => (8 * q + bias) % 0x1_0000_0000_0000_0000
  }

  ghost function BytesOf(z: Size): nat
  {
    match z case Four => 4 case Eight => 8
  }

  /** Four bytes as a number, least significant byte first. */
  ghost function Quad(a: nat, b: nat, c: nat, d: nat): nat
  {
    a + 0x100 * b + 0x1_0000 * c + 0x100_0000 * d
  }

  /** The value of a word in memory, least significant byte first. */
  ghost function ValueOf(z: Size, m: seq<Byte>, a: nat): nat
    requires a + BytesOf(z) <= |m|
  {
    match z
    case Four => Quad(m[a], m[a + 1], m[a + 2], m[a + 3])
    case Eight => Quad(m[a], m[a + 1], m[a + 2], m[a + 3]) + 0x1_0000_0000 * Quad(m[a + 4], m[a + 5], m[a + 6], m[a + 7])
  }

  /** The sum of two words, as far as it fits into a word. */
  ghost function SumOf(z: Size, a: nat, b: nat): nat
  {
    match z
    case Four => (a + b) % 0x1_0000_0000
    case Eight => (a + b) % 0x1_0000_0000_0000_0000
  }

  lemma LoadFour(m: seq<Byte>)
    requires |m| == 4
    ensures Load(m) == Quad(m[0], m[1], m[2], m[3])
  {
    assert Load(m[3..]) == m[3] by { assert m[3..][1..] == []; }
    assert Load(m[2..]) == m[2] + 256 * Load(m[3..]) by { assert m[2..][1..] == m[3..]; }
    assert Load(m[1..]) == m[1] + 256 * Load(m[2..]) by { assert m[1..][1..] == m[2..]; }
  }

  lemma {:induction false} LoadConcat(a: seq<Byte>, b: seq<Byte>)
    ensures Load(a + b) == Load(a) + Pow256(|a|) * Load(b)
  {
    if a == [] {
      assert a + b == b;
    } else {
      LoadConcat(a[1..], b);
      assert (a + b)[1..] == a[1..] + b;
      assert Pow256(|a|) * Load(b) == 256 * (Pow256(|a| - 1) * Load(b));
    }
  }

  lemma WordIs(z: Size, m: seq<Byte>, a: nat)
    requires a + z.Bytes() <= |m|
    ensures WordAt(z, m, a) == ValueOf(z, m, a)
  {
    if z.Four? {
      LoadFour(m[a..a + 4]);
    } else {
      LoadFour(m[a..a + 4]);
      LoadFour(m[a + 4..a + 8]);
      LoadConcat(m[a..a + 4], m[a + 4..a + 8]);
      assert m[a..a + 8] == m[a..a + 4] + m[a + 4..a + 8];
      assert Pow256(4) == 0x1_0000_0000;
    }
  }

  lemma DestinationIs(z: Size, q: nat, bias: nat)
    ensures Destination(z, Words(z, q), bias) == AddressOf(z, q, bias)
  {
    WrapIs(z, Words(z, q) + bias);
  }

  lemma TargetIs(z: Size, m: seq<Byte>, q: nat, bias: nat)
    requires AddressOf(z, q, bias) + BytesOf(z) <= |m|
    ensures Destination(z, Words(z, q), bias) + z.Bytes() <= |m| && Target(z, m, Words(z, q), bias) == ValueOf(z, m, AddressOf(z, q, bias))
  {
    DestinationIs(z, q, bias);
    WordIs(z, m, AddressOf(z, q, bias));
  }

  /** Every word of `qs` fits into memory. */
  ghost predicate InMemory(z: Size, length: nat, qs: seq<nat>, bias: nat)
  {
    forall i :: 0 <= i < |qs| ==> AddressOf(z, qs[i], bias) + BytesOf(z) <= length
  }

  /** Every word of `qs` has grown by the bias. */
  ghost predicate WordsMoved(z: Size, m: seq<Byte>, r: seq<Byte>, qs: seq<nat>, bias: nat)
    requires |r| == |m| && InMemory(z, |m|, qs, bias)
  {
    forall i :: 0 <= i < |qs| ==>
      ValueOf(z, r, AddressOf(z, qs[i], bias)) == SumOf(z, ValueOf(z, m, AddressOf(z, qs[i], bias)), bias)
  }

  /** Every byte outside these words is the same. */
  ghost predicate BytesKept(z: Size, m: seq<Byte>, r: seq<Byte>, qs: seq<nat>, bias: nat)
    requires |r| == |m|
  {
    forall x :: 0 <= x < |m| && OutsideOf(z, qs, bias, x) ==> r[x] == m[x]
  }

  ghost predicate OutsideOf(z: Size, qs: seq<nat>, bias: nat, x: nat)
  {
    forall i :: 0 <= i < |qs| ==> x < AddressOf(z, qs[i], bias) || AddressOf(z, qs[i], bias) + BytesOf(z) <= x
  }

  lemma AllReached(z: Size, length: nat, qs: seq<nat>, bias: nat)
    requires InMemory(z, length, qs, bias)
    ensures Reaches(z, length, Offsets(z, qs, 0, |qs|), bias)
  {
    forall i | 0 <= i < |qs| ensures Destination(z, Offsets(z, qs, 0, |qs|)[i], bias) + z.Bytes() <= length {
      OffsetAt(z, qs, 0, |qs|, i);
      DestinationIs(z, qs[i], bias);
    }
  }

  lemma MovedIs(z: Size, m: seq<Byte>, r: seq<Byte>, qs: seq<nat>, bias: nat, i: nat)
    requires |r| == |m| && InMemory(z, |m|, qs, bias) && i < |qs|
    requires Reaches(z, |m|, Offsets(z, qs, 0, |qs|), bias) && WordsRelocated(z, m, r, Offsets(z, qs, 0, |qs|), bias)
    ensures ValueOf(z, r, AddressOf(z, qs[i], bias)) == SumOf(z, ValueOf(z, m, AddressOf(z, qs[i], bias)), bias)
  {
    OffsetAt(z, qs, 0, |qs|, i);
    TargetIs(z, m, qs[i], bias);
    TargetIs(z, r, qs[i], bias);
    WrapIs(z, Target(z, m, Words(z, qs[i]), bias) + bias);
  }

  lemma KeptIs(z: Size, qs: seq<nat>, bias: nat, x: nat)
    requires OutsideOf(z, qs, bias, x)
    ensures Untouched(z, Offsets(z, qs, 0, |qs|), bias, x)
  {
    forall i | 0 <= i < |qs| ensures
        !(Destination(z, Offsets(z, qs, 0, |qs|)[i], bias) <= x < Destination(z, Offsets(z, qs, 0, |qs|)[i], bias) + z.Bytes()) {
      OffsetAt(z, qs, 0, |qs|, i);
      DestinationIs(z, qs[i], bias);
    }
  }

  /** For every list of words there is a stream on which the loop relocates exactly these, each once. */
  lemma RelocatesExactly(z: Size, m: seq<Byte>, qs: seq<nat>, bias: nat)
    requires Ascending(z, qs) && bias < z.Word() && InMemory(z, |m|, qs, bias)
    ensures var all := Decode(z, ParseAll(z, Encode(z, qs)), 0);
            && Reaches(z, |m|, all, bias)
            && WordsMoved(z, m, Applied(z, m, all, bias, |all|), qs, bias) && BytesKept(z, m, Applied(z, m, all, bias, |all|), qs, bias)
  {
    var all := Offsets(z, qs, 0, |qs|);
    RoundTrip(z, qs);
    AllReached(z, |m|, qs, bias);
    EachOnce(z, m, qs, all, bias);
    NothingElse(z, m, all, bias);
    var r := Applied(z, m, all, bias, |all|);
    forall i | 0 <= i < |qs| ensures ValueOf(z, r, AddressOf(z, qs[i], bias)) == SumOf(z, ValueOf(z, m, AddressOf(z, qs[i], bias)), bias) {
      MovedIs(z, m, r, qs, bias, i);
    }
    forall x | 0 <= x < |m| && OutsideOf(z, qs, bias, x) ensures r[x] == m[x] {
      KeptIs(z, qs, bias, x);
    }
  }

  /** The loop on such a stream. */
  method RelocateEncoded(z: Size, mem: array<Byte>, qs: seq<nat>, bias: nat)
    requires Ascending(z, qs) && bias < z.Word() && InMemory(z, mem.Length, qs, bias)
    modifies mem
    ensures WordsMoved(z, old(mem[..]), mem[..], qs, bias) && BytesKept(z, old(mem[..]), mem[..], qs, bias)
  {
    RelocatesExactly(z, mem[..], qs, bias);
    RoundTrip(z, qs);
    RelocateRelr(z, mem, Encode(z, qs), bias);
  }

  // ---------------------------------------------------------------------------------
  // What one relocation and one entry mean
  // ---------------------------------------------------------------------------------

  /** One relocation adds the bias to the word that is `bias` above its offset, and changes nothing else. */
  lemma RelocatedMeans(z: Size, m: seq<Byte>, offset: nat, bias: nat)
    requires Destination(z, offset, bias) + z.Bytes() <= |m|
    ensures var a := (offset + bias) % z.Word(); var r := Relocated(z, m, offset, bias);
            && a + BytesOf(z) <= |m| && ValueOf(z, r, a) == SumOf(z, ValueOf(z, m, a), bias)
            && forall x :: 0 <= x < |m| && !(a <= x < a + BytesOf(z)) ==> r[x] == m[x]
  {
    var a, r := Destination(z, offset, bias), Relocated(z, m, offset, bias);
    WrapIs(z, offset + bias);
    RelocatedWord(z, m, offset, bias);
    WordIs(z, m, a);
    WordIs(z, r, a);
    WrapIs(z, WordAt(z, m, a) + bias);
  }

  lemma ShiftedIs(x: nat, k: nat)
    ensures Shifted(x, k) == x / Pow2(k)
  {
    var r := ShiftedRest(x, k);
    DivIs(x, Pow2(k), Shifted(x, k), r);
  }

  lemma {:induction false} ShiftedRest(x: nat, k: nat) returns (r: nat)
    ensures r < Pow2(k) && x == Shifted(x, k) * Pow2(k) + r
  {
    if k == 0 {
      r := 0;
    } else {
      r := ShiftedRest(x, k - 1);
      HalfIs(Shifted(x, k - 1));
      Regroup(Half(Shifted(x, k - 1)), Pow2(k - 1));
      r := if Shifted(x, k - 1) % 2 == 1 then Pow2(k - 1) + r else r;
    }
  }

  lemma Regroup(q: nat, p: nat)
    ensures q * (2 * p) == (2 * q) * p && (2 * q + 1) * p == (2 * q) * p + p
  {
  }

  lemma DivBounds(x: nat, d: nat)
    requires d > 0
    ensures x / d * d <= x < x / d * d + d
  {
  }

  lemma DivIs(x: nat, d: nat, q: nat, r: nat)
    requires r < d && x == q * d + r
    ensures x / d == q
  {
    var t := x / d;
    DivBounds(x, d);
    if t < q {
      MulLe(t + 1, q, d);
    } else if q < t {
      MulLe(q + 1, t, d);
    }
  }

  lemma MulLe(a: nat, b: nat, d: nat)
    requires a <= b
    ensures a * d <= b * d
  {
  }

  /** Bit `k` of an entry. */
  ghost predicate BitSet(e: nat, k: nat)
  {
    e / Pow2(k) % 2 == 1
  }

  lemma {:induction false} ChosenHas(z: Size, bits: seq<bool>, base: nat, i: nat, x: nat)
    requires i <= |bits|
    ensures x in Chosen(z, bits, base, i) <==> exists k :: i <= k < |bits| && bits[k] && x == Wrap(z, base + Words(z, k))
    decreases |bits| - i
  {
    if i < |bits| {
      ChosenHas(z, bits, base, i + 1, x);
    }
  }

  /** In an odd entry bit `k` stands for the word `k - 1` words above the base. */
  ghost predicate StandsFor(z: Size, e: nat, base: nat, k: nat, x: nat)
  {
    1 <= k <= 8 * BytesOf(z) - 1 && BitSet(e, k) && x == (base + BytesOf(z) * (k - 1)) % z.Word()
  }

  lemma StandsAt(z: Size, e: nat, base: nat, k: nat, x: nat)
    requires k < z.Span()
    ensures Bits(Half(e), z.Span())[k] && x == Wrap(z, base + Words(z, k)) <==> StandsFor(z, e, base, k + 1, x)
  {
    BitIs(z, e, k);
    WrapIs(z, base + Words(z, k));
  }

  lemma BitmapIs(z: Size, e: nat, base: nat, x: nat)
    ensures x in Chosen(z, Bits(Half(e), z.Span()), base, 0) <==> exists k :: StandsFor(z, e, base, k, x)
  {
    var bits := Bits(Half(e), z.Span());
    ChosenHas(z, bits, base, 0, x);
    if k :| 0 <= k < |bits| && bits[k] && x == Wrap(z, base + Words(z, k)) {
      StandsAt(z, e, base, k, x);
    }
    if k: nat :| StandsFor(z, e, base, k, x) {
      StandsAt(z, e, base, k - 1, x);
    }
  }

  /** An even entry is an offset. An odd one lists the offsets its bits stand for. */
  lemma EntryIs(z: Size, e: nat, base: nat, x: nat)
    ensures e % 2 == 0 ==> Decode(z, [Parse(z, e)], base) == [e]
    ensures e % 2 == 1 ==> (x in Decode(z, [Parse(z, e)], base) <==> exists k :: StandsFor(z, e, base, k, x))
  {
    HalfIs(e);
    var entry := Parse(z, e);
    assert [entry][1..] == [];
    if e % 2 == 1 {
      BitmapIs(z, e, base, x);
    }
  }

  /** The base after an entry: behind the word it names, or behind the 31 or 63 words it is about. */
  ghost function BaseAfter(z: Size, e: nat, base: nat): nat
  {
    match z
    case Four => (if e % 2 == 0 then e + 4 else base + 31 * 4) % 0x1_0000_0000
    case Eight => (if e % 2 == 0 then e + 8 else base + 63 * 8) % 0x1_0000_0000_0000_0000
  }

  lemma BaseAfterIs(z: Size, e: nat, base: nat)
    ensures BaseAfter(z, e, base) == Wrap(z, if Odd(e) then base + Words(z, z.Span()) else e + z.Bytes())
  {
    HalfIs(e);
    WrapIs(z, e + z.Bytes());
    WrapIs(z, base + Words(z, z.Span()));
  }

  lemma DecodeFirst(z: Size, entries: seq<Entry>, base: nat, next: nat)
    requires entries != []
    requires match entries[0] case Address(o) => next == Wrap(z, o + z.Bytes()) case Map(bits) => next == Wrap(z, base + Words(z, z.Span()))
    ensures Decode(z, entries, base) == Decode(z, [entries[0]], base) + Decode(z, entries[1..], next)
  {
    assert [entries[0]][1..] == [];
  }

  /** A stream is decoded entry by entry: what an entry means depends on the ones before it only through the base. */
  lemma StreamIs(z: Size, stream: seq<nat>, base: nat)
    requires stream != []
    ensures Decode(z, ParseAll(z, stream), base)
         == Decode(z, [Parse(z, stream[0])], base) + Decode(z, ParseAll(z, stream[1..]), BaseAfter(z, stream[0], base))
  {
    BaseAfterIs(z, stream[0], base);
    assert ParseAll(z, stream)[1..] == ParseAll(z, stream[1..]);
    DecodeFirst(z, ParseAll(z, stream), base, BaseAfter(z, stream[0], base));
  }

  lemma BitIs(z: Size, e: nat, k: nat)
    requires k < z.Span()
    ensures Bits(Half(e), z.Span())[k] <==> BitSet(e, k + 1)
  {
    BitsAt(Half(e), z.Span(), k);
    ShiftedHalf(e, k);
    HalfIs(Shifted(e, k + 1));
    ShiftedIs(e, k + 1);
  }
}
