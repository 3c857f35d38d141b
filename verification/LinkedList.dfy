/** Many linked lists that share one allocator. */
module LinkedList {
  import opened LinkedCells

  // ---------------------------------------------------------------------------------
  // Loops over one list
  // ---------------------------------------------------------------------------------

  /** The elements that do not satisfy the predicate, in order. */
  function Remaining(gone: nat -> bool, s: seq<nat>): seq<nat> {
    if s == [] then []
    else Remaining(gone, s[..|s| - 1]) + if gone(s[|s| - 1]) then [] else [s[|s| - 1]]
  }

  lemma LocalTwice(a: Cells, h: nat, s: seq<nat>, b: Cells, s': seq<nat>, c: Cells, s'': seq<nat>)
    requires Local(a, h, s, b, h, s') && Local(b, h, s', c, h, s'')
    requires forall x :: x in s'' ==> x in s'
    requires forall x :: x in s' ==> x in s
    ensures Local(a, h, s, c, h, s'')
  {
  }

  lemma RemainingStep(gone: nat -> bool, elems: seq<nat>, now: seq<nat>, k: nat, n: nat)
    requires k < |now| && n < |elems| && now[k..] == elems[n..]
    requires now[..k] == Remaining(gone, elems[..n])
    ensures now[k] == elems[n]
    ensures if gone(now[k]) then Cut(now, k)[..k] == Remaining(gone, elems[..n + 1]) && Cut(now, k)[k..] == elems[n + 1..]
            else now[..k + 1] == Remaining(gone, elems[..n + 1]) && now[k + 1..] == elems[n + 1..]
  {
    assert now[k..][0] == now[k] && elems[n..][0] == elems[n];
    assert now[k..][1..] == now[k + 1..] && elems[n..][1..] == elems[n + 1..];
    assert elems[..n + 1][..n] == elems[..n];
    assert Cut(now, k)[..k] == now[..k] && Cut(now, k)[k..] == now[k + 1..];
  }

  /** The loop of `remove_if`. */
  method RemoveLoop(cells: Cells, header: nat, ghost spine: seq<nat>, ghost elems: seq<nat>, gone: nat -> bool)
    returns (after: Cells, ghost less: seq<nat>)
    requires ListOk(cells, header, spine, elems) && header != 0
    ensures ListOk(after, header, less, Remaining(gone, elems)) && Local(cells, header, spine, after, header, less)
  {
    after, less := cells, spine;
    ghost var now, k, n := elems, 0, 0;
    forall a | Owned(header, spine, a) ensures a in cells {
      OwnedIn(cells, header, spine, elems, a);
    }
    var e, p := cells[header].first, 0;
    while e != 0
      invariant ListOk(after, header, less, now) && Local(cells, header, spine, after, header, less)
      invariant forall x :: x in less ==> x in spine
      invariant k <= |less| && e == EntryAt(less, k) && p == Before(less, k)
      invariant n <= |elems| && now[k..] == elems[n..] && now[..k] == Remaining(gone, elems[..n])
      decreases |elems| - n
    {
      EntryIn(after, header, less, now, k);
      assert |now[k..]| == |elems[n..]|;
      RemainingStep(gone, elems, now, k, n);
      if gone(after[e].second) {
        UnlinkedOk(after, header, less, now, k);
        CutDistinct(less, k);
        ghost var unlinked := Unlinked(after, header, p, e);
        LocalTwice(cells, header, spine, after, less, unlinked, Cut(less, k));
        var next := after[e].first;
        after := Unlinked(after, header, p, e);
        less, now := Cut(less, k), Cut(now, k);
        e := next;
      } else {
        p := e;
        e := after[e].first;
        k := k + 1;
      }
      n := n + 1;
    }
    assert now == now[..k] && elems == elems[..n];
  }

  /** The loop of `clear`, which leaves the tail for last. */
  method ClearLoop(cells: Cells, header: nat, ghost spine: seq<nat>, ghost elems: seq<nat>) returns (after: Cells)
    requires ListOk(cells, header, spine, elems) && header != 0
    ensures ListOk(after, header, [], []) && Local(cells, header, spine, after, header, [])
  {
    after := cells;
    ghost var k := 0;
    forall a | Owned(header, spine, a) ensures a in cells {
      OwnedIn(cells, header, spine, elems, a);
    }
    while after[header].first != 0
      invariant k <= |spine| && header in after && after[header] == Cell(EntryAt(spine, k), Last(spine))
      invariant forall a :: a in after <==> a in cells && a !in spine[..k]
      invariant forall a :: a in after && a != header ==> after[a] == cells[a]
      decreases |spine| - k
    {
      var p := after[header].first;
      assert Linked(cells, spine, elems, k) && p !in spine[..k];
      after := after[header := Cell(after[p].first, after[header].second)] - {p};
      assert spine[..k + 1] == spine[..k] + [p];
      k := k + 1;
    }
    assert spine[..k] == spine;
    after := after[header := Cell(after[header].first, 0)];
  }

  /** `find_if`: the first element that satisfies the predicate. */
  method FindIf(cells: Cells, header: nat, ghost spine: seq<nat>, ghost elems: seq<nat>, wanted: nat -> bool)
    returns (found: bool, x: nat)
    requires ListOk(cells, header, spine, elems)
    ensures found <==> exists i :: 0 <= i < |elems| && wanted(elems[i])
    ensures found ==> exists i :: 0 <= i < |elems| && x == elems[i] && wanted(x) && forall j :: 0 <= j < i ==> !wanted(elems[j])
  {
    var e := if header != 0 then cells[header].first else 0;
    ghost var k := 0;
    while e != 0
      invariant k <= |spine| && e == EntryAt(spine, k) && forall j :: 0 <= j < k ==> !wanted(elems[j])
      decreases |spine| - k
    {
      assert Linked(cells, spine, elems, k);
      if wanted(cells[e].second) {
        return true, cells[e].second;
      }
      e := cells[e].first;
      k := k + 1;
    }
    found, x := false, 0;
  }

  /** `copy_to_array`. */
  method CopyToArray(cells: Cells, header: nat, ghost spine: seq<nat>, ghost elems: seq<nat>, target: array<nat>) returns (size: nat)
    requires ListOk(cells, header, spine, elems)
    modifies target
    ensures size == if |elems| < target.Length then |elems| else target.Length
    ensures target[..size] == elems[..size] && target[size..] == old(target[size..])
  {
    size := 0;
    var e := if header != 0 then cells[header].first else 0;
    while size < target.Length && e != 0
      invariant size <= |spine| && size <= target.Length && e == EntryAt(spine, size)
      invariant forall j :: 0 <= j < size ==> target[j] == elems[j]
      invariant forall j :: size <= j < target.Length ==> target[j] == old(target[j])
      decreases target.Length - size
    {
      assert Linked(cells, spine, elems, size);
      target[size] := cells[e].second;
      size := size + 1;
      e := cells[e].first;
    }
  }

  // ---------------------------------------------------------------------------------
  // Many lists
  // ---------------------------------------------------------------------------------

  /** The number of cells of a list. */
  function Weight(header: nat, spine: seq<nat>): nat {
    |spine| + if header != 0 then 1 else 0
  }

  ghost function Total(headers: seq<nat>, spines: seq<seq<nat>>, n: nat): nat
    requires n <= |headers| == |spines|
  {
    if n == 0 then 0 else Total(headers, spines, n - 1) + Weight(headers[n - 1], spines[n - 1])
  }

  lemma {:induction false} TotalSame(headers: seq<nat>, spines: seq<seq<nat>>, id: nat, header: nat, spine: seq<nat>, n: nat)
    requires n <= |headers| == |spines| && id < |headers|
    ensures Total(headers[id := header], spines[id := spine], n) ==
            Total(headers, spines, n) + if id < n then Weight(header, spine) - Weight(headers[id], spines[id]) else 0
  {
    if n > 0 {
      TotalSame(headers, spines, id, header, spine, n - 1);
    }
  }

  lemma {:induction false} TotalPrefix(headers: seq<nat>, spines: seq<seq<nat>>, header: nat, spine: seq<nat>, n: nat)
    requires n <= |headers| == |spines|
    ensures Total(headers + [header], spines + [spine], n) == Total(headers, spines, n)
  {
    if n > 0 {
      TotalPrefix(headers, spines, header, spine, n - 1);
    }
  }

  lemma {:induction false} TotalZero(headers: seq<nat>, spines: seq<seq<nat>>, n: nat)
    requires n <= |headers| == |spines|
    requires forall i :: 0 <= i < n ==> headers[i] == 0 && spines[i] == []
    ensures Total(headers, spines, n) == 0
  {
    if n > 0 {
      TotalZero(headers, spines, n - 1);
    }
  }

  ghost function Entries(spine: seq<nat>): set<nat>
  {
    set a | a in spine
  }

  ghost function OwnedSet(header: nat, spine: seq<nat>): set<nat>
  {
    Entries(spine) + if header != 0 then {header} else {}
  }

  lemma {:induction false} SpineCount(spine: seq<nat>)
    requires Distinct(spine)
    ensures |Entries(spine)| == |spine|
  {
    if spine != [] {
      var last, rest := spine[|spine| - 1], spine[..|spine| - 1];
      SpineCount(rest);
      assert forall i :: 0 <= i < |rest| ==> rest[i] == spine[i] != last;
      assert last !in rest;
      assert Entries(spine) == Entries(rest) + {last};
    }
  }

  lemma OwnedCount(cells: Cells, header: nat, spine: seq<nat>, elems: seq<nat>)
    requires ListOk(cells, header, spine, elems)
    ensures |OwnedSet(header, spine)| == Weight(header, spine)
    ensures forall a :: a in OwnedSet(header, spine) <==> Owned(header, spine, a)
    ensures OwnedSet(header, spine) <= cells.Keys
  {
    SpineCount(spine);
    assert header != 0 ==> header !in Entries(spine);
    forall a | Owned(header, spine, a) ensures a in cells {
      OwnedIn(cells, header, spine, elems, a);
    }
  }

  lemma LocalCount(cells: Cells, header: nat, spine: seq<nat>, elems: seq<nat>, after: Cells, header': nat, spine': seq<nat>, elems': seq<nat>)
    requires ListOk(cells, header, spine, elems) && ListOk(after, header', spine', elems')
    requires Local(cells, header, spine, after, header', spine')
    ensures |after| == |cells| - Weight(header, spine) + Weight(header', spine')
  {
    OwnedCount(cells, header, spine, elems);
    OwnedCount(after, header', spine', elems');
    var others := cells.Keys - OwnedSet(header, spine);
    assert after.Keys == others + OwnedSet(header', spine');
    assert others !! OwnedSet(header', spine');
    assert |after| == |after.Keys| && |cells| == |cells.Keys|;
  }

  ghost predicate Owns(owner: map<nat, nat>, id: nat, header: nat, spine: seq<nat>)
  {
    forall a :: Owned(header, spine, a) <==> a in owner && owner[a] == id
  }

  /** Every list is in order, every cell belongs to one list, and no cell is lost. */
  ghost predicate Sound(cells: Cells, headers: seq<nat>, spines: seq<seq<nat>>, contents: seq<seq<nat>>, owner: map<nat, nat>)
  {
    && |headers| == |spines| == |contents| && 0 !in cells && cells.Keys == owner.Keys
    && (forall a :: a in owner ==> owner[a] < |headers|)
    && (forall id :: 0 <= id < |headers| ==> ListOk(cells, headers[id], spines[id], contents[id]))
    && (forall id :: 0 <= id < |headers| ==> Owns(owner, id, headers[id], spines[id]))
    && |cells| == Total(headers, spines, |headers|)
  }

  /** Another list is not affected. */
  lemma OtherList(cells: Cells, after: Cells, header: nat, spine: seq<nat>, elems: seq<nat>)
    requires ListOk(cells, header, spine, elems)
    requires forall a :: Owned(header, spine, a) ==> a in after && (a in cells ==> after[a] == cells[a])
    ensures ListOk(after, header, spine, elems)
  {
    forall i | 0 <= i < |spine| ensures Linked(after, spine, elems, i) {
      assert Linked(cells, spine, elems, i) && Owned(header, spine, spine[i]);
    }
    if header != 0 {
      assert Owned(header, spine, header);
    }
  }

  ghost function NewOwner(after: Cells, owner: map<nat, nat>, id: nat, header: nat, spine: seq<nat>): map<nat, nat>
  {
    map a | a in after :: if Owned(header, spine, a) || a !in owner then id else owner[a]
  }

  lemma OtherOwns(cells: Cells, after: Cells, owner: map<nat, nat>, id: nat, header: nat, spine: seq<nat>, header': nat, spine': seq<nat>, other: nat, h: nat, s: seq<nat>)
    requires cells.Keys == owner.Keys && Local(cells, header, spine, after, header', spine')
    requires Owns(owner, id, header, spine) && Owns(owner, other, h, s) && other != id
    ensures Owns(NewOwner(after, owner, id, header', spine'), other, h, s)
    ensures forall a :: Owned(h, s, a) ==> a in after && a in cells && after[a] == cells[a]
  {
    forall a | Owned(h, s, a) ensures a in after && a in cells && after[a] == cells[a] && !Owned(header', spine', a) {
      assert a in owner && owner[a] == other;
      assert !Owned(header, spine, a);
    }
  }

  /** What is done to one list keeps everything in order. */
  lemma Replaced(cells: Cells, headers: seq<nat>, spines: seq<seq<nat>>, contents: seq<seq<nat>>, owner: map<nat, nat>, id: nat,
                 after: Cells, header: nat, spine: seq<nat>, elems: seq<nat>)
    requires Sound(cells, headers, spines, contents, owner) && id < |headers| && 0 !in after
    requires ListOk(after, header, spine, elems) && Local(cells, headers[id], spines[id], after, header, spine)
    ensures Sound(after, headers[id := header], spines[id := spine], contents[id := elems], NewOwner(after, owner, id, header, spine))
  {
    var hs, ss, cs, os := headers[id := header], spines[id := spine], contents[id := elems], NewOwner(after, owner, id, header, spine);
    LocalCount(cells, headers[id], spines[id], contents[id], after, header, spine, elems);
    TotalSame(headers, spines, id, header, spine, |headers|);
    forall k | 0 <= k < |hs| ensures ListOk(after, hs[k], ss[k], cs[k]) && Owns(os, k, hs[k], ss[k]) {
      if k != id {
        OtherStays(cells, headers, spines, contents, owner, id, after, header, spine, k);
      } else {
        SelfOwns(cells, after, owner, id, headers[id], spines[id], header, spine, elems);
      }
    }
  }

  lemma OtherStays(cells: Cells, headers: seq<nat>, spines: seq<seq<nat>>, contents: seq<seq<nat>>, owner: map<nat, nat>, id: nat,
                   after: Cells, header: nat, spine: seq<nat>, k: nat)
    requires Sound(cells, headers, spines, contents, owner) && id < |headers| && k < |headers| && k != id
    requires Local(cells, headers[id], spines[id], after, header, spine)
    ensures ListOk(after, headers[k], spines[k], contents[k]) && Owns(NewOwner(after, owner, id, header, spine), k, headers[k], spines[k])
  {
    OtherOwns(cells, after, owner, id, headers[id], spines[id], header, spine, k, headers[k], spines[k]);
    OtherList(cells, after, headers[k], spines[k], contents[k]);
  }

  lemma SelfOwns(cells: Cells, after: Cells, owner: map<nat, nat>, id: nat, header: nat, spine: seq<nat>, header': nat, spine': seq<nat>, elems: seq<nat>)
    requires cells.Keys == owner.Keys && Local(cells, header, spine, after, header', spine') && Owns(owner, id, header, spine)
    requires ListOk(after, header', spine', elems)
    ensures Owns(NewOwner(after, owner, id, header', spine'), id, header', spine')
  {
    forall a | Owned(header', spine', a) ensures a in after {
      OwnedIn(after, header', spine', elems, a);
    }
  }

  class Lists {
    /** The cells that the allocator has handed out. */
    var cells: Cells

    /** The field `header_` of every list. A list that was destroyed has none. */
    var headers: seq<nat>

    ghost var spines: seq<seq<nat>>
    ghost var contents: seq<seq<nat>>
    ghost var owner: map<nat, nat>

    ghost predicate Valid()
      reads this
    {
      Sound(cells, headers, spines, contents, owner)
    }

    constructor ()
      ensures Valid() && contents == [] && cells == map[]
    {
      cells, headers := map[], [];
      spines, contents, owner := [], [], map[];
    }

    /** Puts the new state of one list in place. */
    method Install(id: nat, after: Cells, header: nat, ghost spine: seq<nat>, ghost elems: seq<nat>)
      requires Valid() && id < |headers| && 0 !in after && ListOk(after, header, spine, elems)
      requires Local(cells, headers[id], spines[id], after, header, spine)
      modifies this
      ensures Valid() && cells == after && contents == old(contents)[id := elems] && spines == old(spines)[id := spine]
      ensures headers == old(headers)[id := header]
    {
      Replaced(cells, headers, spines, contents, owner, id, after, header, spine, elems);
      owner := NewOwner(after, owner, id, header, spine);
      cells, headers := after, headers[id := header];
      spines, contents := spines[id := spine], contents[id := elems];
    }

    /** A list is made. */
    method Make() returns (id: nat)
      requires Valid()
      modifies this
      ensures Valid() && id == |old(contents)| && contents == old(contents) + [[]] && cells == old(cells)
    {
      id := |headers|;
      TotalPrefix(headers, spines, 0, [], |headers|);
      headers := headers + [0];
      spines, contents := spines + [[]], contents + [[]];
    }

    /** `push_front`. The allocator returns `h` for a header that is missing, and `e`. */
    method PushFront(id: nat, x: nat, h: nat, e: nat)
      requires Valid() && id < |headers| && h != 0 && e != 0 && h != e && h !in cells && e !in cells
      modifies this
      ensures Valid() && contents == old(contents)[id := [x] + old(contents[id])]
    {
      var after, header := AllocHeader(cells, headers[id], h, spines[id], contents[id]);
      FrontedOk(after, header, spines[id], contents[id], e, x);
      LocalPush(cells, headers[id], spines[id], after, header, Fronted(after, header, e, x), [e] + spines[id], e);
      Install(id, Fronted(after, header, e, x), header, [e] + spines[id], [x] + contents[id]);
    }

    /** `push_back`. */
    method PushBack(id: nat, x: nat, h: nat, e: nat)
      requires Valid() && id < |headers| && h != 0 && e != 0 && h != e && h !in cells && e !in cells
      modifies this
      ensures Valid() && contents == old(contents)[id := old(contents[id]) + [x]]
    {
      var after, header := AllocHeader(cells, headers[id], h, spines[id], contents[id]);
      BackedOk(after, header, spines[id], contents[id], e, x);
      LocalPush(cells, headers[id], spines[id], after, header, Backed(after, header, e, x), spines[id] + [e], e);
      Install(id, Backed(after, header, e, x), header, spines[id] + [e], contents[id] + [x]);
    }

    /** `pop_front`: what it does to head and tail is what `remove_if` does to the first entry. */
    method PopFront(id: nat) returns (x: nat)
      requires Valid() && id < |headers|
      modifies this
      ensures Valid() && if old(contents[id]) == [] then x == 0 && contents == old(contents) && cells == old(cells)
                         else x == old(contents[id])[0] && contents == old(contents)[id := old(contents[id])[1..]]
    {
      var header := headers[id];
      x := 0;
      if header != 0 && cells[header].first != 0 {
        var e := cells[header].first;
        x := cells[e].second;
        UnlinkedOk(cells, header, spines[id], contents[id], 0);
        EntryIn(cells, header, spines[id], contents[id], 0);
        PopCut(spines[id]);
        PopCut(contents[id]);
        Install(id, Unlinked(cells, header, 0, e), header, spines[id][1..], contents[id][1..]);
      }
    }

    /** `remove_if`. */
    method RemoveIf(id: nat, gone: nat -> bool)
      requires Valid() && id < |headers|
      modifies this
      ensures Valid() && contents == old(contents)[id := Remaining(gone, old(contents[id]))]
    {
      if headers[id] != 0 {
        ghost var less;
        var after;
        after, less := RemoveLoop(cells, headers[id], spines[id], contents[id], gone);
        Install(id, after, headers[id], less, Remaining(gone, contents[id]));
      }
    }

    /** `clear`. */
    method Clear(id: nat)
      requires Valid() && id < |headers|
      modifies this
      ensures Valid() && headers == old(headers) && contents == old(contents)[id := []] && spines == old(spines)[id := []]
    {
      if headers[id] != 0 {
        var after := ClearLoop(cells, headers[id], spines[id], contents[id]);
        Install(id, after, headers[id], [], []);
      }
    }

    /** The destructor. */
    method Destroy(id: nat)
      requires Valid() && id < |headers|
      modifies this
      ensures Valid() && contents == old(contents)[id := []]
      ensures headers == old(headers)[id := 0]
    {
      Clear(id);
      if headers[id] != 0 {
        Install(id, cells - {headers[id]}, 0, [], []);
      }
    }

    /** The move constructor: a new list takes over what `from` had. */
    method Move(from: nat) returns (id: nat)
      requires Valid() && from < |headers|
      modifies this
      ensures Valid() && id == |old(contents)| && cells == old(cells)
      ensures contents == old(contents)[from := []] + [old(contents[from])]
    {
      id := |headers|;
      Moved(cells, headers, spines, contents, owner, from);
      owner := Renamed(owner, from, |headers|);
      spines, contents := spines[from := []] + [spines[from]], contents[from := []] + [contents[from]];
      headers := headers[from := 0] + [headers[from]];
    }

    /** Once every list is destroyed nothing is allocated. */
    lemma AllFreed()
      requires Valid() && forall id :: 0 <= id < |headers| ==> headers[id] == 0
      ensures cells == map[]
    {
      TotalZero(headers, spines, |headers|);
    }
  }

  lemma PopCut<T>(s: seq<T>)
    requires s != []
    ensures Cut(s, 0) == s[1..]
  {
  }

  ghost function Renamed(owner: map<nat, nat>, from: nat, to: nat): map<nat, nat>
  {
    map a | a in owner :: if owner[a] == from then to else owner[a]
  }

  lemma RenamedOwns(owner: map<nat, nat>, from: nat, to: nat, id: nat, header: nat, spine: seq<nat>)
    requires id != to && Owns(owner, id, header, spine) && forall a :: a in owner ==> owner[a] != to
    ensures Owns(Renamed(owner, from, to), if id == from then to else id, header, spine)
  {
  }

  lemma MovedTotal(headers: seq<nat>, spines: seq<seq<nat>>, from: nat)
    requires from < |headers| == |spines|
    ensures Total(headers[from := 0] + [headers[from]], spines[from := []] + [spines[from]], |headers| + 1) ==
            Total(headers, spines, |headers|)
  {
    TotalSame(headers, spines, from, 0, [], |headers|);
    TotalPrefix(headers[from := 0], spines[from := []], headers[from], spines[from], |headers|);
  }

  lemma Moved(cells: Cells, headers: seq<nat>, spines: seq<seq<nat>>, contents: seq<seq<nat>>, owner: map<nat, nat>, from: nat)
    requires Sound(cells, headers, spines, contents, owner) && from < |headers|
    ensures Sound(cells, headers[from := 0] + [headers[from]], spines[from := []] + [spines[from]], contents[from := []] + [contents[from]],
                  Renamed(owner, from, |headers|))
  {
    var n := |headers|;
    var hs, ss, cs := headers[from := 0] + [headers[from]], spines[from := []] + [spines[from]], contents[from := []] + [contents[from]];
    MovedTotal(headers, spines, from);
    forall id | 0 <= id < |hs| ensures ListOk(cells, hs[id], ss[id], cs[id]) && Owns(Renamed(owner, from, n), id, hs[id], ss[id]) {
      if id != from {
        RenamedOwns(owner, from, n, if id == n then from else id, hs[id], ss[id]);
      }
    }
  }

  lemma LocalPush(a: Cells, h: nat, s: seq<nat>, b: Cells, h': nat, c: Cells, s': seq<nat>, e: nat)
    requires Local(a, h, s, b, h', s) && Local(b, h', s, c, h', s') && e !in a
    requires forall x :: x in s' <==> x in s || x == e
    requires h != 0 ==> h' == h
    ensures Local(a, h, s, c, h', s')
  {
  }
}
