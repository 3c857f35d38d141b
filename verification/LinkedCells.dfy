/** Singly linked lists in cells from one allocator: a header with head and tail, and entries with a link and an
    element. Both kinds have two words. */
module LinkedCells {

  datatype Cell = Cell(first: nat, second: nat)

  type Cells = map<nat, Cell>

  function EntryAt(spine: seq<nat>, i: nat): nat {
    if i < |spine| then spine[i] else 0
  }

  function Last(spine: seq<nat>): nat {
    if spine == [] then 0 else spine[|spine| - 1]
  }

  ghost predicate Linked(cells: Cells, spine: seq<nat>, elems: seq<nat>, i: nat)
    requires i < |spine| == |elems|
  {
    spine[i] in cells && cells[spine[i]] == Cell(EntryAt(spine, i + 1), elems[i])
  }

  ghost predicate Distinct(spine: seq<nat>)
  {
    0 !in spine && forall i, j :: 0 <= i < |spine| && 0 <= j < |spine| && i != j ==> spine[i] != spine[j]
  }

  ghost predicate Chain(cells: Cells, spine: seq<nat>, elems: seq<nat>)
  {
    |spine| == |elems| && Distinct(spine) && forall i :: 0 <= i < |spine| ==> Linked(cells, spine, elems, i)
  }

  /** The header is allocated with the first element and stays. */
  ghost predicate Headed(cells: Cells, header: nat, spine: seq<nat>)
  {
    if header == 0 then spine == []
    else header in cells && cells[header] == Cell(EntryAt(spine, 0), Last(spine)) && header !in spine
  }

  /** The list at `header` holds `elems`, in the entries `spine`. */
  ghost predicate ListOk(cells: Cells, header: nat, spine: seq<nat>, elems: seq<nat>)
  {
    Chain(cells, spine, elems) && Headed(cells, header, spine)
  }

  ghost predicate Owned(header: nat, spine: seq<nat>, a: nat)
  {
    a in spine || (a == header && header != 0)
  }

  /** Only the cells of one list have changed, have been allocated or freed. */
  ghost predicate Local(cells: Cells, header: nat, spine: seq<nat>, after: Cells, header': nat, spine': seq<nat>)
  {
    && (forall a :: a in after <==> (a in cells && !Owned(header, spine, a)) || Owned(header', spine', a))
    && (forall a :: a in cells && !Owned(header, spine, a) ==> a in after && after[a] == cells[a])
    && (forall a :: Owned(header', spine', a) && !Owned(header, spine, a) ==> a !in cells)
  }

  // ---------------------------------------------------------------------------------
  // Pushing
  // ---------------------------------------------------------------------------------

  /** `alloc_header`: `h` is what the allocator returns. */
  method AllocHeader(cells: Cells, header: nat, h: nat, ghost spine: seq<nat>, ghost elems: seq<nat>)
    returns (after: Cells, header': nat)
    requires ListOk(cells, header, spine, elems) && h != 0 && h !in cells
    ensures ListOk(after, header', spine, elems) && Local(cells, header, spine, after, header', spine)
    ensures header' != 0 && header' in after && header' == if header == 0 then h else header
    ensures forall a :: a in after ==> a in cells || a == h
  {
    after, header' := cells, header;
    if header == 0 {
      header' := h;
      after := cells[h := Cell(0, 0)];
    } else {
      forall a | Owned(header, spine, a) ensures a in cells {
        OwnedIn(cells, header, spine, elems, a);
      }
    }
  }

  lemma OwnedIn(cells: Cells, header: nat, spine: seq<nat>, elems: seq<nat>, a: nat)
    requires ListOk(cells, header, spine, elems) && Owned(header, spine, a)
    ensures a in cells
  {
    if a in spine {
      var i :| 0 <= i < |spine| && spine[i] == a;
      assert Linked(cells, spine, elems, i);
    }
  }

  /** The cells after `push_front` on a list with a header. */
  function Fronted(cells: Cells, header: nat, e: nat, x: nat): Cells
    requires header in cells
  {
    var h := cells[header];
    cells[e := Cell(h.first, x)][header := Cell(e, if h.second == 0 then e else h.second)]
  }

  lemma FrontedOk(cells: Cells, header: nat, spine: seq<nat>, elems: seq<nat>, e: nat, x: nat)
    requires ListOk(cells, header, spine, elems) && header != 0 && e != 0 && e !in cells
    ensures ListOk(Fronted(cells, header, e, x), header, [e] + spine, [x] + elems)
    ensures Local(cells, header, spine, Fronted(cells, header, e, x), header, [e] + spine)
  {
    var after, more, longer := Fronted(cells, header, e, x), [e] + spine, [x] + elems;
    forall a | Owned(header, spine, a) ensures a in cells {
      OwnedIn(cells, header, spine, elems, a);
    }
    forall i | 0 <= i < |more| ensures Linked(after, more, longer, i) {
      if i > 0 {
        assert Linked(cells, spine, elems, i - 1);
      }
    }
  }

  /** The cells after `push_back` on a list with a header. */
  function Backed(cells: Cells, header: nat, e: nat, x: nat): Cells
    requires header in cells && (cells[header].second == 0 || cells[header].second in cells)
  {
    var h := cells[header];
    if h.second == 0 then cells[e := Cell(0, x)][header := Cell(e, e)]
    else cells[e := Cell(0, x)][h.second := Cell(e, cells[h.second].second)][header := Cell(h.first, e)]
  }

  lemma TailIn(cells: Cells, header: nat, spine: seq<nat>, elems: seq<nat>)
    requires ListOk(cells, header, spine, elems) && header != 0
    ensures if spine == [] then cells[header].second == 0
            else cells[header].second == spine[|spine| - 1] != 0 && Linked(cells, spine, elems, |spine| - 1)
  {
  }

  lemma BackedOk(cells: Cells, header: nat, spine: seq<nat>, elems: seq<nat>, e: nat, x: nat)
    requires ListOk(cells, header, spine, elems) && header != 0 && e != 0 && e !in cells
    ensures cells[header].second == 0 || cells[header].second in cells
    ensures ListOk(Backed(cells, header, e, x), header, spine + [e], elems + [x])
    ensures Local(cells, header, spine, Backed(cells, header, e, x), header, spine + [e])
  {
    TailIn(cells, header, spine, elems);
    var after, more, longer := Backed(cells, header, e, x), spine + [e], elems + [x];
    forall a | Owned(header, spine, a) ensures a in cells {
      OwnedIn(cells, header, spine, elems, a);
    }
    forall i | 0 <= i < |more| ensures Linked(after, more, longer, i) {
      if i < |spine| {
        assert Linked(cells, spine, elems, i);
      }
    }
  }

  // ---------------------------------------------------------------------------------
  // Unlinking
  // ---------------------------------------------------------------------------------

  function Cut<T>(s: seq<T>, i: nat): seq<T>
    requires i < |s|
  {
    s[..i] + s[i + 1..]
  }

  /** The cells after the entry `e` behind `p` has been unlinked and freed. */
  function Unlinked(cells: Cells, header: nat, p: nat, e: nat): Cells
    requires header in cells && e in cells && (p == 0 || p in cells)
  {
    var next := cells[e].first;
    var linked := if p == 0 then cells[header := Cell(next, cells[header].second)] else cells[p := Cell(next, cells[p].second)];
    (if linked[header].second == e then linked[header := Cell(linked[header].first, p)] else linked) - {e}
  }

  function Before(spine: seq<nat>, i: nat): nat
    requires i <= |spine|
  {
    if i == 0 then 0 else spine[i - 1]
  }

  lemma CutDistinct(spine: seq<nat>, i: nat)
    requires Distinct(spine) && i < |spine|
    ensures Distinct(Cut(spine, i)) && forall a :: a in Cut(spine, i) <==> a in spine && a != spine[i]
  {
    forall a | a in spine && a != spine[i] ensures a in Cut(spine, i) {
      var j :| 0 <= j < |spine| && spine[j] == a;
      assert Cut(spine, i)[if j < i then j else j - 1] == a;
    }
  }

  lemma UnlinkedChain(cells: Cells, header: nat, spine: seq<nat>, elems: seq<nat>, i: nat)
    requires ListOk(cells, header, spine, elems) && header != 0 && i < |spine|
    requires spine[i] in cells && (i == 0 || spine[i - 1] in cells)
    ensures Chain(Unlinked(cells, header, Before(spine, i), spine[i]), Cut(spine, i), Cut(elems, i))
  {
    var after, less, shorter := Unlinked(cells, header, Before(spine, i), spine[i]), Cut(spine, i), Cut(elems, i);
    CutDistinct(spine, i);
    assert Linked(cells, spine, elems, i);
    forall j | 0 <= j < |less| ensures Linked(after, less, shorter, j) {
      var k := if j < i then j else j + 1;
      assert Linked(cells, spine, elems, k) && less[j] == spine[k];
    }
  }

  lemma EntryIn(cells: Cells, header: nat, spine: seq<nat>, elems: seq<nat>, i: nat)
    requires ListOk(cells, header, spine, elems) && i < |spine|
    ensures header != 0 && header in cells && spine[i] != 0 && Linked(cells, spine, elems, i)
    ensures i > 0 ==> Linked(cells, spine, elems, i - 1)
  {
  }

  lemma UnlinkedOk(cells: Cells, header: nat, spine: seq<nat>, elems: seq<nat>, i: nat)
    requires ListOk(cells, header, spine, elems) && i < |spine|
    ensures header in cells && spine[i] in cells && (i == 0 || spine[i - 1] in cells)
    ensures var after := Unlinked(cells, header, Before(spine, i), spine[i]);
            ListOk(after, header, Cut(spine, i), Cut(elems, i)) && Local(cells, header, spine, after, header, Cut(spine, i))
  {
    EntryIn(cells, header, spine, elems, i);
    UnlinkedChain(cells, header, spine, elems, i);
    CutDistinct(spine, i);
    forall a | Owned(header, spine, a) ensures a in cells {
      OwnedIn(cells, header, spine, elems, a);
    }
  }
}
