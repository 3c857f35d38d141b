/** The pages of the loader's block allocator, as words of memory: a pointer to the next page, then blocks of
    one size. Free blocks form a list of runs, whose headers are in the blocks. */
module Blocks {

  const ALLOCATE_SIZE := 0x1_0000 * 6

  /** `k * n`, without the solver's arithmetic. */
  function Times(k: nat, n: nat): nat {
    if k == 0 then 0 else Times(k - 1, n) + n
  }

  /** `space / size`, the same way. */
  function Fit(space: nat, size: nat): nat {
    if size == 0 || space < size then 0 else 1 + Fit(space - size, size)
  }

  lemma {:induction false} TimesIs(k: nat, n: nat)
    ensures Times(k, n) == k * n
  {
    if k > 0 {
      TimesIs(k - 1, n);
    }
  }

  /** It is the quotient. */
  lemma {:induction false} FitIs(space: nat, size: nat)
    requires size > 0
    ensures Times(Fit(space, size), size) <= space < Times(Fit(space, size), size) + size
  {
    if space >= size {
      FitIs(space - size, size);
    }
  }

  /** The sizes of pages, of what is before the blocks in a page, and of blocks, in words. */
  datatype Layout = Layout(pageWords: nat, headerWords: nat, blockWords: nat, perPage: nat) {
    ghost predicate Valid() {
      headerWords >= 1 && blockWords >= 2 && perPage >= 1 && headerWords + Times(perPage, blockWords) <= pageWords
    }

    function Addr(b: Block): nat {
      b.page + headerWords + Times(b.k, blockWords)
    }
  }

  /** The layout for pointers of `word` bytes: 16 bytes of a page come before the blocks. */
  function LayoutFor(word: nat, blockSize: nat): (y: Layout)
    requires (word == 4 || word == 8) && blockSize <= ALLOCATE_SIZE - 16
    ensures y.Valid() && y.pageWords * word == ALLOCATE_SIZE && y.headerWords * word == 16
    ensures blockSize <= y.blockWords * word && (blockSize >= 2 * word ==> y.blockWords * word < blockSize + word)
    ensures y.pageWords - y.headerWords - Times(y.perPage, y.blockWords) < y.blockWords
  {
    var size := if blockSize < 2 * word then 2 * word else blockSize;
    var words := (size + word - 1) / word;
    var space := (ALLOCATE_SIZE - 16) / word;
    FitIs(space, words);
    Layout(ALLOCATE_SIZE / word, 16 / word, words, Fit(space, words))
  }

  /** The `k`-th block of a page. */
  datatype Block = Block(page: nat, k: nat)

  /** Free blocks in a row. */
  datatype Run = Run(first: Block, n: nat) {
    predicate Has(b: Block) {
      b.page == first.page && first.k <= b.k < first.k + n
    }
  }

  type Memory = map<nat, nat>

  // ---------------------------------------------------------------------------------
  // Where blocks are
  // ---------------------------------------------------------------------------------

  lemma {:induction false} Step(a: nat, b: nat, n: nat)
    requires a < b
    ensures Times(a, n) + n <= Times(b, n)
    decreases b
  {
    if a + 1 < b {
      Step(a, b - 1, n);
    }
  }

  lemma BlockInside(y: Layout, k: nat)
    requires y.Valid() && k < y.perPage
    ensures y.headerWords + Times(k, y.blockWords) + y.blockWords <= y.pageWords
  {
    Step(k, y.perPage, y.blockWords);
  }

  ghost predicate PagesApart(y: Layout, pages: seq<nat>)
  {
    && (forall i :: 0 <= i < |pages| ==> pages[i] != 0)
    && (forall i, j :: 0 <= i < |pages| && 0 <= j < |pages| && i != j ==>
          pages[i] + y.pageWords <= pages[j] || pages[j] + y.pageWords <= pages[i])
  }

  ghost predicate IsBlock(y: Layout, pages: seq<nat>, b: Block)
  {
    b.page in pages && b.k < y.perPage
  }

  /** `a` is one of the words of `b`. */
  ghost predicate Within(y: Layout, b: Block, a: nat)
  {
    y.Addr(b) <= a < y.Addr(b) + y.blockWords
  }

  /** A word belongs to one block only. */
  lemma BlocksApart(y: Layout, pages: seq<nat>, b: Block, c: Block, a: nat)
    requires y.Valid() && PagesApart(y, pages) && IsBlock(y, pages, b) && IsBlock(y, pages, c)
    requires Within(y, b, a) && Within(y, c, a)
    ensures b == c
  {
    BlockInside(y, b.k);
    BlockInside(y, c.k);
    if b.k < c.k {
      Step(b.k, c.k, y.blockWords);
    } else if c.k < b.k {
      Step(c.k, b.k, y.blockWords);
    }
  }

  /** Blocks are in their page, behind the pointer to the next page. */
  lemma BlockInPage(y: Layout, pages: seq<nat>, b: Block, a: nat)
    requires y.Valid() && IsBlock(y, pages, b) && Within(y, b, a)
    ensures b.page + y.headerWords <= a < b.page + y.pageWords
  {
    BlockInside(y, b.k);
  }

  lemma NotAPage(y: Layout, pages: seq<nat>, b: Block, i: nat)
    requires y.Valid() && PagesApart(y, pages) && IsBlock(y, pages, b) && i < |pages|
    ensures !Within(y, b, pages[i])
  {
    if Within(y, b, pages[i]) {
      BlockInPage(y, pages, b, pages[i]);
    }
  }

  // ---------------------------------------------------------------------------------
  // Memory
  // ---------------------------------------------------------------------------------

  ghost predicate InPages(y: Layout, pages: seq<nat>, a: nat)
  {
    exists i :: 0 <= i < |pages| && pages[i] <= a < pages[i] + y.pageWords
  }

  ghost predicate Mapped(y: Layout, pages: seq<nat>, mem: Memory)
  {
    forall a: nat :: a in mem <==> InPages(y, pages, a)
  }

  function NextPage(pages: seq<nat>, i: nat): nat {
    if i < |pages| then pages[i] else 0
  }

  ghost predicate PageLink(pages: seq<nat>, mem: Memory, i: nat)
    requires i < |pages|
  {
    pages[i] in mem && mem[pages[i]] == NextPage(pages, i + 1)
  }

  /** The pages form a list. */
  ghost predicate PageList(pages: seq<nat>, mem: Memory, head: nat)
  {
    head == NextPage(pages, 0) && forall i :: 0 <= i < |pages| ==> PageLink(pages, mem, i)
  }

  function NextRun(y: Layout, runs: seq<Run>, i: nat): nat
  {
    if i < |runs| then y.Addr(runs[i].first) else 0
  }

  ghost predicate RunHeader(y: Layout, runs: seq<Run>, mem: Memory, i: nat)
    requires i < |runs|
  {
    var a := y.Addr(runs[i].first);
    a in mem && a + 1 in mem && mem[a] == NextRun(y, runs, i + 1) && mem[a + 1] == runs[i].n
  }

  ghost predicate FreeList(y: Layout, runs: seq<Run>, mem: Memory, head: nat)
  {
    head == NextRun(y, runs, 0) && forall i :: 0 <= i < |runs| ==> RunHeader(y, runs, mem, i)
  }

  // ---------------------------------------------------------------------------------
  // Who owns a block
  // ---------------------------------------------------------------------------------

  ghost predicate Free(runs: seq<Run>, b: Block)
  {
    exists i :: 0 <= i < |runs| && runs[i].Has(b)
  }

  ghost predicate RunsInside(y: Layout, pages: seq<nat>, runs: seq<Run>)
  {
    forall i :: 0 <= i < |runs| ==>
      runs[i].n > 0 && runs[i].first.page in pages && runs[i].first.k + runs[i].n <= y.perPage
  }

  ghost predicate RunsApart(runs: seq<Run>)
  {
    forall i, j, b {:trigger runs[i].Has(b), runs[j].Has(b)} ::
      0 <= i < |runs| && 0 <= j < |runs| && runs[i].Has(b) && runs[j].Has(b) ==> i == j
  }

  /** Every block is either in use or in one run. */
  ghost predicate Partition(y: Layout, pages: seq<nat>, runs: seq<Run>, live: set<Block>)
  {
    && RunsInside(y, pages, runs) && RunsApart(runs)
    && (forall b :: b in live ==> IsBlock(y, pages, b) && !Free(runs, b))
    && (forall b :: IsBlock(y, pages, b) ==> b in live || Free(runs, b))
  }

  function FreeBlocks(runs: seq<Run>): nat {
    if runs == [] then 0 else runs[0].n + FreeBlocks(runs[1..])
  }

  // ---------------------------------------------------------------------------------
  // Steps
  // ---------------------------------------------------------------------------------

  /** The block after the first one of a run. */
  function Second(r: Run): Block {
    Block(r.first.page, r.first.k + 1)
  }

  /** The list without its first block. */
  function Popped(runs: seq<Run>): seq<Run>
    requires runs != []
  {
    if runs[0].n > 1 then [Run(Second(runs[0]), runs[0].n - 1)] + runs[1..] else runs[1..]
  }

  lemma PopFrees(runs: seq<Run>, b: Block)
    requires runs != [] && runs[0].n > 0 && RunsApart(runs)
    ensures Free(Popped(runs), b) <==> Free(runs, b) && b != runs[0].first
  {
    var rest := Popped(runs);
    var skip := if runs[0].n > 1 then 0 else 1;
    if b == runs[0].first {
      assert runs[0].Has(b);
    }
    if i :| 0 <= i < |runs| && runs[i].Has(b) && b != runs[0].first {
      assert rest[i - skip].Has(b);
    }
    if i :| 0 <= i < |rest| && rest[i].Has(b) {
      assert runs[i + skip].Has(b);
    }
  }

  lemma PopApart(runs: seq<Run>)
    requires runs != [] && runs[0].n > 0 && RunsApart(runs)
    ensures RunsApart(Popped(runs))
  {
    var rest := Popped(runs);
    var skip := if runs[0].n > 1 then 0 else 1;
    forall i, j, b | 0 <= i < |rest| && 0 <= j < |rest| && rest[i].Has(b) && rest[j].Has(b) ensures i == j {
      assert runs[i + skip].Has(b) && runs[j + skip].Has(b);
    }
  }

  lemma PopPartition(y: Layout, pages: seq<nat>, runs: seq<Run>, live: set<Block>)
    requires y.Valid() && Partition(y, pages, runs, live) && runs != []
    ensures Partition(y, pages, Popped(runs), live + {runs[0].first})
    ensures FreeBlocks(Popped(runs)) == FreeBlocks(runs) - 1
  {
    PopApart(runs);
    forall b ensures Free(Popped(runs), b) <==> Free(runs, b) && b != runs[0].first {
      PopFrees(runs, b);
    }
  }

  lemma PushPartition(y: Layout, pages: seq<nat>, runs: seq<Run>, live: set<Block>, b: Block)
    requires y.Valid() && Partition(y, pages, runs, live) && b in live
    ensures Partition(y, pages, [Run(b, 1)] + runs, live - {b})
    ensures FreeBlocks([Run(b, 1)] + runs) == FreeBlocks(runs) + 1
  {
    var more := [Run(b, 1)] + runs;
    forall i, j, c | 0 <= i < |more| && 0 <= j < |more| && more[i].Has(c) && more[j].Has(c) ensures i == j {
      assert i > 0 ==> runs[i - 1].Has(c) && Free(runs, c);
      assert j > 0 ==> runs[j - 1].Has(c) && Free(runs, c);
    }
    forall c ensures Free(more, c) <==> Free(runs, c) || c == b {
      PrependedFree(runs, Run(b, 1), c);
    }
  }

  lemma PageApartFromRuns(runs: seq<Run>, r: Run)
    requires RunsApart(runs) && forall i :: 0 <= i < |runs| ==> runs[i].first.page != r.first.page
    ensures RunsApart([r] + runs)
  {
    var more := [r] + runs;
    forall i, j, c | 0 <= i < |more| && 0 <= j < |more| && more[i].Has(c) && more[j].Has(c) ensures i == j {
      assert i > 0 ==> runs[i - 1].Has(c);
      assert j > 0 ==> runs[j - 1].Has(c);
    }
  }

  lemma PrependedFree(runs: seq<Run>, r: Run, c: Block)
    ensures Free([r] + runs, c) <==> Free(runs, c) || r.Has(c)
  {
    var more := [r] + runs;
    assert more[0] == r;
    if i :| 0 <= i < |runs| && runs[i].Has(c) {
      assert more[i + 1].Has(c);
    }
  }

  /** A new page is one run. */
  lemma PagePartition(y: Layout, pages: seq<nat>, runs: seq<Run>, live: set<Block>, page: nat)
    requires y.Valid() && Partition(y, pages, runs, live) && page !in pages
    ensures Partition(y, [page] + pages, [Run(Block(page, 0), y.perPage)] + runs, live)
    ensures FreeBlocks([Run(Block(page, 0), y.perPage)] + runs) == FreeBlocks(runs) + y.perPage
  {
    var r := Run(Block(page, 0), y.perPage);
    PageApartFromRuns(runs, r);
    forall c ensures Free([r] + runs, c) <==> Free(runs, c) || r.Has(c) {
      PrependedFree(runs, r, c);
    }
  }
}
