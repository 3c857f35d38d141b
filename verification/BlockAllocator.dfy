/** The loader's block allocator. */
module BlockAllocator {
  import opened Blocks

  /** `memset(a, 0, n)`. */
  function Zeroed(mem: Memory, a: nat, n: nat): Memory {
    map w | w in mem :: if a <= w < a + n then 0 else mem[w]
  }

  /** Nothing but the words of `b` differs. */
  ghost predicate SameBut(y: Layout, mem: Memory, after: Memory, b: Block)
  {
    mem.Keys == after.Keys && forall a :: a in mem && !Within(y, b, a) ==> after[a] == mem[a]
  }

  lemma ZeroedSame(y: Layout, mem: Memory, b: Block)
    requires y.Valid()
    ensures SameBut(y, mem, Zeroed(mem, y.Addr(b), y.blockWords), b)
  {
  }

  lemma SamePageList(y: Layout, pages: seq<nat>, mem: Memory, after: Memory, head: nat, b: Block)
    requires y.Valid() && PagesApart(y, pages) && PageList(pages, mem, head) && IsBlock(y, pages, b)
    requires SameBut(y, mem, after, b)
    ensures PageList(pages, after, head)
  {
    forall i | 0 <= i < |pages| ensures PageLink(pages, after, i) {
      assert PageLink(pages, mem, i);
      NotAPage(y, pages, b, i);
    }
  }

  /** The header of a run does not change with another block. */
  lemma SameHeader(y: Layout, pages: seq<nat>, runs: seq<Run>, mem: Memory, after: Memory, b: Block, i: nat)
    requires y.Valid() && PagesApart(y, pages) && IsBlock(y, pages, b) && SameBut(y, mem, after, b)
    requires i < |runs| && IsBlock(y, pages, runs[i].first) && runs[i].first != b && RunHeader(y, runs, mem, i)
    ensures RunHeader(y, runs, after, i)
  {
    var a := y.Addr(runs[i].first);
    if Within(y, b, a) {
      BlocksApart(y, pages, b, runs[i].first, a);
    }
    if Within(y, b, a + 1) {
      BlocksApart(y, pages, b, runs[i].first, a + 1);
    }
  }

  /** The words of a block are mapped. */
  lemma BlockMapped(y: Layout, pages: seq<nat>, mem: Memory, b: Block, a: nat)
    requires y.Valid() && Mapped(y, pages, mem) && IsBlock(y, pages, b) && Within(y, b, a)
    ensures a in mem
  {
    BlockInPage(y, pages, b, a);
    var i :| 0 <= i < |pages| && pages[i] == b.page;
    assert InPages(y, pages, a);
  }

  /** A block that is not free may be overwritten. */
  lemma ListKept(y: Layout, pages: seq<nat>, runs: seq<Run>, mem: Memory, after: Memory, head: nat, b: Block)
    requires y.Valid() && PagesApart(y, pages) && FreeList(y, runs, mem, head)
    requires RunsInside(y, pages, runs) && IsBlock(y, pages, b) && !Free(runs, b) && SameBut(y, mem, after, b)
    ensures FreeList(y, runs, after, head)
  {
    forall i | 0 <= i < |runs| ensures RunHeader(y, runs, after, i) {
      assert runs[i].Has(runs[i].first);
      SameHeader(y, pages, runs, mem, after, b, i);
    }
  }

  /** `block_info->next_block = next; block_info->num_free_blocks = n`. */
  function WithHeader(mem: Memory, a: nat, next: nat, n: nat): Memory {
    mem[a := next][a + 1 := n]
  }

  lemma HeaderSame(y: Layout, pages: seq<nat>, mem: Memory, b: Block, next: nat, n: nat)
    requires y.Valid() && Mapped(y, pages, mem) && IsBlock(y, pages, b)
    ensures SameBut(y, mem, WithHeader(mem, y.Addr(b), next, n), b)
  {
    BlockMapped(y, pages, mem, b, y.Addr(b));
    BlockMapped(y, pages, mem, b, y.Addr(b) + 1);
  }

  lemma Prepended(y: Layout, runs: seq<Run>, mem: Memory, head: nat, r: Run)
    requires y.Valid() && FreeList(y, runs, mem, head)
    requires var a := y.Addr(r.first); a in mem && a + 1 in mem && mem[a] == head && mem[a + 1] == r.n
    ensures FreeList(y, [r] + runs, mem, y.Addr(r.first))
  {
    var more := [r] + runs;
    forall i | 0 <= i < |more| ensures RunHeader(y, more, mem, i) {
      if i > 0 {
        assert RunHeader(y, runs, mem, i - 1);
      }
    }
  }

  /** A block that is prepended to the list has its header written into it. */
  lemma HeaderWritten(y: Layout, pages: seq<nat>, runs: seq<Run>, mem: Memory, head: nat, r: Run)
    requires y.Valid() && PagesApart(y, pages) && Mapped(y, pages, mem) && FreeList(y, runs, mem, head)
    requires RunsInside(y, pages, runs) && IsBlock(y, pages, r.first) && !Free(runs, r.first)
    ensures FreeList(y, [r] + runs, WithHeader(mem, y.Addr(r.first), head, r.n), y.Addr(r.first))
  {
    var after := WithHeader(mem, y.Addr(r.first), head, r.n);
    HeaderSame(y, pages, mem, r.first, head, r.n);
    ListKept(y, pages, runs, mem, after, head, r.first);
    Prepended(y, runs, after, head, r);
  }

  lemma MappedKept(y: Layout, pages: seq<nat>, mem: Memory, after: Memory)
    requires y.Valid() && Mapped(y, pages, mem) && mem.Keys == after.Keys
    ensures Mapped(y, pages, after)
  {
  }

  /** The list after its first run is left out. */
  lemma ListTail(y: Layout, runs: seq<Run>, mem: Memory, head: nat)
    requires y.Valid() && FreeList(y, runs, mem, head) && runs != []
    ensures FreeList(y, runs[1..], mem, NextRun(y, runs, 1))
  {
    var rest := runs[1..];
    forall i | 0 <= i < |rest| ensures RunHeader(y, rest, mem, i) {
      assert RunHeader(y, runs, mem, i + 1);
    }
  }

  lemma TailFree(runs: seq<Run>, b: Block)
    requires runs != [] && RunsApart(runs) && runs[0].Has(b)
    ensures !Free(runs[1..], b)
  {
    forall i | 0 <= i < |runs[1..]| ensures !runs[1..][i].Has(b) {
      assert runs[1..][i] == runs[i + 1];
    }
  }

  // ---------------------------------------------------------------------------------
  // The invariant, step by step
  // ---------------------------------------------------------------------------------

  /** Memory describes the pages and the free blocks. */
  ghost predicate Sound(y: Layout, pages: seq<nat>, runs: seq<Run>, live: set<Block>, mem: Memory, pageList: nat, freeList: nat)
  {
    && y.Valid() && PagesApart(y, pages) && Mapped(y, pages, mem)
    && PageList(pages, mem, pageList) && FreeList(y, runs, mem, freeList)
    && Partition(y, pages, runs, live)
  }

  /** No block is lost. */
  ghost predicate Conserved(y: Layout, pages: seq<nat>, runs: seq<Run>, live: set<Block>)
  {
    y.Valid() && FreeBlocks(runs) + |live| == Times(|pages|, y.perPage)
  }

  lemma FirstBlock(y: Layout, page: nat)
    requires y.Valid()
    ensures y.Addr(Block(page, 0)) == page + y.headerWords > page
  {
  }

  function Range(a: nat, n: nat): (r: set<nat>)
    ensures forall w :: w in r <==> a <= w < a + n
  {
    if n == 0 then {} else Range(a, n - 1) + {a + n - 1}
  }

  function Zeros(a: nat, n: nat): Memory {
    map w | w in Range(a, n) :: 0
  }

  lemma PageApart(y: Layout, pages: seq<nat>, mem: Memory, page: nat)
    requires y.Valid() && PagesApart(y, pages) && Mapped(y, pages, mem) && page != 0
    requires forall w :: page <= w < page + y.pageWords ==> w !in mem
    ensures PagesApart(y, [page] + pages) && page !in pages
  {
    forall i | 0 <= i < |pages| ensures pages[i] + y.pageWords <= page || page + y.pageWords <= pages[i] {
      assert InPages(y, pages, pages[i]);
      if pages[i] <= page < pages[i] + y.pageWords {
        assert InPages(y, pages, page);
      }
    }
  }

  lemma PageMapped(y: Layout, pages: seq<nat>, mem: Memory, page: nat)
    requires y.Valid() && Mapped(y, pages, mem)
    ensures Mapped(y, [page] + pages, mem + Zeros(page, y.pageWords))
  {
    var more := [page] + pages;
    forall a: nat ensures InPages(y, more, a) <==> InPages(y, pages, a) || page <= a < page + y.pageWords {
      assert more[0] == page;
      if i :| 0 <= i < |pages| && pages[i] <= a < pages[i] + y.pageWords {
        assert more[i + 1] == pages[i];
      }
    }
  }

  /** What the statements of `create_new_page` make of memory. */
  function PageMemory(y: Layout, mem: Memory, pageList: nat, page: nat): Memory
  {
    WithHeader(mem + Zeros(page, y.pageWords), y.Addr(Block(page, 0)), 0, y.perPage)[page := pageList]
  }

  lemma PageMemoryWords(y: Layout, mem: Memory, pageList: nat, page: nat)
    requires y.Valid() && forall w :: page <= w < page + y.pageWords ==> w !in mem
    ensures var after, first := PageMemory(y, mem, pageList, page), y.Addr(Block(page, 0));
            && after.Keys == (mem + Zeros(page, y.pageWords)).Keys
            && page in after && first in after && first + 1 in after
            && after[page] == pageList && after[first] == 0 && after[first + 1] == y.perPage
            && forall w :: w in mem ==> w in after && after[w] == mem[w]
  {
    BlockInside(y, 0);
  }

  lemma PageListed(pages: seq<nat>, mem: Memory, after: Memory, pageList: nat, page: nat)
    requires PageList(pages, mem, pageList) && page in after && after[page] == pageList
    requires forall w :: w in mem ==> w in after && after[w] == mem[w]
    ensures PageList([page] + pages, after, page)
  {
    var more := [page] + pages;
    forall i | 0 <= i < |more| ensures PageLink(more, after, i) {
      if i > 0 {
        assert PageLink(pages, mem, i - 1);
      }
    }
  }

  lemma OneRun(y: Layout, mem: Memory, r: Run)
    requires var a := y.Addr(r.first); a in mem && a + 1 in mem && mem[a] == 0 && mem[a + 1] == r.n
    ensures FreeList(y, [r], mem, y.Addr(r.first))
  {
    assert RunHeader(y, [r], mem, 0);
  }

  lemma PageAdded(y: Layout, pages: seq<nat>, mem: Memory, pageList: nat, page: nat)
    requires y.Valid() && PagesApart(y, pages) && Mapped(y, pages, mem) && PageList(pages, mem, pageList) && page != 0
    requires forall w :: page <= w < page + y.pageWords ==> w !in mem
    ensures var after := PageMemory(y, mem, pageList, page);
            && PagesApart(y, [page] + pages) && page !in pages && Mapped(y, [page] + pages, after)
            && PageList([page] + pages, after, page)
            && FreeList(y, [Run(Block(page, 0), y.perPage)], after, y.Addr(Block(page, 0)))
            && forall w :: w in mem ==> w in after && after[w] == mem[w]
  {
    var after := PageMemory(y, mem, pageList, page);
    PageMemoryWords(y, mem, pageList, page);
    PageApart(y, pages, mem, page);
    PageMapped(y, pages, mem, page);
    MappedKept(y, [page] + pages, mem + Zeros(page, y.pageWords), after);
    PageListed(pages, mem, after, pageList, page);
    OneRun(y, after, Run(Block(page, 0), y.perPage));
  }

  lemma EmptyList(y: Layout, runs: seq<Run>, mem: Memory)
    requires y.Valid() && FreeList(y, runs, mem, 0)
    ensures runs == []
  {
  }

  lemma PageSound(y: Layout, pages: seq<nat>, runs: seq<Run>, live: set<Block>, mem: Memory, pageList: nat, page: nat)
    requires Sound(y, pages, runs, live, mem, pageList, 0) && Conserved(y, pages, runs, live) && page != 0
    requires forall w :: page <= w < page + y.pageWords ==> w !in mem
    ensures var first, after := Block(page, 0), PageMemory(y, mem, pageList, page);
            && Sound(y, [page] + pages, [Run(first, y.perPage)], live, after, page, y.Addr(first))
            && Conserved(y, [page] + pages, [Run(first, y.perPage)], live)
            && forall w :: w in mem ==> w in after && after[w] == mem[w]
  {
    EmptyList(y, runs, mem);
    PageAdded(y, pages, mem, pageList, page);
    PagePartition(y, pages, runs, live, page);
    assert [Run(Block(page, 0), y.perPage)] + [] == [Run(Block(page, 0), y.perPage)];
  }

  lemma SecondBlock(y: Layout, r: Run)
    requires y.Valid()
    ensures y.Addr(Second(r)) == y.Addr(r.first) + y.blockWords
  {
  }

  /** Overwriting a block that is not free. */
  lemma Overwritten(y: Layout, pages: seq<nat>, runs: seq<Run>, mem: Memory, after: Memory, pageList: nat, freeList: nat, b: Block)
    requires y.Valid() && PagesApart(y, pages) && Mapped(y, pages, mem)
    requires PageList(pages, mem, pageList) && FreeList(y, runs, mem, freeList) && RunsInside(y, pages, runs)
    requires IsBlock(y, pages, b) && !Free(runs, b) && SameBut(y, mem, after, b)
    ensures Mapped(y, pages, after) && PageList(pages, after, pageList) && FreeList(y, runs, after, freeList)
  {
    MappedKept(y, pages, mem, after);
    SamePageList(y, pages, mem, after, pageList, b);
    ListKept(y, pages, runs, mem, after, freeList, b);
  }

  /** The other blocks keep their contents. */
  lemma Elsewhere(y: Layout, pages: seq<nat>, mem: Memory, after: Memory, b: Block, c: Block, a: nat)
    requires y.Valid() && PagesApart(y, pages) && Mapped(y, pages, mem) && SameBut(y, mem, after, b)
    requires IsBlock(y, pages, b) && IsBlock(y, pages, c) && b != c && Within(y, c, a)
    ensures a in mem && a in after && after[a] == mem[a]
  {
    BlockMapped(y, pages, mem, c, a);
    if Within(y, b, a) {
      BlocksApart(y, pages, b, c, a);
    }
  }

  lemma SecondFree(y: Layout, pages: seq<nat>, runs: seq<Run>, live: set<Block>)
    requires Partition(y, pages, runs, live) && runs != [] && runs[0].n > 1
    ensures IsBlock(y, pages, Second(runs[0])) && Second(runs[0]) !in live && !Free(runs[1..], Second(runs[0]))
    ensures RunsInside(y, pages, runs[1..])
  {
    assert runs[0].Has(Second(runs[0]));
    TailFree(runs, Second(runs[0]));
  }

  /** The first free block is taken off a run of several: the second one gets the header. */
  lemma SplitSound(y: Layout, pages: seq<nat>, runs: seq<Run>, live: set<Block>, mem: Memory, pageList: nat, freeList: nat)
    requires Sound(y, pages, runs, live, mem, pageList, freeList) && runs != [] && runs[0].n > 1
    ensures var c, next := Second(runs[0]), NextRun(y, runs, 1);
            var after := WithHeader(mem, y.Addr(c), next, runs[0].n - 1);
            && IsBlock(y, pages, c) && c !in live && c != runs[0].first && SameBut(y, mem, after, c)
            && Mapped(y, pages, after) && PageList(pages, after, pageList) && FreeList(y, Popped(runs), after, y.Addr(c))
  {
    var c, next := Second(runs[0]), NextRun(y, runs, 1);
    var after := WithHeader(mem, y.Addr(c), next, runs[0].n - 1);
    SecondFree(y, pages, runs, live);
    ListTail(y, runs, mem, freeList);
    HeaderSame(y, pages, mem, c, next, runs[0].n - 1);
    Overwritten(y, pages, runs[1..], mem, after, pageList, next, c);
    HeaderWritten(y, pages, runs[1..], mem, next, Run(c, runs[0].n - 1));
  }

  /** What `alloc` makes of memory and of the head of the list. */
  function PopMemory(y: Layout, runs: seq<Run>, mem: Memory): Memory
    requires runs != []
  {
    var a := y.Addr(runs[0].first);
    Zeroed(if runs[0].n > 1 then WithHeader(mem, y.Addr(Second(runs[0])), NextRun(y, runs, 1), runs[0].n - 1) else mem,
           a, y.blockWords)
  }

  function PopHead(y: Layout, runs: seq<Run>): nat
    requires runs != []
  {
    if runs[0].n > 1 then y.Addr(Second(runs[0])) else NextRun(y, runs, 1)
  }

  /** The blocks of `live` keep their contents. */
  ghost predicate Kept(y: Layout, live: set<Block>, mem: Memory, after: Memory)
  {
    forall c, w :: c in live && Within(y, c, w) ==> w in mem && w in after && after[w] == mem[w]
  }

  ghost predicate Zero(y: Layout, b: Block, mem: Memory)
  {
    forall w :: Within(y, b, w) ==> w in mem && mem[w] == 0
  }

  lemma OthersKept(y: Layout, pages: seq<nat>, live: set<Block>, mem: Memory, after: Memory, b: Block)
    requires y.Valid() && PagesApart(y, pages) && Mapped(y, pages, mem) && SameBut(y, mem, after, b)
    requires IsBlock(y, pages, b) && b !in live && forall c :: c in live ==> IsBlock(y, pages, c)
    ensures Kept(y, live, mem, after)
  {
    forall c, w | c in live && Within(y, c, w) ensures w in mem && w in after && after[w] == mem[w] {
      Elsewhere(y, pages, mem, after, b, c, w);
    }
  }

  lemma KeptTwice(y: Layout, live: set<Block>, a: Memory, b: Memory, c: Memory)
    requires y.Valid() && Kept(y, live, a, b) && Kept(y, live, b, c)
    ensures Kept(y, live, a, c)
  {
  }

  lemma ZeroedZero(y: Layout, pages: seq<nat>, mem: Memory, b: Block)
    requires y.Valid() && Mapped(y, pages, mem) && IsBlock(y, pages, b)
    ensures Zero(y, b, Zeroed(mem, y.Addr(b), y.blockWords))
  {
    forall w | Within(y, b, w) ensures w in mem {
      BlockMapped(y, pages, mem, b, w);
    }
  }

  lemma PopList(y: Layout, pages: seq<nat>, runs: seq<Run>, live: set<Block>, mem: Memory, pageList: nat, freeList: nat)
    requires Sound(y, pages, runs, live, mem, pageList, freeList) && runs != []
    ensures var split := if runs[0].n > 1 then WithHeader(mem, y.Addr(Second(runs[0])), NextRun(y, runs, 1), runs[0].n - 1) else mem;
            && Mapped(y, pages, split) && PageList(pages, split, pageList) && FreeList(y, Popped(runs), split, PopHead(y, runs))
            && Kept(y, live, mem, split)
  {
    if runs[0].n > 1 {
      SplitSound(y, pages, runs, live, mem, pageList, freeList);
      OthersKept(y, pages, live, mem, WithHeader(mem, y.Addr(Second(runs[0])), NextRun(y, runs, 1), runs[0].n - 1), Second(runs[0]));
    } else {
      ListTail(y, runs, mem, freeList);
      forall c, w | c in live && Within(y, c, w) ensures w in mem {
        BlockMapped(y, pages, mem, c, w);
      }
    }
  }

  /** The first free block is handed out, as zeros. */
  lemma PopSound(y: Layout, pages: seq<nat>, runs: seq<Run>, live: set<Block>, mem: Memory, pageList: nat, freeList: nat)
    requires Sound(y, pages, runs, live, mem, pageList, freeList) && Conserved(y, pages, runs, live) && runs != []
    ensures var b, after := runs[0].first, PopMemory(y, runs, mem);
            && b !in live && IsBlock(y, pages, b) && Zero(y, b, after) && Kept(y, live, mem, after)
            && Sound(y, pages, Popped(runs), live + {b}, after, pageList, PopHead(y, runs))
            && Conserved(y, pages, Popped(runs), live + {b})
  {
    var b, after := runs[0].first, PopMemory(y, runs, mem);
    var split := if runs[0].n > 1 then WithHeader(mem, y.Addr(Second(runs[0])), NextRun(y, runs, 1), runs[0].n - 1) else mem;
    assert runs[0].Has(b);
    PopPartition(y, pages, runs, live);
    PopList(y, pages, runs, live, mem, pageList, freeList);
    ZeroedSame(y, split, b);
    ZeroedZero(y, pages, split, b);
    Overwritten(y, pages, Popped(runs), split, after, pageList, PopHead(y, runs), b);
    OthersKept(y, pages, live, split, after, b);
    KeptTwice(y, live, mem, split, after);
  }

  /** The statements of `alloc` that deal with the list. */
  method TakeFirst(y: Layout, mem: Memory, head: nat, ghost runs: seq<Run>) returns (after: Memory, next: nat)
    requires y.Valid() && runs != [] && RunHeader(y, runs, mem, 0) && head == NextRun(y, runs, 0)
    ensures after == PopMemory(y, runs, mem) && next == PopHead(y, runs)
  {
    after := mem;
    if mem[head + 1] > 1 {
      SecondBlock(y, runs[0]);
      next := head + y.blockWords;
      after := WithHeader(mem, next, mem[head], mem[head + 1] - 1);
    } else {
      next := mem[head];
    }
    after := Zeroed(after, head, y.blockWords);
  }

  method TakeBlock(y: Layout, ghost pages: seq<nat>, ghost runs: seq<Run>, ghost live: set<Block>, mem: Memory,
                   ghost pageList: nat, head: nat)
    returns (after: Memory, next: nat, ghost rest: seq<Run>, ghost b: Block, ghost more: set<Block>)
    requires Sound(y, pages, runs, live, mem, pageList, head) && Conserved(y, pages, runs, live) && runs != []
    ensures b !in live && IsBlock(y, pages, b) && Zero(y, b, after) && Kept(y, live, mem, after) && more == live + {b}
    ensures Sound(y, pages, rest, more, after, pageList, next) && Conserved(y, pages, rest, more)
    ensures head == y.Addr(b)
  {
    PopSound(y, pages, runs, live, mem, pageList, head);
    assert RunHeader(y, runs, mem, 0);
    b, rest := runs[0].first, Popped(runs);
    more := live + {b};
    after, next := TakeFirst(y, mem, head, runs);
  }

  method AddPage(y: Layout, ghost pages: seq<nat>, ghost runs: seq<Run>, ghost live: set<Block>, mem: Memory, pageList: nat, page: nat)
    returns (after: Memory, head: nat, ghost more: seq<Run>)
    requires Sound(y, pages, runs, live, mem, pageList, 0) && Conserved(y, pages, runs, live) && page != 0
    requires forall w :: page <= w < page + y.pageWords ==> w !in mem
    ensures Sound(y, [page] + pages, more, live, after, page, head) && Conserved(y, [page] + pages, more, live) && more != []
    ensures forall w :: w in mem ==> w in after && after[w] == mem[w]
  {
    PageSound(y, pages, runs, live, mem, pageList, page);
    FirstBlock(y, page);
    head := page + y.headerWords;
    after := PageMemory(y, mem, pageList, page);
    more := [Run(Block(page, 0), y.perPage)];
  }

  /** A block in use is put at the front of the list. */
  lemma PushSound(y: Layout, pages: seq<nat>, runs: seq<Run>, live: set<Block>, mem: Memory, pageList: nat, freeList: nat, b: Block)
    requires Sound(y, pages, runs, live, mem, pageList, freeList) && Conserved(y, pages, runs, live) && b in live
    ensures var zeroed := Zeroed(mem, y.Addr(b), y.blockWords); var after := WithHeader(zeroed, y.Addr(b), freeList, 1);
            && Sound(y, pages, [Run(b, 1)] + runs, live - {b}, after, pageList, y.Addr(b))
            && Conserved(y, pages, [Run(b, 1)] + runs, live - {b}) && Kept(y, live - {b}, mem, after)
  {
    var zeroed := Zeroed(mem, y.Addr(b), y.blockWords);
    var after := WithHeader(zeroed, y.Addr(b), freeList, 1);
    ZeroedSame(y, mem, b);
    Overwritten(y, pages, runs, mem, zeroed, pageList, freeList, b);
    HeaderSame(y, pages, zeroed, b, freeList, 1);
    Overwritten(y, pages, runs, zeroed, after, pageList, freeList, b);
    HeaderWritten(y, pages, runs, zeroed, freeList, Run(b, 1));
    PushPartition(y, pages, runs, live, b);
    OthersKept(y, pages, live - {b}, mem, after, b);
  }

  method GiveBlock(y: Layout, ghost pages: seq<nat>, ghost runs: seq<Run>, ghost live: set<Block>, mem: Memory,
                   ghost pageList: nat, head: nat, ghost b: Block, a: nat)
    returns (after: Memory, ghost more: seq<Run>)
    requires Sound(y, pages, runs, live, mem, pageList, head) && Conserved(y, pages, runs, live) && b in live && a == y.Addr(b)
    ensures Sound(y, pages, more, live - {b}, after, pageList, a) && Conserved(y, pages, more, live - {b})
    ensures Kept(y, live - {b}, mem, after)
  {
    PushSound(y, pages, runs, live, mem, pageList, head, b);
    after := Zeroed(mem, a, y.blockWords);
    after := WithHeader(after, a, head, 1);
    more := [Run(b, 1)] + runs;
  }

  /** `munmap`. */
  function Unmap(mem: Memory, a: nat, n: nat): Memory {
    map w | w in mem && !(a <= w < a + n) :: mem[w]
  }

  lemma Unmapped(y: Layout, pages: seq<nat>, mem: Memory, i: nat)
    requires y.Valid() && PagesApart(y, pages) && i < |pages| && Mapped(y, pages[i..], mem)
    ensures var after := Unmap(mem, pages[i], y.pageWords);
            Mapped(y, pages[i + 1..], after)
  {
    var after := Unmap(mem, pages[i], y.pageWords);
    var now, left := pages[i..], pages[i + 1..];
    forall a: nat ensures a in after <==> InPages(y, left, a) {
      if j :| 0 <= j < |left| && left[j] <= a < left[j] + y.pageWords {
        assert now[j + 1] == left[j] == pages[i + 1 + j];
      }
      if j :| 0 <= j < |now| && now[j] <= a < now[j] + y.pageWords && a in after {
        assert left[j - 1] == now[j];
      }
    }
  }

  lemma StillMapped(y: Layout, pages: seq<nat>, mem: Memory, i: nat)
    requires y.Valid() && i < |pages| && Mapped(y, pages[i..], mem)
    ensures pages[i] in mem
  {
    assert pages[i..][0] == pages[i];
    assert InPages(y, pages[i..], pages[i]);
  }

  lemma NothingMapped(y: Layout, mem: Memory)
    requires Mapped(y, [], mem)
    ensures mem == map[]
  {
    assert forall a: nat :: !InPages(y, [], a);
  }

  /** The loop of `purge`: it reads the link of a page before it unmaps it. */
  method UnmapAll(y: Layout, ghost pages: seq<nat>, mem: Memory, pageList: nat) returns (after: Memory)
    requires y.Valid() && PagesApart(y, pages) && Mapped(y, pages, mem) && PageList(pages, mem, pageList)
    ensures after == map[]
  {
    after := mem;
    var page := pageList;
    ghost var i := 0;
    assert pages[0..] == pages;
    while page != 0
      invariant i <= |pages| && page == NextPage(pages, i) && Mapped(y, pages[i..], after)
      invariant forall w :: w in after ==> w in mem && after[w] == mem[w]
      decreases |pages| - i
    {
      assert PageLink(pages, mem, i);
      StillMapped(y, pages, after, i);
      var next := after[page];
      Unmapped(y, pages, after, i);
      after := Unmap(after, page, y.pageWords);
      page := next;
      i := i + 1;
    }
    assert pages[i..] == [];
    NothingMapped(y, after);
  }

  class Allocator {
    const y: Layout
    var pageList: nat
    var freeBlockList: nat
    var inUse: nat
    var mem: Memory

    ghost var pages: seq<nat>
    ghost var runs: seq<Run>
    ghost var live: set<Block>

    ghost predicate Valid()
      reads this
    {
      Sound(y, pages, runs, live, mem, pageList, freeBlockList) && Conserved(y, pages, runs, live) && inUse == |live|
    }

    constructor (blockSize: nat, word: nat)
      requires (word == 4 || word == 8) && blockSize <= ALLOCATE_SIZE - 16
      ensures Valid() && live == {} && pages == [] && y == LayoutFor(word, blockSize)
    {
      y := LayoutFor(word, blockSize);
      pageList, freeBlockList, inUse, mem := 0, 0, 0, map[];
      pages, runs, live := [], [], {};
    }

    /** `create_new_page`: `page` is what `mmap` returned, memory that was not mapped before and is zero. */
    method CreateNewPage(page: nat)
      requires Valid() && page != 0 && freeBlockList == 0
      requires forall w :: page <= w < page + y.pageWords ==> w !in mem
      modifies this
      ensures Valid() && live == old(live) && runs != [] && pages == [page] + old(pages)
      ensures forall w :: w in old(mem) ==> w in mem && mem[w] == old(mem[w])
    {
      mem, freeBlockList, runs := AddPage(y, pages, runs, live, mem, pageList, page);
      pageList, pages := page, [page] + pages;
    }

    /** `alloc`: `page` is what `mmap` would return. */
    method Alloc(page: nat) returns (a: nat, ghost b: Block)
      requires Valid() && page != 0
      requires forall w :: page <= w < page + y.pageWords ==> w !in mem
      modifies this
      ensures Valid() && b !in old(live) && live == old(live) + {b} && IsBlock(y, pages, b) && a == y.Addr(b)
      ensures Zero(y, b, mem) && Kept(y, old(live), old(mem), mem)
    {
      LiveMapped(y, pages, runs, live, mem, pageList, freeBlockList);
      if freeBlockList == 0 {
        CreateNewPage(page);
      }
      ghost var before := mem;
      a, b := Pop();
      KeptTwice(y, old(live), old(mem), before, mem);
    }

    method Pop() returns (a: nat, ghost b: Block)
      requires Valid() && runs != []
      modifies this
      ensures Valid() && b !in old(live) && live == old(live) + {b} && IsBlock(y, pages, b) && a == y.Addr(b) && pages == old(pages)
      ensures Zero(y, b, mem) && Kept(y, old(live), old(mem), mem)
    {
      a := freeBlockList;
      mem, freeBlockList, runs, b, live := TakeBlock(y, pages, runs, live, mem, pageList, freeBlockList);
      inUse := inUse + 1;
    }

    /** `find_page`. It always finds a page, and the right one. */
    method FindPage(a: nat, ghost b: Block) returns (page: nat)
      requires Valid() && b in live && Within(y, b, a)
      ensures page == b.page
    {
      BlockInPage(y, pages, b, a);
      assert y.headerWords >= 1;
      page := pageList;
      ghost var i := 0;
      while page != 0
        invariant i <= |pages| && page == NextPage(pages, i) && b.page !in pages[..i]
        decreases |pages| - i
      {
        if page + 1 <= a < page + y.pageWords {
          SamePage(y, pages, b.page, page, a);
          return;
        }
        assert PageLink(pages, mem, i);
        page := mem[page];
        i := i + 1;
      }
      assert false;
    }

    /** `free`. Neither of its checks can fail for a block that is in use. */
    method Free(a: nat, ghost b: Block) returns (checked: bool)
      requires Valid() && (a != 0 ==> b in live && a == y.Addr(b))
      modifies this
      ensures Valid() && checked && pages == old(pages)
      ensures live == if a == 0 then old(live) else old(live) - {b}
      ensures Kept(y, live, old(mem), mem)
    {
      LiveMapped(y, pages, runs, live, mem, pageList, freeBlockList);
      if a == 0 {
        return true;
      }
      var page := FindPage(a, b);
      Multiple(b.k, y.blockWords);
      checked := page != 0 && Aligned(a - (page + y.headerWords), y.blockWords);
      mem, runs := GiveBlock(y, pages, runs, live, mem, pageList, freeBlockList, b, a);
      freeBlockList := a;
      inUse := inUse - 1;
      live := live - {b};
    }

    /** The user of a block writes to it. */
    method Write(a: nat, v: nat, ghost b: Block)
      requires Valid() && b in live && Within(y, b, a)
      modifies this`mem
      ensures Valid() && a in old(mem) && mem == old(mem)[a := v] && Kept(y, live - {b}, old(mem), mem)
    {
      BlockMapped(y, pages, mem, b, a);
      Overwritten(y, pages, runs, mem, mem[a := v], pageList, freeBlockList, b);
      OthersKept(y, pages, live - {b}, mem, mem[a := v], b);
      mem := mem[a := v];
    }

    /** `purge`. */
    method Purge()
      requires Valid()
      modifies this
      ensures Valid() && live == old(live)
      ensures if live == {} then mem == map[] && pages == [] else mem == old(mem) && pages == old(pages)
    {
      if inUse != 0 {
        return;
      }
      mem := UnmapAll(y, pages, mem, pageList);
      pageList, freeBlockList := 0, 0;
      pages, runs := [], [];
    }
  }

  predicate Aligned(offset: int, n: nat)
    requires n > 0
  {
    offset % n == 0
  }

  lemma SamePage(y: Layout, pages: seq<nat>, p: nat, q: nat, a: nat)
    requires y.Valid() && PagesApart(y, pages) && p in pages && q in pages
    requires p <= a < p + y.pageWords && q <= a < q + y.pageWords
    ensures p == q
  {
  }

  lemma Multiple(k: nat, n: nat)
    requires n > 0
    ensures Times(k, n) % n == 0
  {
    var d, r := Times(k, n) / n, Times(k, n) % n;
    TimesIs(d, n);
    assert Times(k, n) == Times(d, n) + r;
    if d < k {
      Step(d, k, n);
    } else if k < d {
      Step(k, d, n);
    }
  }

  lemma LiveMapped(y: Layout, pages: seq<nat>, runs: seq<Run>, live: set<Block>, mem: Memory, pageList: nat, freeList: nat)
    requires Sound(y, pages, runs, live, mem, pageList, freeList)
    ensures forall c, w :: c in live && Within(y, c, w) ==> w in mem
    ensures Kept(y, live, mem, mem)
    ensures freeList != 0 ==> runs != []
  {
    forall c, w | c in live && Within(y, c, w) ensures w in mem {
      BlockMapped(y, pages, mem, c, w);
    }
  }
}
