/** The kernel heap allocator: kmalloc and kfree over pool free lists threaded through
    the free blocks and headers in front of the live ones. */
module Kmalloc {
  import opened Frames
  import opened Vm
  import opened VmSystem
  import opened HeapSpec
  import Paging

  /** What the first words of a block hold. */
  datatype Cell = FreeEntry(prev: int) | KmallocEntry(size: int, pool: int)

  type Cells = map<int, Cell>

  ghost predicate FreeLink(cells: Cells, freed: seq<int>, k: nat)
    requires k < |freed|
  {
    && freed[k] > 0 && freed[k] in cells
    && cells[freed[k]] == FreeEntry(if k == 0 then 0 else freed[k - 1])
  }

  /** From head, the prev links spell out the free list from its last block to its first. */
  ghost predicate FreeList(cells: Cells, head: int, freed: seq<int>) {
    && head == (if freed == [] then 0 else freed[|freed| - 1])
    && forall k :: 0 <= k < |freed| ==> FreeLink(cells, freed, k)
  }

  lemma PushList(cells: Cells, head: int, freed: seq<int>, a: int)
    requires FreeList(cells, head, freed) && a !in freed && a > 0
    ensures FreeList(cells[a := FreeEntry(head)], a, freed + [a])
  {
    var cells', freed' := cells[a := FreeEntry(head)], freed + [a];
    forall k | 0 <= k < |freed'| ensures FreeLink(cells', freed', k) {
      if k < |freed| { assert FreeLink(cells, freed, k); }
    }
  }

  lemma PopList(cells: Cells, head: int, freed: seq<int>)
    requires FreeList(cells, head, freed) && freed != []
    ensures head > 0 && head in cells && cells[head].FreeEntry?
    ensures FreeList(cells, cells[head].prev, freed[..|freed| - 1])
  {
    var rest := freed[..|freed| - 1];
    assert FreeLink(cells, freed, |freed| - 1);
    if |freed| > 1 { assert FreeLink(cells, freed, |freed| - 2); }
    forall k | 0 <= k < |rest| ensures FreeLink(cells, rest, k) { assert FreeLink(cells, freed, k); }
  }

  /** Only its own blocks matter to a list. */
  lemma ListSame(cells: Cells, cells': Cells, head: int, freed: seq<int>)
    requires FreeList(cells, head, freed)
    requires forall a :: a in freed && a in cells ==> a in cells' && cells'[a] == cells[a]
    ensures FreeList(cells', head, freed)
  {
    forall k | 0 <= k < |freed| ensures FreeLink(cells', freed, k) { assert FreeLink(cells, freed, k); }
  }

  /** cells' and cells are the same outside one page. */
  ghost predicate SameOutside(cells: Cells, cells': Cells, page: int) {
    forall a :: a / 4096 != page ==> (a in cells' <==> a in cells) && (a in cells ==> cells'[a] == cells[a])
  }

  /** The memory words of the heap's blocks agree with h. */
  ghost predicate CellsOk(cells: Cells, heads: seq<int>, h: Heap) {
    && |heads| == NUM_POOLS == |h.freed|
    && (forall i :: 0 <= i < NUM_POOLS ==> FreeList(cells, heads[i], h.freed[i]))
    && (forall a :: a in h.live ==> a in cells && cells[a] == KmallocEntry(h.live[a].size, h.live[a].pool))
  }

  /** The heap once pool i has a free block, with pos the next heap page. */
  function WithFree(h: Heap, i: nat, pos: int): Heap
    requires i < |h.freed|
  {
    if h.freed[i] == [] then Carve(h, i, pos) else h
  }

  /** The pointer kmalloc(size) returns and the heap it leaves. */
  function AfterMalloc(h: Heap, pos: int, size: int): (int, Heap)
    requires |h.freed| == NUM_POOLS
  {
    var i := PoolFor(size);
    if i == NUM_POOLS then (4096 * pos + HEADER, TakeRange(h, pos, size))
    else
      var h1 := WithFree(h, i, pos);
      if h1.freed[i] == [] then (0, h1)
      else (h1.freed[i][|h1.freed[i]| - 1] + HEADER, TakeBlock(h1, i, size))
  }

  /** The heap pages kmalloc(size) reserves. */
  function PagesTaken(h: Heap, size: int): nat
    requires |h.freed| == NUM_POOLS
  {
    var i := PoolFor(size);
    if i == NUM_POOLS then Alloced(size) / 4096 else if h.freed[i] == [] then 1 else 0
  }

  /** kmalloc(size) ends in a fatal page fault: the rounded length wraps to nothing, or
      the header is the first write to a lazily reserved block and word 0 of memory carries
      no mark. */
  predicate Halts(sys: Sys, size: int, low: int) {
    && PoolFor(size) == NUM_POOLS
    && (Alloced(size) == 0 || (low == 0 && StartsLazy(sys, Alloced(size) / 4096)))
  }

  /** The address space it leaves. */
  function SysAfter(h: Heap, sys: Sys, size: int, low: int): Sys
    requires |h.freed| == NUM_POOLS
  {
    var n := PagesTaken(h, size);
    if n == 0 then sys
    else if Halts(sys, size, low) then Step(sys, Take(HeapArea, n))
    else TakeWritten(sys, n)
  }

  /** Halting is reachable: the first request of 2 MB less a header, right after start-up. */
  lemma FirstLargeHalts(pool: Pool, idP3: int, stackP3: int, heapP3: int)
    requires pool.unissued != [] && Available(pool) >= 2
    ensures var h, sys := Heap.Heap([[], [], [], [], []], map[], map[]), Paging.BootSys(pool, idP3, stackP3, heapP3);
            && PagesTaken(h, 0x1f_fff4) == 512 && Writable(sys, 512, 0) && Halts(sys, 0x1f_fff4, 0)
            && !Accepts(Step(sys, Take(HeapArea, 512)).vm, HEAP_START, 0)
  {
    hide Accepts, Reserved, AllocFrom;
    FreshBlock(Paging.BootSys(pool, idP3, stackP3, heapP3));
  }

  lemma FreshBlock(sys: Sys)
    requires sys.heapPos == HEAP_START && 4 in sys.vm.slots && HEAP_START / 512 !in sys.vm.l1s
    requires Available(sys.vm.pool) > 0
    ensures Writable(sys, 512, 0) && StartsLazy(sys, 512) && !Accepts(Step(sys, Take(HeapArea, 512)).vm, HEAP_START, 0)
  {
    hide Accepts, Reserved, AllocFrom;
    OneStack(sys.vm, HEAP_START);
    AddCounts(sys.vm, HEAP_START / 0x4_0000);
    FreshStackRefused(sys.vm, HEAP_START, HEAP_START);
  }

  lemma EmptyPool(h: Heap, i: nat)
    requires i < |h.freed| && h.freed[i] == [] && h.live == map[] && h.uses == map[]
    ensures PoolOk(h, i)
  {
    assert LiveIn(h, i) == {} && PagesOf(h, i) == {};
  }

  lemma EmptyHeap(h: Heap, ranges: set<Range>)
    requires h == Heap.Heap([[], [], [], [], []], map[], map[])
    ensures HeapInv(h, ranges)
  {
    forall x ensures AspectOk(h, ranges, x) {
      if x.InPool? && 0 <= x.i < NUM_POOLS {
        assert h.freed[x.i] == [];
        EmptyPool(h, x.i);
      }
    }
  }

  /** The j-th block of a page starts in that page. */
  lemma InPageRange(i: int, page: int, j: int, a: int)
    requires 0 <= i < NUM_POOLS && 0 <= j < PerPage(i) && a == 4096 * page + PoolSize(i) * j
    ensures a / 4096 == page
  {
    if i == 0 { assert 0 <= a - 4096 * page < 4096; } else if i == 1 { assert 0 <= a - 4096 * page < 4096; }
    else if i == 2 { assert 0 <= a - 4096 * page < 4096; } else if i == 3 { assert 0 <= a - 4096 * page < 4096; }
  }

  /** A heap reservation that fits succeeds. */
  lemma HeapGrows(sys: Sys, n: nat, managed: set<int>)
    requires SysInv(sys, managed) && Fits(sys, HeapArea, n)
    ensures Succeeds(sys, HeapArea, n)
  {
    assert PartOk(sys, managed, TablesPart) && PartOk(sys, managed, RangesPart);
    TakeTables(sys, HeapArea, n);
  }

  lemma WholePages(start: int, size: int, n: int)
    requires size == 4096 * n
    ensures size % 4096 == 0 && size / 4096 == n && (start + size) / 4096 == start / 4096 + n
  {
  }

  lemma HeapEnds(sys: Sys, managed: set<int>)
    requires SysInv(sys, managed)
    ensures HeapBelow(sys.live, sys.heapPos) && HEAP_START <= sys.heapPos
  {
    assert PartOk(sys, managed, RangesPart);
    forall r | r in sys.live && HEAP_START <= r.0 ensures r.1 <= sys.heapPos { assert Taken(sys, r); }
  }

  /** The words outside a page that is not in use hold every list and header. */
  lemma CellsElsewhere(cells: Cells, cells': Cells, heads: seq<int>, heads': seq<int>,
                       h: Heap, ranges: set<Range>, i: nat, p: int)
    requires CellsOk(cells, heads, h) && HeapInv(h, ranges) && p !in h.uses && i < NUM_POOLS
    requires SameOutside(cells, cells', p) && |heads'| == NUM_POOLS && heads' == heads[i := heads'[i]]
    requires h.freed[i] == [] && FreeList(cells', heads'[i], Blocks(i, p, PerPage(i)))
    ensures CellsOk(cells', heads', Carve(h, i, p))
  {
    var h' := Carve(h, i, p);
    forall j | 0 <= j < NUM_POOLS ensures FreeList(cells', heads'[j], h'.freed[j]) {
      if j == i {
        assert h'.freed[i] == Blocks(i, p, PerPage(i));
      } else {
        assert AspectOk(h, ranges, InPool(j));
        forall a | a in h.freed[j] && a in cells ensures a in cells' && cells'[a] == cells[a] {
          assert IsBlock(h, j, a);
        }
        ListSame(cells, cells', heads[j], h.freed[j]);
      }
    }
    forall a | a in h'.live ensures a in cells' && cells'[a] == KmallocEntry(h.live[a].size, h.live[a].pool) {
      assert AspectOk(h, ranges, InHand(a));
    }
  }

  /** Rewriting the words of one block that heads no list any more. */
  lemma CellWritten(cells: Cells, heads: seq<int>, heads': seq<int>, h: Heap, h': Heap, a: int, c: Cell, i: nat)
    requires CellsOk(cells, heads, h) && |heads'| == |h'.freed| == NUM_POOLS && i < NUM_POOLS
    requires FreeList(cells[a := c], heads'[i], h'.freed[i])
    requires forall j :: 0 <= j < NUM_POOLS && j != i ==>
               heads'[j] == heads[j] && h'.freed[j] == h.freed[j] && a !in h.freed[j]
    requires forall b :: b in h'.live && b != a ==> b in h.live && h'.live[b] == h.live[b]
    requires a in h'.live ==> c == KmallocEntry(h'.live[a].size, h'.live[a].pool)
    ensures CellsOk(cells[a := c], heads', h')
  {
    forall j | 0 <= j < NUM_POOLS ensures FreeList(cells[a := c], heads'[j], h'.freed[j]) {
      if j != i { ListSame(cells, cells[a := c], heads[j], h.freed[j]); }
    }
  }

  lemma NotInInit(s: seq<int>)
    requires NoRepeat(s) && s != []
    ensures s[|s| - 1] !in s[..|s| - 1]
  {
  }

  lemma EmptyList(cells: Cells, heads: seq<int>, h: Heap, i: nat)
    requires CellsOk(cells, heads, h) && i < NUM_POOLS
    ensures heads[i] == 0 <==> h.freed[i] == []
  {
    if h.freed[i] != [] { assert FreeLink(cells, h.freed[i], |h.freed[i]| - 1); }
  }

  lemma CarvedNotEmpty(i: int, page: int)
    requires 0 <= i < NUM_POOLS
    ensures Blocks(i, page, PerPage(i)) != []
  {
    BlocksOnce(i, page, PerPage(i));
  }

  /** The block in front of which kmalloc put its header was not live, and is now the one
      more live block, in the smallest pool that fits the request. */
  lemma MallocGives(h: Heap, ranges: set<Range>, pos: int, size: int)
    requires HeapInv(h, ranges) && HeapBelow(ranges, pos)
    ensures var (ptr, h') := AfterMalloc(h, pos, size);
            && ptr - HEADER !in h.live
            && h'.live == h.live[ptr - HEADER := HeapSpec.Entry(size, PoolFor(size))]
  {
    hide HeapInv, HeapBelow, Blocks;
    var i := PoolFor(size);
    if i == NUM_POOLS {
      NothingUsed(h, ranges, pos);
    } else {
      NextNotLive(h, ranges, pos, i);
    }
  }

  /** The block pool i hands out next. */
  lemma NextNotLive(h: Heap, ranges: set<Range>, pos: int, i: nat)
    requires HeapInv(h, ranges) && HeapBelow(ranges, pos) && i < NUM_POOLS
    ensures var freed := WithFree(h, i, pos).freed[i];
            freed != [] && freed[|freed| - 1] !in h.live
  {
    var freed := WithFree(h, i, pos).freed[i];
    if h.freed[i] == [] {
      CarvedNotEmpty(i, pos);
      var a := freed[|freed| - 1];
      assert a in freed;
      PageBlocks(i, pos, a);
      NothingUsed(h, ranges, pos);
      assert AspectOk(h, ranges, InHand(a));
    } else {
      assert AspectOk(h, ranges, InPool(i));
      FreeNotLive(h, i, |h.freed[i]| - 1);
    }
  }

  lemma FreeNotLive(h: Heap, i: nat, k: nat)
    requires |h.freed| == NUM_POOLS && i < NUM_POOLS && PoolOk(h, i) && k < |h.freed[i]|
    ensures h.freed[i][k] !in h.live
  {
    var a := h.freed[i][k];
    assert a in h.freed[i];
    assert IsBlock(h, i, a);
  }

  class KmallocPools {
    const page: Paging.Page
    var freeEntries: seq<int>
    var cells: Cells
    ghost var heap: Heap

    /** The heap's blocks agree with memory and with the live page ranges. */
    ghost predicate HeapOk(ranges: set<Range>)
      reads this
    {
      HeapInv(heap, ranges) && CellsOk(cells, freeEntries, heap)
    }

    ghost predicate Valid()
      reads this, page, page.frames, page.ram
    {
      page.Valid() && HeapOk(page.live) && Homes(heap, page.vm)
    }

    constructor (page: Paging.Page)
      requires page.Valid()
      ensures Valid() && this.page == page && heap == Heap.Heap([[], [], [], [], []], map[], map[])
    {
      this.page := page;
      freeEntries, cells := [0, 0, 0, 0, 0], map[];
      heap := Heap.Heap([[], [], [], [], []], map[], map[]);
      new;
      EmptyHeap(heap, page.live);
    }

    /** The loop that cuts a fresh page into blocks and puts them on an empty pool's list. */
    method CarvePage(i: nat, start: int)
      requires i < NUM_POOLS == |freeEntries| && freeEntries[i] == 0
      requires start % 4096 == 0 && start > 0
      modifies this`freeEntries, this`cells
      ensures |freeEntries| == NUM_POOLS && freeEntries == old(freeEntries)[i := freeEntries[i]]
      ensures FreeList(cells, freeEntries[i], Blocks(i, start / 4096, PerPage(i)))
      ensures SameOutside(old(cells), cells, start / 4096)
    {
      ghost var page := start / 4096;
      var j := 0;
      while j < 4096 / PoolSize(i)
        invariant 0 <= j <= PerPage(i) && |freeEntries| == NUM_POOLS
        invariant freeEntries == old(freeEntries)[i := freeEntries[i]]
        invariant FreeList(cells, freeEntries[i], Blocks(i, page, j))
        invariant SameOutside(old(cells), cells, page)
      {
        var entry := start + PoolSize(i) * j;
        InBlocks(i, page, j, entry);
        InBlocks(i, page, j + 1, entry);
        PageBlocks(i, page, entry);
        InPageRange(i, page, j, entry);
        PushList(cells, freeEntries[i], Blocks(i, page, j), entry);
        cells := cells[entry := FreeEntry(freeEntries[i])];
        freeEntries := freeEntries[i := entry];
        j := j + 1;
      }
    }

    /** Reserves size bytes, n whole heap pages that fit, and makes the first write to
        them, which faults; the handler may refuse it. */
    method Reserve(size: int, ghost n: nat) returns (refused: bool, start: int)
      requires page.Valid() && 0 < size < 0x1_0000_0000 && size == 4096 * n
      requires Writable(page.State(), n, page.low)
      modifies page, page.frames, page.ram
      ensures page.Valid() && page.low == old(page.low)
      ensures refused == (page.low == 0 && StartsLazy(old(page.State()), n))
      ensures refused ==> page.State() == Step(old(page.State()), Take(HeapArea, n))
      ensures refused ==> !Accepts(page.vm, old(page.State()).heapPos, page.low)
      ensures !refused ==> page.State() == TakeWritten(old(page.State()), n)
      ensures !refused ==> page.live == old(page.live) + {(start / 4096, start / 4096 + n)}
      ensures !refused ==> page.vm.mapped.Keys == old(page.vm).mapped.Keys + {start / 4096}
      ensures start == old(page.kernHeapPos) && start > 0 && start % 4096 == 0
    {
      ghost var sys := page.State();
      WholePages(page.kernHeapPos, size, n);
      assert page.PieceOk(Paging.Positions);
      HeapGrows(sys, n, page.managed);
      PositionBounds(sys, page.managed);
      FirstTouchExact(sys, n, page.low, page.managed);
      if page.low != 0 || !StartsLazy(sys, n) { WriteKeeps(sys, n, page.low, page.managed); }
      start := page.AllocKernHeap(size);
      refused := page.PfIrqHandler(start, false);
    }

    /** Carves the page at start, which is in ranges' but in no use, into pool i. */
    method PutPage(i: nat, start: int, ghost ranges: set<Range>, ghost ranges': set<Range>)
      requires HeapOk(ranges) && i < NUM_POOLS && heap.freed[i] == []
      requires start % 4096 == 0 && start > 0 && HEAP_START <= start / 4096 && HeapBelow(ranges, start / 4096)
      requires ranges <= ranges' && (start / 4096, start / 4096 + 1) in ranges'
      modifies this
      ensures HeapOk(ranges') && heap == Carve(old(heap), i, start / 4096)
    {
      ghost var h, cs, hs, p := heap, cells, freeEntries, start / 4096;
      NothingUsed(h, ranges, p);
      CarvePage(i, start);
      CellsElsewhere(cs, cells, hs, freeEntries, h, ranges, i, p);
      CarveKeeps(h, ranges, p, i, ranges');
      heap := Carve(h, i, p);
    }

    /** Pops a block off pool i's free list and writes its header. */
    method TakeFrom(i: nat, size: int, ghost ranges: set<Range>) returns (ptr: int)
      requires HeapOk(ranges) && i < NUM_POOLS && heap.freed[i] != []
      requires 0 <= size < 0x1_0000_0000 && i == PoolFor(size)
      modifies this
      ensures HeapOk(ranges) && heap == TakeBlock(old(heap), i, size)
      ensures ptr == old(heap).freed[i][|old(heap).freed[i]| - 1] + HEADER
    {
      ghost var h, hs := heap, freeEntries;
      ghost var n := |h.freed[i]| - 1;
      assert AspectOk(h, ranges, InPool(i)) && h.freed[i][n] in h.freed[i];
      var entry := freeEntries[i];
      PopList(cells, entry, h.freed[i]);
      freeEntries := freeEntries[i := cells[entry].prev];
      forall j | 0 <= j < NUM_POOLS && j != i ensures entry !in h.freed[j] {
        FreeInOnePool(h, ranges, i, j, entry);
      }
      NotInInit(h.freed[i]);
      ListSame(cells, cells[entry := KmallocEntry(size, i)], freeEntries[i], h.freed[i][..n]);
      CellWritten(cells, hs, freeEntries, h, TakeBlock(h, i, size), entry, KmallocEntry(size, i), i);
      TakeBlockKeeps(h, ranges, i, size);
      cells := cells[entry := KmallocEntry(size, i)];
      heap := TakeBlock(heap, i, size);
      return entry + HEADER;
    }

    /** Writes the header of a page range that is in ranges' but in no use. */
    method PutRange(entry: int, size: int, ghost ranges: set<Range>, ghost ranges': set<Range>)
      requires HeapOk(ranges) && 0 <= size < 0x1_0000_0000 && PoolFor(size) == NUM_POOLS && Alloced(size) > 0
      requires entry % 4096 == 0 && HEAP_START <= entry / 4096 && HeapBelow(ranges, entry / 4096)
      requires ranges <= ranges' && (entry / 4096, entry / 4096 + Alloced(size) / 4096) in ranges'
      modifies this
      ensures HeapOk(ranges') && heap == TakeRange(old(heap), entry / 4096, size)
    {
      ghost var h, p := heap, entry / 4096;
      NothingUsed(h, ranges, p);
      forall j | 0 <= j < NUM_POOLS ensures entry !in h.freed[j] {
        assert AspectOk(h, ranges, InPool(j));
        forall a | a in h.freed[j] ensures a != entry { assert IsBlock(h, j, a); }
      }
      ListSame(cells, cells[entry := KmallocEntry(size, NUM_POOLS)], freeEntries[0], h.freed[0]);
      CellWritten(cells, freeEntries, freeEntries, h, TakeRange(h, p, size), entry, KmallocEntry(size, NUM_POOLS), 0);
      TakeRangeKeeps(h, ranges, p, size, ranges');
      cells := cells[entry := KmallocEntry(size, NUM_POOLS)];
      heap := TakeRange(heap, p, size);
    }

    /** kmalloc. It halts exactly when the header's page is absent and the page-fault
        handler refuses the write. */
    method Kmalloc(size: int) returns (halted: bool, ptr: int)
      requires Valid() && 0 <= size < 0x1_0000_0000
      requires PagesTaken(heap, size) > 0 ==> Writable(page.State(), PagesTaken(heap, size), page.low)
      modifies this, page, page.frames, page.ram
      ensures page.Valid() && page.low == old(page.low) && halted == Halts(old(page.State()), size, page.low)
      ensures halted ==> !Accepts(page.vm, old(page.State()).heapPos, page.low)
      ensures !halted ==> Valid() && ptr == AfterMalloc(old(heap), old(page.State()).heapPos, size).0
                          && heap == AfterMalloc(old(heap), old(page.State()).heapPos, size).1
      ensures !halted ==> ptr - HEADER !in old(heap).live
                          && heap.live == old(heap).live[ptr - HEADER := HeapSpec.Entry(size, PoolFor(size))]
      ensures page.State() == SysAfter(old(heap), old(page.State()), size, page.low)
    {
      assert page.PieceOk(Paging.Positions);
      HeapEnds(page.State(), page.managed);
      MallocGives(heap, page.live, page.State().heapPos, size);
      AllocedExact(size);
      var i := 0;
      while i < NUM_POOLS && PoolSize(i) < size + HEADER
        invariant 0 <= i <= PoolFor(size)
      {
        i := i + 1;
      }
      if i < NUM_POOLS {
        ptr := FromPool(i, size);
        return false, ptr;
      }
      halted, ptr := FromPages(size);
    }

    /** Makes sure pool i has a free block, carving a fresh page if it has none. */
    method EnsureFree(i: nat)
      requires Valid() && i < NUM_POOLS
      requires heap.freed[i] == [] ==> Writable(page.State(), 1, page.low)
      modifies this, page, page.frames, page.ram
      ensures Valid() && heap == WithFree(old(heap), i, old(page.State()).heapPos) && heap.freed[i] != []
      ensures page.State() == if old(heap).freed[i] == [] then TakeWritten(old(page.State()), 1) else old(page.State())
      ensures page.low == old(page.low)
    {
      EmptyList(cells, freeEntries, heap, i);
      if freeEntries[i] == 0 {
        ghost var ranges := page.live;
        assert page.PieceOk(Paging.Positions);
        HeapEnds(page.State(), page.managed);
        var refused, start := Reserve(4096, 1);
        PutPage(i, start, ranges, page.live);
        CarvedNotEmpty(i, start / 4096);
      }
    }

    /** A request that fits pool i. */
    method FromPool(i: nat, size: int) returns (ptr: int)
      requires Valid() && 0 <= size < 0x1_0000_0000 && i == PoolFor(size) < NUM_POOLS
      requires heap.freed[i] == [] ==> Writable(page.State(), 1, page.low)
      modifies this, page, page.frames, page.ram
      ensures Valid() && ptr == AfterMalloc(old(heap), old(page.State()).heapPos, size).0
      ensures heap == AfterMalloc(old(heap), old(page.State()).heapPos, size).1
      ensures page.State() == if old(heap).freed[i] == [] then TakeWritten(old(page.State()), 1) else old(page.State())
      ensures page.low == old(page.low)
    {
      EnsureFree(i);
      ptr := TakeFrom(i, size, page.live);
    }

    /** A request no pool can hold. With nothing reserved, writing the header is a fault
        on the absent page at the heap's position. */
    method FromPages(size: int) returns (halted: bool, ptr: int)
      requires Valid() && 0 <= size < 0x1_0000_0000 && PoolFor(size) == NUM_POOLS
      requires Alloced(size) > 0 ==> Writable(page.State(), Alloced(size) / 4096, page.low)
      modifies this, page, page.frames, page.ram
      ensures page.Valid() && page.low == old(page.low) && halted == Halts(old(page.State()), size, page.low)
      ensures halted ==> !Accepts(page.vm, old(page.State()).heapPos, page.low)
      ensures !halted ==> Valid() && heap == TakeRange(old(heap), old(page.State()).heapPos, size)
                          && ptr == 4096 * old(page.State()).heapPos + HEADER
      ensures page.State() == SysAfter(old(heap), old(page.State()), size, page.low)
    {
      ghost var ranges := page.live;
      assert page.PieceOk(Paging.Positions);
      HeapEnds(page.State(), page.managed);
      AllocedExact(size);
      var alloced := (size + HEADER + 4096 - 1) / 4096 * 4096 % 0x1_0000_0000;
      if alloced == 0 {
        NextRefused(page.State(), page.managed);
        PositionBounds(page.State(), page.managed);
        halted := page.PfIrqHandler(page.kernHeapPos, false);
        return halted, 0;
      }
      var entry: int;
      halted, entry := Reserve(alloced, alloced / 4096);
      if halted {
        return true, 0;
      }
      PutRange(entry, size, ranges, page.live);
      return false, entry + HEADER;
    }

    /** kfree of a pointer kmalloc returned. */
    method Kfree(ptr: int)
      requires Valid() && ptr - HEADER in heap.live
      modifies this, page, page.frames, page.ram
      ensures Valid() && heap.live == old(heap).live - {ptr - HEADER}
      ensures var a := ptr - HEADER; var e := old(heap).live[a];
              if e.pool < NUM_POOLS then
                e.pool >= 0 && heap == GiveBlock(old(heap), a) && page.State() == old(page.State())
              else heap == GiveRange(old(heap), a)
                   && page.State() == Step(old(page.State()), Drop((a / 4096, (a + Alloced(e.size)) / 4096)))
    {
      ghost var ranges := page.live;
      var entry := ptr - HEADER;
      assert AspectOk(heap, ranges, InHand(entry));
      var size, pool := cells[entry].size, cells[entry].pool;
      if pool < NUM_POOLS {
        PutBlock(entry, ranges);
        return;
      }
      BlockInHome(heap, ranges, entry);
      AllocedExact(size);
      var alloced := (size + HEADER + 4096 - 1) / 4096 * 4096 % 0x1_0000_0000;
      assert page.PieceOk(Paging.Positions);
      assert AspectOk(heap, ranges, InUse(entry / 4096));
      WholePages(entry, alloced, alloced / 4096);
      DropHomes(heap, page.State(), (entry / 4096, (entry + alloced) / 4096), page.managed);
      page.FreeKernHeap(entry, alloced);
      DropRange(entry, ranges, page.live);
    }

    /** Puts a pool block back on its free list, over its header. */
    method PutBlock(a: int, ghost ranges: set<Range>)
      requires HeapOk(ranges) && a in heap.live && 0 <= heap.live[a].pool < NUM_POOLS
      modifies this
      ensures HeapOk(ranges) && heap == GiveBlock(old(heap), a)
    {
      ghost var h, hs := heap, freeEntries;
      var i := cells[a].pool;
      BlockInHome(h, ranges, a);
      assert AspectOk(h, ranges, InPool(i)) && AspectOk(h, ranges, InUse(a / 4096));
      PushList(cells, freeEntries[i], h.freed[i], a);
      forall j | 0 <= j < NUM_POOLS && j != i ensures a !in h.freed[j] {
        assert AspectOk(h, ranges, InPool(j));
      }
      CellWritten(cells, hs, hs[i := a], h, GiveBlock(h, a), a, FreeEntry(hs[i]), i);
      GiveBlockKeeps(h, ranges, a);
      cells := cells[a := FreeEntry(freeEntries[i])];
      freeEntries := freeEntries[i := a];
      heap := GiveBlock(heap, a);
    }

    /** Forgets a page range that is no longer live. */
    ghost method DropRange(a: int, ranges: set<Range>, ranges': set<Range>)
      requires HeapOk(ranges) && a in heap.live && heap.live[a].pool == NUM_POOLS && a / 4096 in heap.uses
      requires forall r :: r in ranges && r != HomeOf(heap, a) ==> r in ranges'
      modifies this`heap
      ensures HeapOk(ranges') && heap == GiveRange(old(heap), a)
    {
      GiveRangeKeeps(heap, ranges, a, ranges');
      heap := GiveRange(heap, a);
    }
  }
}
