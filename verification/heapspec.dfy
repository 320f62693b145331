/** The kernel heap as sets of blocks: five pools of equal blocks carved from pages, and
    whole page ranges for what no pool can hold. */
module HeapSpec {
  import opened Frames
  import opened Vm
  import opened VmLaws
  import opened VmSystem

  const HEADER: int := 12
  const NUM_POOLS: int := 5

  function PoolSize(i: int): int {
    if i == 0 then 32 else if i == 1 then 128 else if i == 2 then 512 else if i == 3 then 1024 else 2048
  }

  function PerPage(i: int): int { 4096 / PoolSize(i) }

  /** The first pool whose blocks hold size bytes and a header, NUM_POOLS if none. */
  function PoolFor(size: int): (i: int)
    ensures 0 <= i <= NUM_POOLS
    ensures i < NUM_POOLS ==> size + HEADER <= PoolSize(i)
    ensures forall j :: 0 <= j < i ==> PoolSize(j) < size + HEADER
  {
    if size + HEADER <= 32 then 0 else if size + HEADER <= 128 then 1 else if size + HEADER <= 512 then 2
    else if size + HEADER <= 1024 then 3 else if size + HEADER <= 2048 then 4 else 5
  }

  /** Bytes reserved for a large request: rounded up to pages, then cut to 32 bits. */
  function Alloced(size: int): int {
    (size + HEADER + 4096 - 1) / 4096 * 4096 % 0x1_0000_0000
  }

  /** A large request gets room for its payload, and less than a page more, if and only if
      the rounded size still fits 32 bits; the 4096 sizes just above that get nothing. */
  lemma AllocedExact(size: int)
    requires 0 <= size < 0x1_0000_0000
    ensures Alloced(size) % 4096 == 0 && 0 <= Alloced(size) < 0x1_0000_0000
    ensures size + HEADER <= Alloced(size) <==> size + HEADER <= 0x1_0000_0000 - 4096
    ensures size + HEADER <= 0x1_0000_0000 - 4096 ==> Alloced(size) < size + HEADER + 4096
    ensures Alloced(size) == 0 <==> 0x1_0000_0000 - 4096 < size + HEADER <= 0x1_0000_0000
  {
  }

  /** A block handed out: the size asked for and its pool, NUM_POOLS for a page range. */
  datatype Entry = Entry(size: int, pool: int)

  /** What the pages from a given page number on are used for. */
  datatype Use = PoolPage(pool: int) | LargeRange(pages: int)

  /** freed: the free blocks of each pool, the next one to hand out last. */
  datatype Heap = Heap(freed: seq<seq<int>>, live: map<int, Entry>, uses: map<int, Use>)

  function Pages(u: Use): int { if u.PoolPage? then 1 else u.pages }

  function BlockLen(e: Entry): int {
    if e.pool < NUM_POOLS then PoolSize(e.pool) else Alloced(e.size)
  }

  /** Address a starts a block of a page of pool i. */
  predicate IsBlock(h: Heap, i: int, a: int) {
    a / 4096 in h.uses && h.uses[a / 4096] == PoolPage(i) && a % PoolSize(i) == 0
  }

  predicate IsLive(h: Heap, i: int, a: int) {
    a in h.live && h.live[a].pool == i
  }

  function LiveIn(h: Heap, i: int): set<int> { set a | a in h.live && h.live[a].pool == i }

  function PagesOf(h: Heap, i: int): set<int> { set p | p in h.uses && h.uses[p] == PoolPage(i) }

  /** The blocks of pool i's pages are its free and its live blocks, each once. */
  ghost predicate PoolOk(h: Heap, i: int)
    requires 0 <= i < |h.freed|
  {
    && NoRepeat(h.freed[i])
    && (forall a :: a in h.freed[i] ==> IsBlock(h, i, a) && a !in h.live)
    && (forall a :: IsBlock(h, i, a) ==> a in h.freed[i] || IsLive(h, i, a))
    && |h.freed[i]| + |LiveIn(h, i)| == |PagesOf(h, i)| * PerPage(i)
  }

  /** A live block lies in the smallest pool that fits it, or fills its own page range. */
  ghost predicate EntryOk(h: Heap, a: int)
    requires a in h.live
  {
    var e := h.live[a];
    && 0 <= e.size < 0x1_0000_0000 && e.pool == PoolFor(e.size)
    && if e.pool < NUM_POOLS then IsBlock(h, e.pool, a)
       else a % 4096 == 0 && a / 4096 in h.uses && h.uses[a / 4096] == LargeRange(Alloced(e.size) / 4096)
  }

  /** Every use is a live, non-empty range of heap pages. */
  ghost predicate UseOk(h: Heap, ranges: set<Range>, p: int)
    requires p in h.uses
  {
    Pages(h.uses[p]) > 0 && HEAP_START <= p && (p, p + Pages(h.uses[p])) in ranges
  }

  /** Every use has been written to at its start: the words there never fault again. */
  ghost predicate Homes(h: Heap, vm: Vm) {
    forall p :: p in h.uses ==> p in vm.mapped
  }

  /** No live heap range reaches past the next heap page p. */
  ghost predicate HeapBelow(ranges: set<Range>, p: int) {
    forall r :: r in ranges && HEAP_START <= r.0 ==> r.1 <= p
  }

  ghost predicate Separate(ranges: set<Range>) {
    forall r, q :: r in ranges && q in ranges && r != q ==> Apart(r, q)
  }

  datatype Aspect = InPool(i: int) | InUse(p: int) | InHand(a: int)

  ghost predicate AspectOk(h: Heap, ranges: set<Range>, x: Aspect) {
    match x
    case InPool(i) => 0 <= i < NUM_POOLS && |h.freed| == NUM_POOLS ==> PoolOk(h, i)
    case InUse(p) => p in h.uses ==> UseOk(h, ranges, p)
    case InHand(a) => a in h.live ==> EntryOk(h, a)
  }

  ghost predicate HeapInv(h: Heap, ranges: set<Range>) {
    |h.freed| == NUM_POOLS && forall x :: AspectOk(h, ranges, x)
  }

  // ------------------------------------------------------------------------ properties

  lemma InPage(a: int)
    ensures a % 32 == 0 ==> a + 32 <= 4096 * (a / 4096) + 4096
    ensures a % 128 == 0 ==> a + 128 <= 4096 * (a / 4096) + 4096
    ensures a % 512 == 0 ==> a + 512 <= 4096 * (a / 4096) + 4096
    ensures a % 1024 == 0 ==> a + 1024 <= 4096 * (a / 4096) + 4096
    ensures a % 2048 == 0 ==> a + 2048 <= 4096 * (a / 4096) + 4096
  {
  }

  /** A pool block lies inside its page. */
  lemma BlockInPage(i: int, a: int)
    requires 0 <= i < NUM_POOLS && a % PoolSize(i) == 0
    ensures 4096 * (a / 4096) <= a && a + PoolSize(i) <= 4096 * (a / 4096) + 4096
  {
    InPage(a);
  }

  /** The pages of the range a live block was cut from. */
  function HomeOf(h: Heap, a: int): Range
    requires a in h.live && a / 4096 in h.uses
  {
    (a / 4096, a / 4096 + Pages(h.uses[a / 4096]))
  }

  /** Every live block lies inside a live page range. */
  lemma BlockInHome(h: Heap, ranges: set<Range>, a: int)
    requires HeapInv(h, ranges) && a in h.live
    ensures a / 4096 in h.uses && HomeOf(h, a) in ranges
    ensures 4096 * HomeOf(h, a).0 <= a && a + BlockLen(h.live[a]) <= 4096 * HomeOf(h, a).1
  {
    assert AspectOk(h, ranges, InHand(a)) && AspectOk(h, ranges, InUse(a / 4096));
    var e := h.live[a];
    if e.pool < NUM_POOLS { BlockInPage(e.pool, a); } else { AllocedExact(e.size); }
  }

  /** Distinct live blocks never overlap. */
  lemma BlocksDisjoint(h: Heap, ranges: set<Range>, a: int, b: int)
    requires HeapInv(h, ranges) && Separate(ranges) && a in h.live && b in h.live && a < b
    ensures a + BlockLen(h.live[a]) <= b
  {
    BlockInHome(h, ranges, a);
    BlockInHome(h, ranges, b);
    assert AspectOk(h, ranges, InHand(a)) && AspectOk(h, ranges, InHand(b));
    assert AspectOk(h, ranges, InUse(a / 4096)) && AspectOk(h, ranges, InUse(b / 4096));
    if a / 4096 == b / 4096 {
      SamePageApart(h.live[a].pool, a, b);
    } else {
      assert Apart(HomeOf(h, a), HomeOf(h, b));
    }
  }

  lemma SamePageApart(i: int, a: int, b: int)
    requires 0 <= i < NUM_POOLS ==> a % PoolSize(i) == 0 && b % PoolSize(i) == 0
    requires i >= NUM_POOLS ==> a % 4096 == 0 && b % 4096 == 0
    requires 0 <= i && a / 4096 == b / 4096 && a < b
    ensures i < NUM_POOLS && a + PoolSize(i) <= b
  {
    if i == 0 { Apart32(a, b); } else if i == 1 { Apart128(a, b); } else if i == 2 { Apart512(a, b); }
    else if i == 3 { Apart1024(a, b); } else if i == 4 { Apart2048(a, b); } else { Apart4096(a, b); }
  }

  lemma Apart32(a: int, b: int)
    requires a < b && a % 32 == 0 && b % 32 == 0
    ensures a + 32 <= b
  {
  }

  lemma Apart128(a: int, b: int)
    requires a < b && a % 128 == 0 && b % 128 == 0
    ensures a + 128 <= b
  {
  }

  lemma Apart512(a: int, b: int)
    requires a < b && a % 512 == 0 && b % 512 == 0
    ensures a + 512 <= b
  {
  }

  lemma Apart1024(a: int, b: int)
    requires a < b && a % 1024 == 0 && b % 1024 == 0
    ensures a + 1024 <= b
  {
  }

  lemma Apart2048(a: int, b: int)
    requires a < b && a % 2048 == 0 && b % 2048 == 0
    ensures a + 2048 <= b
  {
  }

  lemma Apart4096(a: int, b: int)
    requires a < b && a % 4096 == 0 && b % 4096 == 0
    ensures a + 4096 <= b
  {
  }

  /** A payload fits its block if and only if its request did not overflow 32 bits. */
  lemma PayloadFits(h: Heap, ranges: set<Range>, a: int)
    requires HeapInv(h, ranges) && a in h.live
    ensures HEADER + h.live[a].size <= BlockLen(h.live[a]) <==> h.live[a].size + HEADER <= 0x1_0000_0000 - 4096
  {
    assert AspectOk(h, ranges, InHand(a));
    AllocedExact(h.live[a].size);
  }

  /** Every byte of a live block is on a reserved page. The header's page, and so all of a
      pool block, is present. Elsewhere a touch is accepted unless the byte's 2 MB block is
      lazily reserved and word 0 of memory carries no mark. */
  lemma BlockTouch(h: Heap, sys: Sys, a: int, x: int, low: int)
    requires HeapInv(h, sys.live) && PagesCovered(sys) && Shape(sys.vm) && Homes(h, sys.vm)
    requires a in h.live && a <= x < a + BlockLen(h.live[a])
    ensures Reserved(sys.vm, x / 4096) && a / 4096 in sys.vm.mapped
    ensures Accepts(sys.vm, x / 4096, low) <==> low != 0 || !Lazy(sys.vm, x / 4096 / 512)
    ensures h.live[a].pool < NUM_POOLS ==> x / 4096 in sys.vm.mapped && Accepts(sys.vm, x / 4096, low)
  {
    BlockInHome(h, sys.live, a);
    assert Holds(HomeOf(h, a), x / 4096);
    AcceptsAt(sys.vm, x / 4096, low);
    if h.live[a].pool < NUM_POOLS {
      assert AspectOk(h, sys.live, InHand(a));
      assert x / 4096 == a / 4096;
    }
  }

  /** Releasing a live range takes no page from the uses that start elsewhere. */
  lemma DropHomes(h: Heap, sys: Sys, r: Range, managed: set<int>)
    requires HeapInv(h, sys.live) && SysInv(sys, managed) && Homes(h, sys.vm) && r in sys.live
    ensures forall p :: p in h.uses && p != r.0 ==> p in Step(sys, Drop(r)).vm.mapped
  {
    hide FreeFrom, Shape;
    assert PartOk(sys, managed, TablesPart) && PartOk(sys, managed, RangesPart);
    assert Taken(sys, r);
    SlotsHere(sys.vm, r.0, r.1);
    forall p | p in h.uses && p != r.0 ensures p in Step(sys, Drop(r)).vm.mapped {
      assert AspectOk(h, sys.live, InUse(p));
      assert Apart((p, p + Pages(h.uses[p])), r);
      FreeEffect(sys.vm, r.0, r.1, p);
    }
  }

  // ------------------------------------------------------------------------ operations

  /** The blocks of a fresh page in the order they are put on the free list. */
  function Blocks(i: int, page: int, n: nat): seq<int> {
    if n == 0 then [] else Blocks(i, page, n - 1) + [4096 * page + PoolSize(i) * (n - 1)]
  }

  function Carve(h: Heap, i: nat, page: int): Heap
    requires i < |h.freed|
  {
    h.(freed := h.freed[i := h.freed[i] + Blocks(i, page, PerPage(i))], uses := h.uses[page := PoolPage(i)])
  }

  function TakeBlock(h: Heap, i: nat, size: int): Heap
    requires i < |h.freed| && h.freed[i] != []
  {
    var n := |h.freed[i]| - 1;
    h.(freed := h.freed[i := h.freed[i][..n]], live := h.live[h.freed[i][n] := Entry(size, i)])
  }

  function TakeRange(h: Heap, page: int, size: int): Heap {
    h.(live := h.live[4096 * page := Entry(size, NUM_POOLS)],
       uses := h.uses[page := LargeRange(Alloced(size) / 4096)])
  }

  function GiveBlock(h: Heap, a: int): Heap
    requires a in h.live && 0 <= h.live[a].pool < |h.freed|
  {
    var i := h.live[a].pool;
    h.(freed := h.freed[i := h.freed[i] + [a]], live := h.live - {a})
  }

  function GiveRange(h: Heap, a: int): Heap {
    h.(live := h.live - {a}, uses := h.uses - {a / 4096})
  }

  lemma {:induction false} InBlocks(i: int, page: int, n: nat, a: int)
    requires 0 <= i < NUM_POOLS && n <= PerPage(i)
    ensures a in Blocks(i, page, n) <==> 4096 * page <= a < 4096 * page + PoolSize(i) * n && a % PoolSize(i) == 0
  {
    if n > 0 {
      InBlocks(i, page, n - 1, a);
      LastBlock(i, page, n, a);
    }
  }

  lemma LastBlock(i: int, page: int, n: nat, a: int)
    requires 0 <= i < NUM_POOLS && n > 0
    ensures var last := 4096 * page + PoolSize(i) * (n - 1);
            a == last <==> last <= a < 4096 * page + PoolSize(i) * n && a % PoolSize(i) == 0
  {
    if i == 0 { Multiple32(128 * page + n - 1, a); } else if i == 1 { Multiple128(32 * page + n - 1, a); }
    else if i == 2 { Multiple512(8 * page + n - 1, a); } else if i == 3 { Multiple1024(4 * page + n - 1, a); }
    else { Multiple2048(2 * page + n - 1, a); }
  }

  lemma Multiple32(q: int, a: int)
    ensures a == 32 * q <==> 32 * q <= a < 32 * q + 32 && a % 32 == 0
  {
  }

  lemma Multiple128(q: int, a: int)
    ensures a == 128 * q <==> 128 * q <= a < 128 * q + 128 && a % 128 == 0
  {
  }

  lemma Multiple512(q: int, a: int)
    ensures a == 512 * q <==> 512 * q <= a < 512 * q + 512 && a % 512 == 0
  {
  }

  lemma Multiple1024(q: int, a: int)
    ensures a == 1024 * q <==> 1024 * q <= a < 1024 * q + 1024 && a % 1024 == 0
  {
  }

  lemma Multiple2048(q: int, a: int)
    ensures a == 2048 * q <==> 2048 * q <= a < 2048 * q + 2048 && a % 2048 == 0
  {
  }

  /** A page's blocks are all of its addresses that are multiples of the block size. */
  lemma PageBlocks(i: int, page: int, a: int)
    requires 0 <= i < NUM_POOLS
    ensures a in Blocks(i, page, PerPage(i)) <==> a / 4096 == page && a % PoolSize(i) == 0
  {
    InBlocks(i, page, PerPage(i), a);
  }

  lemma {:induction false} BlocksOnce(i: int, page: int, n: nat)
    requires 0 <= i < NUM_POOLS && n <= PerPage(i)
    ensures NoRepeat(Blocks(i, page, n)) && |Blocks(i, page, n)| == n
  {
    if n > 0 {
      BlocksOnce(i, page, n - 1);
      var last := 4096 * page + PoolSize(i) * (n - 1);
      InBlocks(i, page, n - 1, last);
    }
  }

  // ------------------------------------------------------------- what they preserve

  /** Nothing is in use from the next heap page on. */
  lemma NothingUsed(h: Heap, ranges: set<Range>, p: int)
    requires HeapInv(h, ranges) && HeapBelow(ranges, p)
    ensures p !in h.uses && 4096 * p !in h.live
  {
    assert AspectOk(h, ranges, InUse(p));
    assert AspectOk(h, ranges, InHand(4096 * p));
  }

  lemma AddPage(h: Heap, i: int, j: int, page: int)
    requires page !in h.uses
    ensures var h' := h.(uses := h.uses[page := PoolPage(j)]);
            |PagesOf(h', i)| == |PagesOf(h, i)| + if i == j then 1 else 0
  {
    var h' := h.(uses := h.uses[page := PoolPage(j)]);
    assert PagesOf(h', i) == if i == j then PagesOf(h, i) + {page} else PagesOf(h, i);
  }

  /** Carving the next heap page into blocks of an empty pool. */
  lemma CarveKeeps(h: Heap, ranges: set<Range>, p: int, i: int, ranges': set<Range>)
    requires HeapInv(h, ranges) && HeapBelow(ranges, p) && 0 <= i < NUM_POOLS && h.freed[i] == []
    requires ranges <= ranges' && (p, p + 1) in ranges' && HEAP_START <= p
    ensures HeapInv(Carve(h, i, p), ranges')
  {
    var h' := Carve(h, i, p);
    NothingUsed(h, ranges, p);
    BlocksOnce(i, p, PerPage(i));
    forall x ensures AspectOk(h', ranges', x) {
      assert AspectOk(h, ranges, x);
      match x
      case InPool(j) =>
        if 0 <= j < NUM_POOLS { CarvePool(h, ranges, i, p, j); }
      case InUse(q) =>
      case InHand(a) =>
    }
  }

  /** The other pools do not see the new page. */
  lemma CarveOther(h: Heap, i: int, p: int, j: int)
    requires |h.freed| == NUM_POOLS && 0 <= i < NUM_POOLS && 0 <= j < NUM_POOLS && i != j
    requires PoolOk(h, j) && p !in h.uses
    ensures PoolOk(Carve(h, i, p), j)
  {
    var h' := Carve(h, i, p);
    AddPage(h, j, i, p);
    assert PagesOf(h', j) == PagesOf(h.(uses := h.uses[p := PoolPage(i)]), j) && LiveIn(h', j) == LiveIn(h, j);
    assert h'.freed[j] == h.freed[j];
    forall a ensures IsBlock(h', j, a) <==> IsBlock(h, j, a) {}
  }

  lemma CarveOwn(h: Heap, i: int, p: int)
    requires |h.freed| == NUM_POOLS && 0 <= i < NUM_POOLS
    requires PoolOk(h, i) && p !in h.uses && h.freed[i] == [] && forall a :: a in h.live ==> a / 4096 != p
    ensures PoolOk(Carve(h, i, p), i)
  {
    var h', new' := Carve(h, i, p), Blocks(i, p, PerPage(i));
    AddPage(h, i, i, p);
    assert PagesOf(h', i) == PagesOf(h.(uses := h.uses[p := PoolPage(i)]), i) && LiveIn(h', i) == LiveIn(h, i);
    BlocksOnce(i, p, PerPage(i));
    assert h'.freed[i] == new';
    forall a ensures (a in new' ==> IsBlock(h', i, a) && a !in h'.live)
                     && (IsBlock(h', i, a) ==> a in new' || IsLive(h', i, a)) {
      PageBlocks(i, p, a);
      assert IsBlock(h, i, a) ==> IsLive(h, i, a);
    }
    OneMore(|PagesOf(h, i)|, PerPage(i));
  }

  lemma OneMore(n: int, k: int)
    ensures (n + 1) * k == n * k + k
  {
  }

  lemma CarvePool(h: Heap, ranges: set<Range>, i: int, p: int, j: int)
    requires HeapInv(h, ranges) && p !in h.uses && 0 <= i < NUM_POOLS && 0 <= j < NUM_POOLS && h.freed[i] == []
    ensures PoolOk(Carve(h, i, p), j)
  {
    assert AspectOk(h, ranges, InPool(j));
    if i == j {
      forall a | a in h.live ensures a / 4096 != p { assert AspectOk(h, ranges, InHand(a)); }
      CarveOwn(h, i, p);
    } else {
      CarveOther(h, i, p, j);
    }
  }

  // One pool's bookkeeping when a block a is taken or given back.

  lemma TakeBlockOwn(h: Heap, i: nat, size: int)
    requires |h.freed| == NUM_POOLS && i < NUM_POOLS && PoolOk(h, i) && h.freed[i] != []
    ensures PoolOk(TakeBlock(h, i, size), i)
  {
    var s, h' := h.freed[i], TakeBlock(h, i, size);
    var n := |s| - 1;
    var a := s[n];
    assert a in s;
    assert LiveIn(h', i) == LiveIn(h, i) + {a} && PagesOf(h', i) == PagesOf(h, i);
    DropLast(s);
    hide NoRepeat;
    forall b ensures IsBlock(h', i, b) <==> IsBlock(h, i, b) {}
  }

  lemma DropLast(s: seq<int>)
    requires NoRepeat(s) && s != []
    ensures var rest, last := s[..|s| - 1], s[|s| - 1];
            NoRepeat(rest) && forall b :: b in rest <==> b in s && b != last
  {
    var rest, last := s[..|s| - 1], s[|s| - 1];
    assert s == rest + [last];
    forall k | 0 <= k < |rest| ensures rest[k] != last { assert s[k] != s[|s| - 1]; }
  }

  lemma GiveBlockOwn(h: Heap, a: int)
    requires |h.freed| == NUM_POOLS && a in h.live && 0 <= h.live[a].pool < NUM_POOLS
    requires PoolOk(h, h.live[a].pool) && IsBlock(h, h.live[a].pool, a)
    ensures PoolOk(GiveBlock(h, a), h.live[a].pool)
  {
    var i, h' := h.live[a].pool, GiveBlock(h, a);
    assert LiveIn(h', i) == LiveIn(h, i) - {a} && PagesOf(h', i) == PagesOf(h, i);
    assert a in LiveIn(h, i);
    assert h'.freed[i] == h.freed[i] + [a] && a !in h.freed[i];
    forall b ensures IsBlock(h', i, b) <==> IsBlock(h, i, b) {}
  }

  /** A pool none of whose free, live and page sets change. */
  lemma PoolSame(h: Heap, h': Heap, j: nat)
    requires |h.freed| == |h'.freed| == NUM_POOLS && j < NUM_POOLS && PoolOk(h, j)
    requires h'.freed[j] == h.freed[j] && PagesOf(h', j) == PagesOf(h, j) && LiveIn(h', j) == LiveIn(h, j)
    requires forall a :: a in h.freed[j] ==> a !in h'.live
    ensures PoolOk(h', j)
  {
    forall a ensures (IsBlock(h', j, a) <==> IsBlock(h, j, a)) && (IsLive(h', j, a) <==> IsLive(h, j, a)) {
      assert a / 4096 in PagesOf(h', j) <==> a / 4096 in PagesOf(h, j);
      assert a in LiveIn(h', j) <==> a in LiveIn(h, j);
    }
  }

  /** A block is free or live in one pool only. */
  lemma FreeInOnePool(h: Heap, ranges: set<Range>, i: int, j: int, a: int)
    requires HeapInv(h, ranges) && 0 <= i < NUM_POOLS && 0 <= j < NUM_POOLS && i != j
    requires IsBlock(h, i, a)
    ensures a !in h.freed[j]
  {
    assert AspectOk(h, ranges, InPool(j));
  }

  lemma TakeBlockKeeps(h: Heap, ranges: set<Range>, i: nat, size: int)
    requires HeapInv(h, ranges) && i < NUM_POOLS && h.freed[i] != []
    requires 0 <= size < 0x1_0000_0000 && i == PoolFor(size)
    ensures HeapInv(TakeBlock(h, i, size), ranges)
  {
    var h' := TakeBlock(h, i, size);
    var a := h.freed[i][|h.freed[i]| - 1];
    assert AspectOk(h, ranges, InPool(i)) && a in h.freed[i];
    forall x ensures AspectOk(h', ranges, x) {
      assert AspectOk(h, ranges, x);
      match x
      case InPool(j) =>
        if j == i {
          TakeBlockOwn(h, i, size);
        } else if 0 <= j < NUM_POOLS {
          FreeInOnePool(h, ranges, i, j, a);
          assert LiveIn(h', j) == LiveIn(h, j) && PagesOf(h', j) == PagesOf(h, j);
          PoolSame(h, h', j);
        }
      case InUse(p) =>
      case InHand(b) =>
    }
  }

  lemma GiveBlockKeeps(h: Heap, ranges: set<Range>, a: int)
    requires HeapInv(h, ranges) && a in h.live && h.live[a].pool < NUM_POOLS
    ensures 0 <= h.live[a].pool && HeapInv(GiveBlock(h, a), ranges)
  {
    assert AspectOk(h, ranges, InHand(a));
    var i, h' := h.live[a].pool, GiveBlock(h, a);
    forall x ensures AspectOk(h', ranges, x) {
      assert AspectOk(h, ranges, x);
      match x
      case InPool(j) =>
        if j == i {
          GiveBlockOwn(h, a);
        } else if 0 <= j < NUM_POOLS {
          assert LiveIn(h', j) == LiveIn(h, j) && PagesOf(h', j) == PagesOf(h, j);
          PoolSame(h, h', j);
        }
      case InUse(p) =>
      case InHand(b) =>
    }
  }

  lemma TakeRangeKeeps(h: Heap, ranges: set<Range>, p: int, size: int, ranges': set<Range>)
    requires HeapInv(h, ranges) && HeapBelow(ranges, p) && 0 <= size < 0x1_0000_0000 && PoolFor(size) == NUM_POOLS
    requires Alloced(size) > 0
    requires ranges <= ranges' && (p, p + Alloced(size) / 4096) in ranges' && HEAP_START <= p
    ensures HeapInv(TakeRange(h, p, size), ranges')
  {
    var h' := TakeRange(h, p, size);
    NothingUsed(h, ranges, p);
    AllocedExact(size);
    forall x ensures AspectOk(h', ranges', x) {
      assert AspectOk(h, ranges, x);
      match x
      case InPool(j) =>
        if 0 <= j < NUM_POOLS {
          assert LiveIn(h', j) == LiveIn(h, j) && PagesOf(h', j) == PagesOf(h, j);
          forall a | a in h.freed[j] ensures a != 4096 * p { assert IsBlock(h, j, a); }
          PoolSame(h, h', j);
        }
      case InUse(q) =>
      case InHand(b) =>
    }
  }

  lemma GiveRangeKeeps(h: Heap, ranges: set<Range>, a: int, ranges': set<Range>)
    requires HeapInv(h, ranges) && a in h.live && h.live[a].pool == NUM_POOLS
    requires a / 4096 in h.uses ==> forall r :: r in ranges && r != HomeOf(h, a) ==> r in ranges'
    ensures HeapInv(GiveRange(h, a), ranges')
  {
    var h' := GiveRange(h, a);
    assert AspectOk(h, ranges, InHand(a));
    forall x ensures AspectOk(h', ranges', x) {
      assert AspectOk(h, ranges, x);
      match x
      case InPool(j) =>
        if 0 <= j < NUM_POOLS {
          assert LiveIn(h', j) == LiveIn(h, j) && PagesOf(h', j) == PagesOf(h, j);
          PoolSame(h, h', j);
        }
      case InUse(q) =>
      case InHand(b) =>
    }
  }
}
