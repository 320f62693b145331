/** Whole runs of kmalloc and kfree among stacks, page faults and stack releases. */
module HeapRuns {
  import opened Vm
  import opened VmSystem
  import opened HeapSpec
  import Kmalloc

  datatype State = State(h: Heap, sys: Sys)

  datatype Call = Malloc(size: int) | Free(ptr: int) | Other(op: VmSystem.Op)

  ghost predicate StateInv(s: State, managed: set<int>) {
    HeapInv(s.h, s.sys.live) && SysInv(s.sys, managed) && Homes(s.h, s.sys.vm)
  }

  /** A request that does not halt and whose pages and frames suffice, a pointer that is
      live, or a step that is not the heap's. */
  ghost predicate Allowed(s: State, c: Call, low: int) {
    && |s.h.freed| == NUM_POOLS
    && match c
       case Malloc(size) =>
         && 0 <= size < 0x1_0000_0000 && !Kmalloc.Halts(s.sys, size, low)
         && (Kmalloc.PagesTaken(s.h, size) > 0 ==> Writable(s.sys, Kmalloc.PagesTaken(s.h, size), low))
       case Free(ptr) => ptr - HEADER in s.h.live
       case Other(op) =>
         Enabled(s.sys, op, low) && (op.Take? ==> op.area == StackArea) && (op.Drop? ==> op.range.0 < HEAP_START)
  }

  function After(s: State, c: Call): State
    requires |s.h.freed| == NUM_POOLS && (c.Free? ==> c.ptr - HEADER in s.h.live)
  {
    match c
    case Malloc(size) =>
      var n := Kmalloc.PagesTaken(s.h, size);
      State(Kmalloc.AfterMalloc(s.h, s.sys.heapPos, size).1, if n > 0 then TakeWritten(s.sys, n) else s.sys)
    case Free(ptr) =>
      var a := ptr - HEADER;
      var e := s.h.live[a];
      if 0 <= e.pool < NUM_POOLS then s.(h := GiveBlock(s.h, a))
      else State(GiveRange(s.h, a), Step(s.sys, Drop((a / 4096, (a + Alloced(e.size)) / 4096))))
    case Other(op) => s.(sys := Step(s.sys, op))
  }

  /** What kmalloc reserves becomes one live range, and its first page is present. */
  lemma Reserves(sys: Sys, n: nat, managed: set<int>, low: int)
    requires SysInv(sys, managed) && n > 0 && Writable(sys, n, low) && (low != 0 || !StartsLazy(sys, n))
    ensures SysInv(TakeWritten(sys, n), managed)
    ensures TakeWritten(sys, n).live == sys.live + {(sys.heapPos, sys.heapPos + n)}
    ensures TakeWritten(sys, n).vm.mapped.Keys == sys.vm.mapped.Keys + {sys.heapPos}
    ensures HeapBelow(sys.live, sys.heapPos) && HEAP_START <= sys.heapPos
  {
    WriteKeeps(sys, n, low, managed);
    Kmalloc.HeapEnds(sys, managed);
  }

  lemma MallocKeeps(s: State, size: int, managed: set<int>, low: int)
    requires StateInv(s, managed) && Allowed(s, Malloc(size), low)
    ensures StateInv(After(s, Malloc(size)), managed)
  {
    var i, n := PoolFor(size), Kmalloc.PagesTaken(s.h, size);
    AllocedExact(size);
    if n > 0 { Reserves(s.sys, n, managed, low); }
    var sys' := if n > 0 then TakeWritten(s.sys, n) else s.sys;
    if i == NUM_POOLS {
      TakeRangeKeeps(s.h, s.sys.live, s.sys.heapPos, size, sys'.live);
    } else {
      var h1 := Kmalloc.WithFree(s.h, i, s.sys.heapPos);
      if s.h.freed[i] == [] {
        CarveKeeps(s.h, s.sys.live, s.sys.heapPos, i, sys'.live);
        Kmalloc.CarvedNotEmpty(i, s.sys.heapPos);
      }
      TakeBlockKeeps(h1, sys'.live, i, size);
    }
  }

  lemma FreeKeeps(s: State, ptr: int, managed: set<int>, low: int)
    requires StateInv(s, managed) && Allowed(s, Free(ptr), low)
    ensures StateInv(After(s, Free(ptr)), managed)
  {
    var a := ptr - HEADER;
    var e := s.h.live[a];
    BlockInHome(s.h, s.sys.live, a);
    assert AspectOk(s.h, s.sys.live, InHand(a)) && AspectOk(s.h, s.sys.live, InUse(a / 4096));
    if e.pool < NUM_POOLS {
      GiveBlockKeeps(s.h, s.sys.live, a);
    } else {
      AllocedExact(e.size);
      Kmalloc.WholePages(a, Alloced(e.size), Alloced(e.size) / 4096);
      var r := (a / 4096, (a + Alloced(e.size)) / 4096);
      assert r == HomeOf(s.h, a);
      StepKeeps(s.sys, Drop(r), 0, managed);
      DropHomes(s.h, s.sys, r, managed);
      GiveRangeKeeps(s.h, s.sys.live, a, s.sys.live - {r});
    }
  }

  /** Steps that leave the heap's ranges alone leave the heap alone. */
  lemma OtherKeeps(s: State, op: VmSystem.Op, managed: set<int>, low: int)
    requires StateInv(s, managed) && Allowed(s, Other(op), low)
    ensures StateInv(After(s, Other(op)), managed)
  {
    StepKeeps(s.sys, op, low, managed);
    var live' := Step(s.sys, op).live;
    forall r | r in s.sys.live && HEAP_START <= r.0 ensures r in live' {}
    forall x ensures AspectOk(s.h, live', x) { assert AspectOk(s.h, s.sys.live, x); }
    OtherHomes(s, op, managed, low);
  }

  lemma OtherHomes(s: State, op: VmSystem.Op, managed: set<int>, low: int)
    requires StateInv(s, managed) && Allowed(s, Other(op), low)
    ensures Homes(s.h, Step(s.sys, op).vm)
  {
    match op
    case Take(area, n) => TakeMapped(s.sys, area, n, managed);
    case Drop(r) =>
      DropHomes(s.h, s.sys, r, managed);
      forall p | p in s.h.uses ensures p != r.0 { assert AspectOk(s.h, s.sys.live, InUse(p)); }
    case Touch(v) =>
  }

  ghost predicate Reaches(s: State, calls: seq<Call>, s': State, low: int)
    decreases calls
  {
    if calls == [] then s' == s
    else Allowed(s, calls[0], low) && Reaches(After(s, calls[0]), calls[1..], s', low)
  }

  lemma {:induction false} RunKeeps(s: State, calls: seq<Call>, s': State, managed: set<int>, low: int)
    requires StateInv(s, managed) && Reaches(s, calls, s', low)
    ensures StateInv(s', managed)
    decreases calls
  {
    if calls != [] {
      match calls[0] {
        case Malloc(size) => MallocKeeps(s, size, managed, low);
        case Free(ptr) => FreeKeeps(s, ptr, managed, low);
        case Other(op) => OtherKeeps(s, op, managed, low);
      }
      RunKeeps(After(s, calls[0]), calls[1..], s', managed, low);
    }
  }

  /** The pointer a request returns. */
  function Pointer(s: State, size: int): int
    requires |s.h.freed| == NUM_POOLS
  {
    Kmalloc.AfterMalloc(s.h, s.sys.heapPos, size).0
  }

  /** In every reachable state a request returns a pointer to the payload of a block that
      was not live, and releasing it at once leaves the live blocks as they were. */
  lemma MallocFree(s: State, calls: seq<Call>, s': State, size: int, managed: set<int>, low: int)
    requires StateInv(s, managed) && Reaches(s, calls, s', low) && Allowed(s', Malloc(size), low)
    ensures var a, s1 := Pointer(s', size) - HEADER, After(s', Malloc(size));
            && a !in s'.h.live && s1.h.live == s'.h.live[a := HeapSpec.Entry(size, PoolFor(size))]
            && Allowed(s1, Free(Pointer(s', size)), low) && After(s1, Free(Pointer(s', size))).h.live == s'.h.live
  {
    RunKeeps(s, calls, s', managed, low);
    Kmalloc.HeapEnds(s'.sys, managed);
    Kmalloc.MallocGives(s'.h, s'.sys.live, s'.sys.heapPos, size);
    MallocKeeps(s', size, managed, low);
    var a := Pointer(s', size) - HEADER;
    assert s'.h.live[a := HeapSpec.Entry(size, PoolFor(size))] - {a} == s'.h.live;
  }

  /** Releasing a pointer takes exactly its block off the live ones. */
  lemma FreeTakes(s: State, ptr: int)
    requires |s.h.freed| == NUM_POOLS && ptr - HEADER in s.h.live
    ensures After(s, Free(ptr)).h.live == s.h.live - {ptr - HEADER}
  {}

  /** In every reachable state each live block comes from the smallest pool that fits
      its request and has all its bytes on reserved pages; its payload fits unless its
      length overflowed. Its header's page, and so all of a pool block, is present and never
      faults. Touching any byte of it is accepted if and only if word 0 of memory carries a
      mark or the byte's 2 MB block has a table. */
  lemma BlocksSafe(s: State, calls: seq<Call>, s': State, managed: set<int>, low: int, a: int, x: int, mark: int)
    requires StateInv(s, managed) && Reaches(s, calls, s', low) && a in s'.h.live
    ensures s'.h.live[a].pool == PoolFor(s'.h.live[a].size)
    ensures HEADER + s'.h.live[a].size <= BlockLen(s'.h.live[a])
            <==> s'.h.live[a].size + HEADER <= 0x1_0000_0000 - 4096
    ensures a <= x < a + BlockLen(s'.h.live[a]) ==>
              && Reserved(s'.sys.vm, x / 4096) && a / 4096 in s'.sys.vm.mapped
              && (s'.h.live[a].pool < NUM_POOLS ==> x / 4096 in s'.sys.vm.mapped && Accepts(s'.sys.vm, x / 4096, mark))
              && (Accepts(s'.sys.vm, x / 4096, mark) <==> mark != 0 || !Lazy(s'.sys.vm, x / 4096 / 512))
  {
    RunKeeps(s, calls, s', managed, low);
    assert PartOk(s'.sys, managed, PagesPart) && PartOk(s'.sys, managed, TablesPart);
    assert AspectOk(s'.h, s'.sys.live, InHand(a));
    PayloadFits(s'.h, s'.sys.live, a);
    if a <= x < a + BlockLen(s'.h.live[a]) { BlockTouch(s'.h, s'.sys, a, x, mark); }
  }

  /** And it lies apart from every other live block. */
  lemma BlocksApart(s: State, calls: seq<Call>, s': State, managed: set<int>, low: int, a: int, b: int)
    requires StateInv(s, managed) && Reaches(s, calls, s', low)
    requires a in s'.h.live && b in s'.h.live && a < b
    ensures a + BlockLen(s'.h.live[a]) <= b
  {
    RunKeeps(s, calls, s', managed, low);
    assert PartOk(s'.sys, managed, RangesPart);
    BlocksDisjoint(s'.h, s'.sys.live, a, b);
  }

  /** And each pool's free and live blocks are all the blocks of its pages. */
  lemma PoolsBalance(s: State, calls: seq<Call>, s': State, managed: set<int>, low: int, i: nat)
    requires StateInv(s, managed) && Reaches(s, calls, s', low) && i < NUM_POOLS
    ensures i < |s'.h.freed| && |s'.h.freed[i]| + |LiveIn(s'.h, i)| == |PagesOf(s'.h, i)| * PerPage(i)
  {
    RunKeeps(s, calls, s', managed, low);
    assert AspectOk(s'.h, s'.sys.live, InPool(i));
  }
}
