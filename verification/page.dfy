/** The kernel's page tables in memory: reservation, release and the page-fault
    handler of Page.cpp. */
module Paging {
  import opened Memory
  import opened Frames
  import opened PageTree
  import opened Vm
  import opened VmSteps
  import opened VmRuns
  import VmSystem

  const KSTACK_START_ADDR: int := 0x100_0000_0000
  const KHEAP_START_ADDR: int := 0x200_0000_0000
  const KTHREAD_STACK_SIZE: int := 0x20_0000
  const L1_SIZE: int := 0x20_0000
  /** What the walk tells apart: 4 levels of 9 bits above a 12-bit offset. */
  const ADDR_LIMIT: int := 0x1_0000_0000_0000
  const WORD: int := 0x1_0000_0000_0000_0000
  /** Addresses below this belong to the identity map's level-4 slot. */
  const SLOT_SIZE: int := 0x80_0000_0000

  datatype Offsets = Offsets(l1: int, l2: int, l3: int, l4: int)

  /** A pointer to a table entry. */
  datatype Ref = Null | At(frame: int, index: int)

  datatype Lookup = Lookup(l1: Ref, l2: Ref, l3: Ref, l4: Ref)

  function AddrToPageOffset(addr: int): Offsets {
    Offsets(addr / 0x1000 % 512, addr / 0x20_0000 % 512,
            addr / 0x4000_0000 % 512, addr / 0x80_0000_0000 % 512)
  }

  /** The entries a walk for page v reaches. */
  function WalkOf(vm: Vm, v: int): Lookup {
    var b, c, d := v / 512, v / 0x4_0000, v / 0x800_0000;
    Lookup(if d in vm.slots && c in vm.l2s && b in vm.l1s then At(vm.l1s[b], v % 512) else Null,
           if d in vm.slots && c in vm.l2s then At(vm.l2s[c], b % 512) else Null,
           if d in vm.slots then At(vm.slots[d], c % 512) else Null,
           At(vm.root, d % 512))
  }

  /** Nesting of the page, block, region and slot numbers of an address. */
  lemma OffsetsNest(addr: int)
    requires 0 <= addr < ADDR_LIMIT
    ensures var v := addr / 4096; var b := v / 512; var c := b / 512; var d := c / 512;
            && AddrToPageOffset(addr) == Offsets(v % 512, b % 512, c % 512, d)
            && v / 0x4_0000 == c && v / 0x800_0000 == d && d < 512
  {
    var v := addr / 4096;
    var b := v / 512;
    var c := b / 512;
    assert b == addr / 0x20_0000;
    assert c == addr / 0x4000_0000 && c == v / 0x4_0000;
    assert c / 512 == addr / 0x80_0000_0000 && c / 512 == v / 0x800_0000;
  }

  /** The page that the walk for a 64-bit address looks up. */
  function PageOf(addr: int): int { addr % ADDR_LIMIT / 4096 }

  /** Bits 48 to 63 take no part in the walk. */
  lemma OffsetsWrap(addr: int)
    requires 0 <= addr
    ensures AddrToPageOffset(addr) == AddrToPageOffset(addr % ADDR_LIMIT)
    ensures PageOf(addr) / 0x800_0000 == addr / SLOT_SIZE % 512
  {
    var high, low := addr / ADDR_LIMIT, addr % ADDR_LIMIT;
    L1Wraps(high, low);
    L2Wraps(high, low);
    L3Wraps(high, low);
    L4Wraps(high, low);
    OffsetsNest(low);
  }

  lemma Mod512(k: int, q: int)
    ensures (512 * k + q) % 512 == q % 512
  {}

  lemma L1Wraps(high: int, low: int)
    ensures (0x1_0000_0000_0000 * high + low) / 0x1000 % 512 == low / 0x1000 % 512
  {
    assert (0x1_0000_0000_0000 * high + low) / 0x1000 == 0x10_0000_0000 * high + low / 0x1000;
    Mod512(0x800_0000 * high, low / 0x1000);
  }

  lemma L2Wraps(high: int, low: int)
    ensures (0x1_0000_0000_0000 * high + low) / 0x20_0000 % 512 == low / 0x20_0000 % 512
  {
    assert (0x1_0000_0000_0000 * high + low) / 0x20_0000 == 0x800_0000 * high + low / 0x20_0000;
    Mod512(0x4_0000 * high, low / 0x20_0000);
  }

  lemma L3Wraps(high: int, low: int)
    ensures (0x1_0000_0000_0000 * high + low) / 0x4000_0000 % 512 == low / 0x4000_0000 % 512
  {
    assert (0x1_0000_0000_0000 * high + low) / 0x4000_0000 == 0x4_0000 * high + low / 0x4000_0000;
    Mod512(512 * high, low / 0x4000_0000);
  }

  lemma L4Wraps(high: int, low: int)
    ensures (0x1_0000_0000_0000 * high + low) / 0x80_0000_0000 % 512 == low / 0x80_0000_0000 % 512
  {
    assert (0x1_0000_0000_0000 * high + low) / 0x80_0000_0000 == 512 * high + low / 0x80_0000_0000;
    Mod512(high, low / 0x80_0000_0000);
  }

  /** Memory at boot: an untouched frame pool and the three level-3 tables of the kernel
      image, the stack's and the heap's still zeroed. */
  ghost predicate BootMemory(words: Words, pool: Pool, idP3: int, stackP3: int, heapP3: int) {
    && pool.freed == [] && pool.unissued != [] && NoRepeat(pool.unissued)
    && (forall f :: f in pool.unissued ==> f > 0 && Backed(words, f))
    && 0 < idP3 && 0 < stackP3 && 0 < heapP3 && idP3 != stackP3 && idP3 != heapP3 && stackP3 != heapP3
    && idP3 !in pool.unissued && stackP3 !in pool.unissued && heapP3 !in pool.unissued
    && Backed(words, 0) && Backed(words, idP3) && Backed(words, stackP3) && Backed(words, heapP3)
    && words[stackP3] == Filled(ZERO) && words[heapP3] == Filled(ZERO)
  }

  /** The address space right after the page tables are set up. */
  function BootVm(pool: Pool, idP3: int, stackP3: int, heapP3: int): Vm {
    Vm(Take(pool), Next(pool), map[0 := idP3, 2 := stackP3, 4 := heapP3], map[], map[], {}, {}, map[])
  }

  ghost function BootRoles(pool: Pool, idP3: int, stackP3: int, heapP3: int): Roles {
    (map f | f in pool.unissued :: Unissued)
    [Next(pool) := Held(Root, 0)][idP3 := Held(Slot, 0)][stackP3 := Held(Slot, 2)][heapP3 := Held(Slot, 4)]
  }

  function RootTable(idP3: int, stackP3: int, heapP3: int): seq<Entry> {
    Filled(ZERO)[0 := Entry(true, 0, idP3)][2 := Entry(true, 0, stackP3)][4 := Entry(true, 0, heapP3)]
  }

  lemma BootIdle(words: Words, pool: Pool, idP3: int, stackP3: int, heapP3: int)
    requires BootMemory(words, pool, idP3, stackP3, heapP3)
    ensures var roles := BootRoles(pool, idP3, stackP3, heapP3);
            Idle(roles, Take(pool).unissued, Unissued) && Idle(roles, Take(pool).freed, Freed)
  {
    var s := pool.unissued;
    RestOnce(s);
    hide NoRepeat, Backed, Filled;
    var roles := BootRoles(pool, idP3, stackP3, heapP3);
    assert Next(pool) == s[0] && Take(pool).unissued == s[1..] && Take(pool).freed == [];
    forall f ensures f in s[1..] <==> f in roles && roles[f] == Unissued {}
  }

  /** Taking the first frame off leaves the others, each once. */
  lemma RestOnce(s: seq<int>)
    requires NoRepeat(s) && s != []
    ensures forall i, j :: 0 <= i < j < |s[1..]| ==> s[1..][i] != s[1..][j]
    ensures forall f :: f in s[1..] <==> f in s && f != s[0]
  {
    var rest := s[1..];
    assert s == [s[0]] + rest;
    forall i, j | 0 <= i < j < |rest| ensures rest[i] != rest[j] { assert s[i + 1] != s[j + 1]; }
    forall j | 0 <= j < |rest| ensures rest[j] != s[0] { assert s[0] != s[j + 1]; }
  }

  lemma BootAccounts(words: Words, pool: Pool, idP3: int, stackP3: int, heapP3: int)
    requires BootMemory(words, pool, idP3, stackP3, heapP3)
    ensures Accounts(BootVm(pool, idP3, stackP3, heapP3), BootRoles(pool, idP3, stackP3, heapP3))
    ensures AllBacked(words, BootRoles(pool, idP3, stackP3, heapP3))
  {
    var roles, vm := BootRoles(pool, idP3, stackP3, heapP3), BootVm(pool, idP3, stackP3, heapP3);
    hide Idle, NoRepeat, Filled;
    BootIdle(words, pool, idP3, stackP3, heapP3);
    assert pool.unissued[0] in pool.unissued;
    forall kind: Kind ensures OwnedAt(vm, roles, kind) {}
  }

  lemma BootKeeps(words: Words, pool: Pool, idP3: int, stackP3: int, heapP3: int)
    requires BootMemory(words, pool, idP3, stackP3, heapP3)
    ensures var words' := words[Next(pool) := Filled(ZERO)][Next(pool) := RootTable(idP3, stackP3, heapP3)];
            && Inv(words', BootVm(pool, idP3, stackP3, heapP3), BootRoles(pool, idP3, stackP3, heapP3))
            && Backed(words', 0)
  {
    BootAccounts(words, pool, idP3, stackP3, heapP3);
    assert Next(pool) in pool.unissued;
    var words' := words[Next(pool) := Filled(ZERO)][Next(pool) := RootTable(idP3, stackP3, heapP3)];
    var vm := BootVm(pool, idP3, stackP3, heapP3);
    forall kind: Kind | kind != Data ensures LevelAt(words', vm, kind) {
      forall n | n / 512 in Walked(vm, kind)
        ensures Agrees(EntryOf(words', Walked(vm, kind), n), Holders(vm, Lower(kind)), Marks(vm, kind), n) {}
    }
  }

  lemma BootStart(words: Words, pool: Pool, idP3: int, stackP3: int, heapP3: int)
    requires BootMemory(words, pool, idP3, stackP3, heapP3)
    ensures VmSystem.SysInv(BootSys(pool, idP3, stackP3, heapP3), BootRoles(pool, idP3, stackP3, heapP3).Keys)
    ensures idP3 in BootRoles(pool, idP3, stackP3, heapP3).Keys
  {
    var sys, managed := BootSys(pool, idP3, stackP3, heapP3), BootRoles(pool, idP3, stackP3, heapP3).Keys;
    BootAccounts(words, pool, idP3, stackP3, heapP3);
    forall part: VmSystem.Part ensures VmSystem.PartOk(sys, managed, part) {}
  }

  /** The address space at boot satisfies the system invariant, so every run from it does. */
  lemma BootInv(words: Words, pool: Pool, idP3: int, stackP3: int, heapP3: int, ops: seq<VmSystem.Op>, low: int)
    requires BootMemory(words, pool, idP3, stackP3, heapP3)
    requires VmSystem.Runnable(BootSys(pool, idP3, stackP3, heapP3), ops, low)
    ensures VmSystem.SysInv(VmSystem.Run(BootSys(pool, idP3, stackP3, heapP3), ops),
                            BootRoles(pool, idP3, stackP3, heapP3).Keys)
  {
    BootStart(words, pool, idP3, stackP3, heapP3);
    VmSystem.RunKeeps(BootSys(pool, idP3, stackP3, heapP3), ops, low, BootRoles(pool, idP3, stackP3, heapP3).Keys);
  }

  function BootSys(pool: Pool, idP3: int, stackP3: int, heapP3: int): VmSystem.Sys {
    VmSystem.Sys(BootVm(pool, idP3, stackP3, heapP3), VmSystem.STACK_START, VmSystem.HEAP_START, {})
  }

  /** The frames left, the tables below level 3, the pages and the root are always all the
      frames there were at the start. */
  lemma BootTotal(words: Words, pool: Pool, idP3: int, stackP3: int, heapP3: int, ops: seq<VmSystem.Op>, low: int)
    requires BootMemory(words, pool, idP3, stackP3, heapP3)
    requires VmSystem.Runnable(BootSys(pool, idP3, stackP3, heapP3), ops, low)
    ensures var vm := VmSystem.Run(BootSys(pool, idP3, stackP3, heapP3), ops).vm;
            Available(vm.pool) + TableCount(vm) + |vm.mapped| + 1 == |pool.unissued|
  {
    hide VmSystem.Runnable, VmSystem.Run, VmSystem.SysInv, BootRoles;
    var sys, managed := BootSys(pool, idP3, stackP3, heapP3), BootRoles(pool, idP3, stackP3, heapP3).Keys;
    BootStart(words, pool, idP3, stackP3, heapP3);
    VmSystem.RunRoles(sys, ops, low, managed, idP3);
  }

  /** The first stack after start-up: while word 0 of memory carries no mark, the fault
      that its first use raises is refused, although the page is reserved. */
  lemma FirstStackRefused(pool: Pool, idP3: int, stackP3: int, heapP3: int, v: int)
    requires pool.unissued != [] && Available(pool) >= 2
    requires VmSystem.STACK_START <= v < VmSystem.STACK_START + 512
    ensures var sys, take := BootSys(pool, idP3, stackP3, heapP3), VmSystem.Take(VmSystem.StackArea, 512);
            && VmSystem.Enabled(sys, take, 0) && VmSystem.Succeeds(sys, VmSystem.StackArea, 512)
            && Reserved(VmSystem.Step(sys, take).vm, v) && !Accepts(VmSystem.Step(sys, take).vm, v, 0)
  {
    hide Accepts, Reserved, AllocFrom;
    var sys, s := BootSys(pool, idP3, stackP3, heapP3), VmSystem.STACK_START;
    VmSystem.OneStack(sys.vm, s);
    AddCounts(sys.vm, s / 0x4_0000);
    VmSystem.FreshStackRefused(sys.vm, s, v);
  }

  /** When the loop of a reservation ends. */
  lemma AllocEnds(vm: Vm, pos: int, end: int)
    ensures pos >= end ==> AllocFrom(vm, pos, end) == (0, vm)
    ensures pos < end && pos / 0x800_0000 !in vm.slots ==> AllocFrom(vm, pos, end) == (1, vm)
  {}

  /** Byte steps of the loops, counted in pages. */
  lemma PageSteps(pos: int, end: int)
    requires pos % 4096 == 0 && end % 4096 == 0
    ensures (pos + 4096) % 4096 == 0 && (pos + 4096) / 4096 == pos / 4096 + 1
    ensures (pos + L1_SIZE) % 4096 == 0 && (pos + L1_SIZE) / 4096 == pos / 4096 + 512
    ensures end - pos >= L1_SIZE <==> end / 4096 - pos / 4096 >= 512
    ensures pos < end <==> pos / 4096 < end / 4096
  {
  }

  lemma RangeSteps(start: int, size: int)
    requires start % 4096 == 0 && size >= 0
    ensures (start + size) % 4096 == 0 <==> size % 4096 == 0
    ensures size % 4096 == 0 ==> (start + size) / 4096 == start / 4096 + size / 4096
  {
  }

  /** What the reservation of size bytes from start returns and leaves. */
  function ReserveResult(sys: VmSystem.Sys, start: int, size: int): (int, Vm) {
    if start % 4096 != 0 || (start + size) % 4096 != 0 then (1, sys.vm)
    else AllocFrom(sys.vm, start / 4096, (start + size) / 4096)
  }

  lemma StackState(sys: VmSystem.Sys, start: int, sys': VmSystem.Sys)
    requires start % 4096 == 0 && start / 4096 == sys.stackPos
    requires var (res, vm') := ReserveResult(sys, start, KTHREAD_STACK_SIZE);
             && sys'.vm == vm' && sys'.heapPos == sys.heapPos
             && sys'.stackPos == (if res == 0 then (start + KTHREAD_STACK_SIZE) / 4096 else sys.stackPos)
             && sys'.live == sys.live + (if res == 0 then {(start / 4096, (start + KTHREAD_STACK_SIZE) / 4096)} else {})
    ensures ReserveResult(sys, start, KTHREAD_STACK_SIZE).0 == 0 <==> VmSystem.Succeeds(sys, VmSystem.StackArea, 512)
    ensures sys' == VmSystem.Step(sys, VmSystem.Take(VmSystem.StackArea, 512))
  {
    RangeSteps(start, KTHREAD_STACK_SIZE);
    VmSystem.StepTake(sys, VmSystem.StackArea, 512, sys');
  }

  lemma HeapState(sys: VmSystem.Sys, start: int, size: int, sys': VmSystem.Sys)
    requires start % 4096 == 0 && size >= 0 && start / 4096 == sys.heapPos
    requires var (res, vm') := ReserveResult(sys, start, size);
             && sys'.vm == vm' && sys'.stackPos == sys.stackPos
             && sys'.heapPos == (if res == 0 then (start + size) / 4096 else sys.heapPos)
             && sys'.live == (if res == 0 then sys.live + {(start / 4096, (start + size) / 4096)} else sys.live)
    ensures ReserveResult(sys, start, size).0 == 0 <==>
              size % 4096 == 0 && VmSystem.Succeeds(sys, VmSystem.HeapArea, size / 4096)
    ensures sys' == if size % 4096 != 0 then sys
                    else VmSystem.Step(sys, VmSystem.Take(VmSystem.HeapArea, size / 4096))
  {
    RangeSteps(start, size);
    if size % 4096 == 0 { VmSystem.StepTake(sys, VmSystem.HeapArea, size / 4096, sys'); }
  }

  /** A table or mark exists only below the tables that lead to it. */
  lemma BelowNeedsAbove(words: Words, vm: Vm, v: int)
    requires Represents(words, vm)
    ensures v / 512 in vm.blocks || v / 512 in vm.l1s ==> v / 512 / 512 in vm.l2s
    ensures v / 512 / 512 in vm.l2s ==> v / 512 / 512 / 512 in Upper(vm)
  {
    assert LevelAt(words, vm, L2) && LevelAt(words, vm, Slot);
  }

  /** Neither the frame just taken nor a frame in use is on the free list. */
  lemma NotFreed(vm: Vm, roles: Roles, g: int)
    requires Accounts(vm, roles) && Available(vm.pool) > 0
    requires g == Next(vm.pool) || (g in roles && roles[g].Held?)
    ensures g !in Take(vm.pool).freed
  {
    var roles' := roles[Next(vm.pool) := Held(Data, 0)];
    TakeKeeps(vm, roles, Data, 0);
    NextIsIdle(vm, roles);
    assert g in roles' && roles'[g].Held?;
    assert g in Take(vm.pool).freed <==> g in roles' && roles'[g] == Freed;
  }

  /** A frame in use is not on the free list. */
  lemma InUse(vm: Vm, roles: Roles, g: int)
    requires Accounts(vm, roles) && g in roles && roles[g].Held?
    ensures g !in vm.pool.freed
  {
    assert g in vm.pool.freed <==> g in roles && roles[g] == Freed;
  }

  /** Every page that stays mapped keeps its frame and all of the frame's words. */
  ghost predicate DataKept(words: Words, mapped: Tables, words': Words, mapped': Tables) {
    forall v | v in mapped && v in mapped' ::
      mapped'[v] == mapped[v] && mapped[v] in words && mapped[v] in words' && words'[mapped[v]] == words[mapped[v]]
  }

  /** A frame that is not behind a page is not one of theirs. */
  lemma DataApart(words: Words, vm: Vm, roles: Roles, g: int)
    requires Inv(words, vm, roles) && (g !in roles || !roles[g].Held? || roles[g].kind != Data)
    ensures forall v | v in vm.mapped :: vm.mapped[v] != g && vm.mapped[v] in words
  {
    assert OwnedAt(vm, roles, Data);
    forall v | v in vm.mapped ensures vm.mapped[v] != g && Backed(words, vm.mapped[v]) {
      assert v in Holders(vm, Data) && vm.mapped[v] in roles;
    }
  }

  /** Two frames behind two pages differ. */
  lemma DataOnce(words: Words, vm: Vm, roles: Roles, v: int)
    requires Inv(words, vm, roles) && v in vm.mapped
    ensures forall w | w in vm.mapped && w != v :: vm.mapped[w] != vm.mapped[v]
  {
    assert OwnedAt(vm, roles, Data);
    assert v in Holders(vm, Data);
    forall w | w in vm.mapped && w != v ensures vm.mapped[w] != vm.mapped[v] { assert w in Holders(vm, Data); }
  }

  /** Nothing happened. */
  lemma DataSame(words: Words, vm: Vm, roles: Roles)
    requires Inv(words, vm, roles)
    ensures DataKept(words, vm.mapped, words, vm.mapped)
  {
    assert OwnedAt(vm, roles, Data);
    forall v | v in vm.mapped ensures Backed(words, vm.mapped[v]) {
      assert v in Holders(vm, Data) && vm.mapped[v] in roles;
    }
  }

  lemma DataTwice(words: Words, mapped: Tables, words1: Words, mapped1: Tables, words2: Words, mapped2: Tables)
    requires DataKept(words, mapped, words1, mapped1) && DataKept(words1, mapped1, words2, mapped2)
    requires mapped.Keys * mapped2.Keys <= mapped1.Keys
    ensures DataKept(words, mapped, words2, mapped2)
  {
    forall v | v in mapped && v in mapped2
      ensures mapped2[v] == mapped[v] && mapped[v] in words && mapped[v] in words2
              && words2[mapped[v]] == words[mapped[v]]
    {
      assert v in mapped.Keys * mapped2.Keys;
    }
  }

  datatype Piece = Tables | Positions

  class Page {
    const ram: Ram
    const frames: FrameAllocator
    var tableLoc: int
    var kernStackPos: int
    var kernHeapPos: int
    ghost var vm: Vm
    ghost var roles: Roles
    ghost var live: set<VmSystem.Range>
    ghost var managed: set<int>     // every frame with a role
    ghost var low: int              // the mark bits of word 0, which NULL points at

    /** The allocator, the tables in memory and the recorded address space agree. */
    ghost predicate Ok()
      reads this, frames, ram
    {
      && frames.ram == ram && frames.Valid()
      && vm.pool == frames.pool && tableLoc == 4096 * vm.root
      && Inv(ram.words, vm, roles)
      && Backed(ram.words, 0) && ram.words[0][0].avl == low
    }

    /** Positions in pages and the ranges handed out, for the calls below. */
    ghost function State(): VmSystem.Sys
      reads this
    {
      VmSystem.Sys(vm, kernStackPos / 4096, kernHeapPos / 4096, live)
    }

    /** Positions are whole pages, and the system invariant holds. */
    ghost predicate PositionsOk()
      reads this
    {
      kernStackPos % 4096 == 0 && kernHeapPos % 4096 == 0 && VmSystem.SysInv(State(), managed)
    }

    ghost predicate PieceOk(piece: Piece)
      reads this, frames, ram
    {
      match piece
      case Tables => Ok()
      case Positions => PositionsOk()
    }

    ghost predicate Valid()
      reads this, frames, ram
    {
      forall piece: Piece :: PieceOk(piece)
    }

    constructor (ram: Ram, frames: FrameAllocator, idP3: int, stackP3: int, heapP3: int)
      requires frames.ram == ram && frames.Valid()
      requires BootMemory(ram.words, frames.pool, idP3, stackP3, heapP3)
      modifies frames, ram
      ensures Valid() && this.ram == ram && this.frames == frames
      ensures vm == BootVm(old(frames.pool), idP3, stackP3, heapP3)
      ensures State() == BootSys(old(frames.pool), idP3, stackP3, heapP3)
      ensures low == old(ram.words)[0][0].avl
    {
      this.ram, this.frames, low := ram, frames, ram.words[0][0].avl;
      kernStackPos, kernHeapPos, live := KSTACK_START_ADDR, KHEAP_START_ADDR, {};
      managed := BootRoles(frames.pool, idP3, stackP3, heapP3).Keys;
      new;
      BootInv(ram.words, frames.pool, idP3, stackP3, heapP3, [], 0);
      Boot(idP3, stackP3, heapP3);
      assert PieceOk(Tables) && PieceOk(Positions);
    }

    /** The body of Page::Page(). */
    method Boot(idP3: int, stackP3: int, heapP3: int)
      requires frames.ram == ram && frames.Valid()
      requires BootMemory(ram.words, frames.pool, idP3, stackP3, heapP3) && ram.words[0][0].avl == low
      modifies this`tableLoc, this`vm, this`roles, frames, ram
      ensures Ok() && vm == BootVm(old(frames.pool), idP3, stackP3, heapP3)
    {
      ghost var pool, words := frames.pool, ram.words;
      assert pool.unissued[0] in pool.unissued;
      tableLoc := frames.AllocZeroed();
      FillRoot(tableLoc / 4096, idP3, stackP3, heapP3);
      assert ram.words == words[Next(pool) := Filled(ZERO)][Next(pool) := RootTable(idP3, stackP3, heapP3)];
      BootKeeps(words, pool, idP3, stackP3, heapP3);
      Describe(BootVm(pool, idP3, stackP3, heapP3), BootRoles(pool, idP3, stackP3, heapP3));
    }

    /** Records the address space that memory now holds. */
    ghost method Describe(vm': Vm, roles': Roles)
      requires frames.ram == ram && frames.Valid()
      requires vm'.pool == frames.pool && tableLoc == 4096 * vm'.root
      requires Inv(ram.words, vm', roles') && Backed(ram.words, 0) && ram.words[0][0].avl == low
      modifies this`vm, this`roles
      ensures Ok() && vm == vm' && roles == roles'
    {
      vm, roles := vm', roles';
    }

    /** Fills the three slots of a zeroed level-4 table. */
    method FillRoot(root: int, idP3: int, stackP3: int, heapP3: int)
      requires frames.ram == ram && frames.Valid() && root !in frames.pool.freed
      requires root in ram.words && ram.words[root] == Filled(ZERO)
      modifies ram
      ensures frames.Valid()
      ensures ram.words == old(ram.words)[root := RootTable(idP3, stackP3, heapP3)]
    {
      SetEntry(At(root, 0), Entry(true, 0, idP3));
      SetEntry(At(root, AddrToPageOffset(KSTACK_START_ADDR).l4), Entry(true, 0, stackP3));
      SetEntry(At(root, AddrToPageOffset(KHEAP_START_ADDR).l4), Entry(true, 0, heapP3));
      assert ram.words[root] == RootTable(idP3, stackP3, heapP3);
    }

    /** Writes one word of a frame that is not on the free list. */
    method SetEntry(r: Ref, e: Entry)
      requires frames.ram == ram && frames.Valid()
      requires r.At? && Backed(ram.words, r.frame) && 0 <= r.index < 512 && r.frame !in frames.pool.freed
      modifies ram
      ensures frames.Valid()
      ensures ram.words == Store(old(ram.words), r.frame, r.index, e)
    {
      ChainFrame(ram.words, Store(ram.words, r.frame, r.index, e), frames.freeTail / 4096, frames.pool.freed);
      ram.Write(r.frame, r.index, e);
    }

    method WalkPageTable(ptoff: Offsets, ghost addr: int) returns (look: Lookup)
      requires Ok() && SLOT_SIZE <= addr < ADDR_LIMIT && ptoff == AddrToPageOffset(addr)
      ensures look == WalkOf(vm, addr / 4096)
    {
      ghost var v := addr / 4096;
      ghost var b, c, d := v / 512, v / 512 / 512, v / 512 / 512 / 512;
      OffsetsNest(addr);
      var l4 := At(tableLoc / 4096, ptoff.l4);
      TableOf(ram.words, vm, roles, Root, d);
      var e4 := ram.words[l4.frame][l4.index];
      if !e4.p {
        return Lookup(Null, Null, Null, l4);
      }
      var l3 := At(e4.base, ptoff.l3);
      TableOf(ram.words, vm, roles, Slot, c);
      var e3 := ram.words[l3.frame][l3.index];
      if !e3.p {
        return Lookup(Null, Null, l3, l4);
      }
      var l2 := At(e3.base, ptoff.l2);
      TableOf(ram.words, vm, roles, L2, b);
      var e2 := ram.words[l2.frame][l2.index];
      if !e2.p {
        return Lookup(Null, l2, l3, l4);
      }
      return Lookup(At(e2.base, ptoff.l1), l2, l3, l4);
    }

    /** What the entries a walk reaches say about page v. */
    lemma WalkEntries(v: int, look: Lookup)
      requires Ok() && look == WalkOf(vm, v) && 0 < v / 0x800_0000 < 512
      ensures look.l4.frame in ram.words && 0 <= look.l4.index < |ram.words[look.l4.frame]|
      ensures ram.words[look.l4.frame][look.l4.index].p <==> v / 0x800_0000 in vm.slots
      ensures look.l3.At? ==>
                && look.l3.frame in ram.words && 0 <= look.l3.index < |ram.words[look.l3.frame]|
                && (ram.words[look.l3.frame][look.l3.index].p <==> v / 0x4_0000 in vm.l2s)
      ensures look.l2.At? ==>
                && look.l2.frame in ram.words && 0 <= look.l2.index < |ram.words[look.l2.frame]|
                && (ram.words[look.l2.frame][look.l2.index].p <==> v / 512 in vm.l1s)
                && (ram.words[look.l2.frame][look.l2.index].avl != 0 <==> v / 512 in vm.blocks)
      ensures look.l1.At? ==>
                && look.l1.frame in ram.words && 0 <= look.l1.index < |ram.words[look.l1.frame]|
                && (ram.words[look.l1.frame][look.l1.index].avl != 0 <==> v in vm.pages)
    {
      TableOf(ram.words, vm, roles, Root, v / 0x800_0000);
      if look.l3.At? { TableOf(ram.words, vm, roles, Slot, v / 0x4_0000); }
      if look.l2.At? { TableOf(ram.words, vm, roles, L2, v / 512); }
      if look.l1.At? { TableOf(ram.words, vm, roles, L1, v); }
    }

    /** Links a zeroed level-2 table for region c unless there is one. */
    method EnsureL2(l3: Ref, ghost c: int)
      requires Ok() && c / 512 in Upper(vm) && l3 == At(Upper(vm)[c / 512], c % 512)
      requires c !in vm.l2s ==> Available(vm.pool) > 0
      modifies this`vm, this`roles, frames, ram
      ensures DataKept(old(ram.words), old(vm).mapped, ram.words, vm.mapped)
      ensures Ok() && vm == WithL2(old(vm), c)
    {
      ghost var f := Next(vm.pool);
      TableOf(ram.words, vm, roles, Slot, c);
      DataApart(ram.words, vm, roles, l3.frame);
      var e := ram.words[l3.frame][l3.index];
      if e.p {
        return;
      }
      NextIsIdle(vm, roles);
      NotFreed(vm, roles, l3.frame);
      NotFreed(vm, roles, f);
      DataApart(ram.words, vm, roles, f);
      AddL2Keeps(ram.words, vm, roles, c, e.(base := f, p := true));
      var frame := frames.AllocZeroed();
      assert frame / 4096 == f;
      SetEntry(l3, e.(base := frame / 4096, p := true));
      Describe(AddL2(vm, c), Granted(vm, roles, L2, c));
    }

    /** Links a zeroed level-1 table for block b, which has none. */
    method LinkZeroedL1(l2: Ref, ghost b: int)
      requires Ok() && b / 512 in vm.l2s && l2 == At(vm.l2s[b / 512], b % 512)
      requires b !in vm.l1s && Available(vm.pool) > 0
      modifies this`vm, this`roles, frames, ram
      ensures DataKept(old(ram.words), old(vm).mapped, ram.words, vm.mapped)
      ensures Ok() && vm == AddL1(old(vm), b)
    {
      ghost var f := Next(vm.pool);
      TableOf(ram.words, vm, roles, L2, b);
      NextIsIdle(vm, roles);
      NotFreed(vm, roles, l2.frame);
      NotFreed(vm, roles, f);
      DataApart(ram.words, vm, roles, l2.frame);
      DataApart(ram.words, vm, roles, f);
      AddL1Keeps(ram.words, vm, roles, b, Entry(true, 1, f));
      var frame := frames.AllocZeroed();
      assert frame / 4096 == f;
      SetEntry(l2, Entry(true, 1, frame / 4096));
      Describe(AddL1(vm, b), Granted(vm, roles, L1, b));
    }

    /** Sets or clears the mark of block b, which has no level-1 table. */
    method SetBlockMark(l2: Ref, ghost b: int, mark: int)
      requires Ok() && b / 512 in vm.l2s && l2 == At(vm.l2s[b / 512], b % 512)
      requires b !in vm.l1s
      modifies this`vm, this`roles, ram
      ensures DataKept(old(ram.words), old(vm).mapped, ram.words, vm.mapped)
      ensures Ok() && vm == if mark != 0 then MarkBlock(old(vm), b) else UnmarkBlock(old(vm), b)
    {
      TableOf(ram.words, vm, roles, L2, b);
      var e := ram.words[l2.frame][l2.index].(avl := mark);
      MarkBlockKeeps(ram.words, vm, roles, b, e);
      InUse(vm, roles, l2.frame);
      DataApart(ram.words, vm, roles, l2.frame);
      SetEntry(l2, e);
      Describe(if mark != 0 then MarkBlock(vm, b) else UnmarkBlock(vm, b), roles);
    }

    /** Marks page v in its block's table. */
    method SetPageMark(l1: Ref, ghost v: int)
      requires Ok() && v / 512 in vm.l1s && l1 == At(vm.l1s[v / 512], v % 512)
      modifies this`vm, this`roles, ram
      ensures DataKept(old(ram.words), old(vm).mapped, ram.words, vm.mapped)
      ensures Ok() && vm == MarkPage(old(vm), v)
    {
      TableOf(ram.words, vm, roles, L1, v);
      var e := ram.words[l1.frame][l1.index].(avl := 1);
      MarkPageKeeps(ram.words, vm, roles, v, e, MarkPage(vm, v));
      InUse(vm, roles, l1.frame);
      DataApart(ram.words, vm, roles, l1.frame);
      SetEntry(l1, e);
      Describe(MarkPage(vm, v), roles);
    }

    /** Clears the entry of page v, giving back its frame if it has one. */
    method ClearEntry(l1: Ref, ghost v: int)
      requires Ok() && v / 512 in vm.l1s && l1 == At(vm.l1s[v / 512], v % 512)
      modifies this`vm, this`roles, frames, ram
      ensures DataKept(old(ram.words), old(vm).mapped, ram.words, vm.mapped)
      ensures Ok() && vm == ClearPage(old(vm), v)
    {
      TableOf(ram.words, vm, roles, L1, v);
      InUse(vm, roles, l1.frame);
      DataApart(ram.words, vm, roles, l1.frame);
      if v in vm.mapped { DataOnce(ram.words, vm, roles, v); }
      var e := ram.words[l1.frame][l1.index];
      ghost var vm', roles' := ClearPage(vm, v), Returned(vm, roles, v);
      if e.p {
        ReleaseKeeps(ram.words, vm, roles, v, e.(p := false, avl := 0), Entry(false, 0, frames.freeTail / 4096));
        frames.Free(4096 * e.base);
      } else {
        assert vm.mapped - {v} == vm.mapped;
        MarkPageKeeps(ram.words, vm, roles, v, e.(p := false, avl := 0), vm');
      }
      SetEntry(l1, e.(p := false, avl := 0));
      Describe(vm', roles');
    }

    /** Marks all 512 entries of a zeroed table that is not on the free list. */
    method MarkTable(f: int)
      requires frames.ram == ram && frames.Valid() && f !in frames.pool.freed
      requires f in ram.words && ram.words[f] == Filled(ZERO)
      modifies ram
      ensures frames.Valid() && ram.words == old(ram.words)[f := Filled(Entry(false, 1, 0))]
    {
      var i := 0;
      while i < 512
        invariant 0 <= i <= 512 && frames.Valid() && Backed(ram.words, f)
        invariant ram.words == old(ram.words)[f := ram.words[f]]
        invariant forall k :: 0 <= k < 512 ==> ram.words[f][k] == Entry(false, if k < i then 1 else 0, 0)
      {
        SetEntry(At(f, i), ram.words[f][i].(avl := 1));
        i := i + 1;
      }
      assert ram.words[f] == Filled(Entry(false, 1, 0));
    }

    /** Allocates a zeroed frame, links it from entry l2 and marks its 512 entries. */
    method LinkMarkedTable(l2: Ref, e: Entry)
      requires frames.ram == ram && frames.Valid()
      requires l2.At? && Backed(ram.words, l2.frame) && 0 <= l2.index < 512 && l2.frame !in Take(frames.pool).freed
      requires var f := Next(frames.pool);
               f > 0 && f != l2.frame && Backed(ram.words, f) && f !in Take(frames.pool).freed
      modifies frames, ram
      ensures frames.Valid() && frames.pool == Take(old(frames.pool))
      ensures var f := Next(old(frames.pool));
              ram.words == Store(old(ram.words)[f := Filled(Entry(false, 1, 0))], l2.frame, l2.index,
                                 e.(p := true, base := f))
    {
      var frame := frames.AllocZeroed();
      SetEntry(l2, e.(p := true, base := frame / 4096));
      MarkTable(frame / 4096);
    }

    /** Builds the level-1 table of a lazily reserved block. */
    method ExpandBlock(l2: Ref, ghost b: int)
      requires Ok() && b / 512 in vm.l2s && l2 == At(vm.l2s[b / 512], b % 512)
      requires Lazy(vm, b) && Available(vm.pool) > 0
      modifies this`vm, this`roles, frames, ram
      ensures DataKept(old(ram.words), old(vm).mapped, ram.words, vm.mapped)
      ensures Ok() && vm == Expand(old(vm), b)
    {
      ghost var f := Next(vm.pool);
      TableOf(ram.words, vm, roles, L2, b);
      NextIsIdle(vm, roles);
      NotFreed(vm, roles, f);
      NotFreed(vm, roles, l2.frame);
      DataApart(ram.words, vm, roles, l2.frame);
      DataApart(ram.words, vm, roles, f);
      var e := ram.words[l2.frame][l2.index];
      ExpandKeeps(ram.words, vm, roles, b, Entry(false, 1, 0), e.(p := true, base := f));
      LinkMarkedTable(l2, e);
      Describe(Expand(vm, b), Granted(vm, roles, L1, b));
    }

    /** Backs page v with the next frame. */
    method BackPage(l1: Ref, ghost v: int)
      requires Ok() && v / 512 in vm.l1s && l1 == At(vm.l1s[v / 512], v % 512)
      requires v in vm.pages && v !in vm.mapped && Available(vm.pool) > 0
      modifies this`vm, this`roles, frames, ram
      ensures DataKept(old(ram.words), old(vm).mapped, ram.words, vm.mapped)
      ensures Ok() && vm == Back(old(vm), v)
    {
      ghost var f := Next(vm.pool);
      TableOf(ram.words, vm, roles, L1, v);
      NotFreed(vm, roles, l1.frame);
      DataApart(ram.words, vm, roles, l1.frame);
      var e := ram.words[l1.frame][l1.index];
      BackKeeps(ram.words, vm, roles, v, e.(p := true, base := f));
      var frame := frames.Alloc();
      assert frame / 4096 == f;
      SetEntry(l1, e.(p := true, base := frame / 4096));
      Describe(Back(vm, v), Granted(vm, roles, Data, v));
    }

    // ------------------------------------------------------------------ reservation

    /** Reserves the pages of [start, end). An unaligned range, or a page whose level-4
        slot has no table, ends the call with status 1. */
    method AllocVirt4kChunk(start: int, end: int) returns (res: int)
      requires Ok() && SLOT_SIZE <= start && end <= ADDR_LIMIT
      requires start % 4096 == 0 && end % 4096 == 0 ==>
                 Available(vm.pool) >= Demand(vm, start / 4096, end / 4096)
      modifies this`vm, this`roles, frames, ram
      ensures DataKept(old(ram.words), old(vm).mapped, ram.words, vm.mapped)
      ensures Ok()
      ensures (res, vm) == if start % 4096 != 0 || end % 4096 != 0 then (1, old(vm))
                           else AllocFrom(old(vm), start / 4096, end / 4096)
    {
      DataSame(ram.words, vm, roles);
      hide DataKept, AllocFrom, MarkStep, WithL2, Demand, Inv, FrameAllocator.Valid;
      if start % 4096 != 0 || end % 4096 != 0 {
        return 1;
      }
      var pos := start;
      while pos < end
        invariant Ok() && SLOT_SIZE <= pos && pos % 4096 == 0
        invariant vm.mapped == old(vm).mapped && DataKept(old(ram.words), old(vm).mapped, ram.words, vm.mapped)
        invariant AllocFrom(vm, pos / 4096, end / 4096) == AllocFrom(old(vm), start / 4096, end / 4096)
        invariant Available(vm.pool) >= Demand(vm, pos / 4096, end / 4096)
        decreases end - pos
      {
        ghost var words1 := ram.words;
        AllocEnds(vm, pos / 4096, end / 4096);
        PageSteps(pos, end);
        var ok, next := AllocTurn(pos, end);
        DataTwice(old(ram.words), old(vm).mapped, words1, old(vm).mapped, ram.words, vm.mapped);
        if !ok {
          return 1;
        }
        pos := next;
      }
      AllocEnds(vm, pos / 4096, end / 4096);
      return 0;
    }

    /** One turn of the loop: next is where the rest of the range starts. */
    method AllocTurn(pos: int, end: int) returns (ok: bool, next: int)
      requires Ok() && SLOT_SIZE <= pos < end <= ADDR_LIMIT && pos % 4096 == 0 && end % 4096 == 0
      requires Available(vm.pool) >= Demand(vm, pos / 4096, end / 4096)
      modifies this`vm, this`roles, frames, ram
      ensures DataKept(old(ram.words), old(vm).mapped, ram.words, vm.mapped)
      ensures Ok() && vm.mapped == old(vm).mapped && ok == (pos / 4096 / 0x800_0000 in old(vm).slots)
      ensures !ok ==> vm == old(vm)
      ensures ok ==> next > pos && next % 4096 == 0 && Available(vm.pool) >= Demand(vm, next / 4096, end / 4096)
      ensures ok ==> AllocFrom(vm, next / 4096, end / 4096) == AllocFrom(old(vm), pos / 4096, end / 4096)
    {
      hide DataKept, AllocFrom, MarkStep, WithL2, Spanned, Demand, Inv, FrameAllocator.Valid;
      ghost var v := pos / 4096;
      PageSteps(pos, end);
      if v / 0x800_0000 in vm.slots { DemandStep(vm, v, end / 4096); }
      var whole: bool;
      ok, whole := AllocAt(pos, end);
      next := if whole then pos + L1_SIZE else pos + 4096;
    }

    /** The body of a turn: ok unless the slot has no table, whole when the block was
        reserved by its level-2 entry. */
    method AllocAt(pos: int, end: int) returns (ok: bool, whole: bool)
      requires Ok() && SLOT_SIZE <= pos < end <= ADDR_LIMIT && pos % 4096 == 0 && end % 4096 == 0
      requires Available(vm.pool) >= Demand(vm, pos / 4096, end / 4096)
      modifies this`vm, this`roles, frames, ram
      ensures DataKept(old(ram.words), old(vm).mapped, ram.words, vm.mapped)
      ensures Ok()
      ensures ok == (pos / 4096 / 0x800_0000 in old(vm).slots) && vm.mapped == old(vm).mapped
      ensures !ok ==> vm == old(vm)
      ensures ok ==> var vm1 := WithL2(old(vm), pos / 4096 / 0x4_0000);
                     whole == Spanned(vm1, pos / 4096, end / 4096) && vm == MarkStep(vm1, pos / 4096, end / 4096)
    {
      ghost var v := pos / 4096;
      var ptoff := AddrToPageOffset(pos);
      OffsetsNest(pos);
      var look := WalkPageTable(ptoff, pos);
      WalkEntries(v, look);
      DataSame(ram.words, vm, roles);
      hide DataKept;
      if !ram.words[look.l4.frame][look.l4.index].p {
        return false, false;
      }
      DemandStep(vm, v, end / 4096);
      EnsureL2(look.l3, v / 0x4_0000);
      ghost var words1 := ram.words;
      whole := MarkAt(pos, end);
      DataTwice(old(ram.words), old(vm).mapped, words1, old(vm).mapped, ram.words, vm.mapped);
      ok := true;
    }

    /** The second half of a turn, below a level-2 table. */
    method MarkAt(pos: int, end: int) returns (whole: bool)
      requires Ok() && SLOT_SIZE <= pos < end <= ADDR_LIMIT && pos % 4096 == 0 && end % 4096 == 0
      requires pos / 4096 / 0x800_0000 in vm.slots && pos / 4096 / 0x4_0000 in vm.l2s
      requires !Spanned(vm, pos / 4096, end / 4096) && pos / 4096 / 512 !in vm.l1s ==> Available(vm.pool) > 0
      modifies this`vm, this`roles, frames, ram
      ensures DataKept(old(ram.words), old(vm).mapped, ram.words, vm.mapped)
      ensures Ok()
      ensures whole == Spanned(old(vm), pos / 4096, end / 4096) && vm == MarkStep(old(vm), pos / 4096, end / 4096)
    {
      ghost var v := pos / 4096;
      var ptoff := AddrToPageOffset(pos);
      OffsetsNest(pos);
      PageSteps(pos, end);
      var look := WalkPageTable(ptoff, pos);
      WalkEntries(v, look);
      DataSame(ram.words, vm, roles);
      hide DataKept;
      if !ram.words[look.l2.frame][look.l2.index].p {
        if end - pos >= L1_SIZE && ptoff.l1 == 0 {
          SetBlockMark(look.l2, v / 512, 1);
          return true;
        }
        LinkZeroedL1(look.l2, v / 512);
        look := WalkPageTable(ptoff, pos);
      }
      ghost var words1 := ram.words;
      SetPageMark(look.l1, v);
      DataTwice(old(ram.words), old(vm).mapped, words1, old(vm).mapped, ram.words, vm.mapped);
      return false;
    }

    // ---------------------------------------------------------------------- release

    /** Releases the pages of [start, end). */
    method FreeVirt4kChunk(start: int, end: int) returns (res: int)
      requires Ok() && SLOT_SIZE <= start && end <= ADDR_LIMIT
      modifies this`vm, this`roles, frames, ram
      ensures DataKept(old(ram.words), old(vm).mapped, ram.words, vm.mapped)
      ensures Ok()
      ensures (res, vm) == if start % 4096 != 0 || end % 4096 != 0 then (1, old(vm))
                           else FreeFrom(old(vm), start / 4096, end / 4096)
    {
      DataSame(ram.words, vm, roles);
      hide DataKept;
      if start % 4096 != 0 || end % 4096 != 0 {
        return 1;
      }
      var pos := start;
      while pos < end
        invariant Ok() && SLOT_SIZE <= pos && pos % 4096 == 0
        invariant vm.mapped.Keys <= old(vm).mapped.Keys
        invariant DataKept(old(ram.words), old(vm).mapped, ram.words, vm.mapped)
        invariant FreeFrom(vm, pos / 4096, end / 4096) == FreeFrom(old(vm), start / 4096, end / 4096)
        decreases end - pos
      {
        PageSteps(pos, end);
        ghost var words1, mapped1 := ram.words, vm.mapped;
        var ok := FreeAt(pos);
        DataTwice(old(ram.words), old(vm).mapped, words1, mapped1, ram.words, vm.mapped);
        if !ok {
          return 1;
        }
        pos := pos + 4096;
      }
      return 0;
    }

    /** One turn of the loop of FreeVirt4kChunk. */
    method FreeAt(pos: int) returns (ok: bool)
      requires Ok() && SLOT_SIZE <= pos < ADDR_LIMIT && pos % 4096 == 0
      modifies this`vm, this`roles, frames, ram
      ensures DataKept(old(ram.words), old(vm).mapped, ram.words, vm.mapped)
      ensures Ok()
      ensures ok == (pos / 4096 / 0x800_0000 in old(vm).slots)
      ensures vm == if ok then FreeOne(old(vm), pos / 4096) else old(vm)
    {
      ghost var v := pos / 4096;
      var ptoff := AddrToPageOffset(pos);
      OffsetsNest(pos);
      var look := WalkPageTable(ptoff, pos);
      WalkEntries(v, look);
      BelowNeedsAbove(ram.words, vm, v);
      DataSame(ram.words, vm, roles);
      hide DataKept;
      if !ram.words[look.l4.frame][look.l4.index].p {
        return false;
      }
      ok := true;
      if look.l1.At? {
        ClearEntry(look.l1, v);
        return;
      }
      if look.l2.At? {
        var e := ram.words[look.l2.frame][look.l2.index];
        if e.avl != 0 && !e.p {
          SetBlockMark(look.l2, v / 512, 0);
          return;
        }
      }
      UnmarkAbsent(vm, v / 512);
    }

    // ------------------------------------------------------------------- page faults

    /** The processor's present bit: the identity map backs all of slot 0. */
    ghost predicate Present(v: int)
      reads this
    {
      v in vm.mapped || v / 0x800_0000 == 0
    }

    /** The page-fault handler, for any address; fatal stands for its endless halt. errP
        is the present bit of the error code: the processor clears it when the page was
        absent. An address outside the stack's and the heap's slot is always fatal. */
    method PfIrqHandler(addr: int, errP: bool) returns (fatal: bool)
      requires Valid() && 0 <= addr < WORD
      requires errP <==> Present(PageOf(addr))
      requires !errP && Accepts(vm, PageOf(addr), low) ==> Available(vm.pool) >= FaultNeeds(vm, PageOf(addr))
      modifies this`vm, this`roles, frames, ram
      ensures DataKept(old(ram.words), old(vm).mapped, ram.words, vm.mapped)
      ensures Valid()
      ensures fatal == (errP || !Accepts(old(vm), PageOf(addr), low))
      ensures addr / SLOT_SIZE % 512 !in {2, 4} ==> fatal
      ensures State() == if fatal then old(State()) else VmSystem.Step(old(State()), VmSystem.Touch(PageOf(addr)))
    {
      assert PieceOk(Tables) && PieceOk(Positions);
      ghost var v := PageOf(addr);
      OffsetsWrap(addr);
      assert VmSystem.PartOk(State(), managed, VmSystem.TablesPart);
      if !errP && Accepts(vm, v, low) {
        VmSystem.StepKeeps(State(), VmSystem.Touch(v), low, managed);
      }
      fatal := HandleFault(addr, errP);
      assert PieceOk(Tables) && PieceOk(Positions);
    }

    /** The handler's body. */
    method HandleFault(addr: int, errP: bool) returns (fatal: bool)
      requires Ok() && 0 <= addr < WORD
      requires errP <==> Present(PageOf(addr))
      requires !errP && Accepts(vm, PageOf(addr), low) ==> Available(vm.pool) >= FaultNeeds(vm, PageOf(addr))
      modifies this`vm, this`roles, frames, ram
      ensures DataKept(old(ram.words), old(vm).mapped, ram.words, vm.mapped)
      ensures Ok()
      ensures fatal == (errP || !Accepts(old(vm), PageOf(addr), low))
      ensures vm == if fatal then old(vm) else Fault(old(vm), PageOf(addr))
    {
      DataSame(ram.words, vm, roles);
      hide DataKept;
      if errP {
        return true;
      }
      ghost var v := PageOf(addr);
      var ptoff := AddrToPageOffset(addr);
      OffsetsWrap(addr);
      OffsetsNest(addr % ADDR_LIMIT);
      var look := WalkPageTable(ptoff, addr % ADDR_LIMIT);
      WalkEntries(v, look);
      var ok := Admits(look, v);
      if !ok {
        return true;
      }
      fatal := false;
      if !ram.words[look.l2.frame][look.l2.index].p {
        ExpandBlock(look.l2, v / 512);
        look := WalkPageTable(ptoff, addr % ADDR_LIMIT);
      }
      ghost var words1 := ram.words;
      BackPage(look.l1, v);
      DataTwice(old(ram.words), old(vm).mapped, words1, old(vm).mapped, ram.words, vm.mapped);
    }

    /** The handler's test of the walked entries. A NULL level-1 pointer is read like any
        other: the identity map makes it word 0 of frame 0. */
    method Admits(look: Lookup, ghost v: int) returns (ok: bool)
      requires Ok() && look == WalkOf(vm, v) && 0 < v / 0x800_0000 < 512
      ensures ok == Accepts(vm, v, low)
      ensures ok ==> look.l2.At?
    {
      WalkEntries(v, look);
      if !ram.words[look.l4.frame][look.l4.index].p || !ram.words[look.l3.frame][look.l3.index].p {
        return false;
      }
      if ram.words[look.l2.frame][look.l2.index].avl == 0 {
        return false;
      }
      var mark := if look.l1.Null? then ram.words[0][0] else ram.words[look.l1.frame][look.l1.index];
      return mark.avl != 0;
    }

    // ---------------------------------------------------------------- stacks and heap

    /** Reserves the next stack and returns its top, or NULL with nothing changed. */
    method AllocKernStackMem() returns (addr: int)
      requires Valid()
      requires VmSystem.Enabled(State(), VmSystem.Take(VmSystem.StackArea, 512), 0)
      modifies this`vm, this`roles, this`live, this`kernStackPos, frames, ram
      ensures DataKept(old(ram.words), old(vm).mapped, ram.words, vm.mapped)
      ensures Valid()
      ensures State() == VmSystem.Step(old(State()), VmSystem.Take(VmSystem.StackArea, 512))
      ensures addr == if VmSystem.Succeeds(old(State()), VmSystem.StackArea, 512) then kernStackPos else 0
      ensures addr != 0 ==>
                && addr == old(kernStackPos) + KTHREAD_STACK_SIZE
                && live == old(live) + {((addr - KTHREAD_STACK_SIZE) / 4096, addr / 4096)}
    {
      ghost var sys := State();
      assert PieceOk(Tables) && PieceOk(Positions);
      VmSystem.StepKeeps(sys, VmSystem.Take(VmSystem.StackArea, 512), 0, managed);
      VmSystem.PositionBounds(sys, managed);
      addr := TakeStack();
      StackState(sys, old(kernStackPos), State());
      assert PieceOk(Tables) && PieceOk(Positions);
    }

    method TakeStack() returns (addr: int)
      requires Ok() && kernStackPos % 4096 == 0
      requires VmSystem.STACK_START <= State().stackPos <= VmSystem.STACK_START + 0x800_0000
      requires VmSystem.Enabled(State(), VmSystem.Take(VmSystem.StackArea, 512), 0)
      modifies this`vm, this`roles, this`live, this`kernStackPos, frames, ram
      ensures DataKept(old(ram.words), old(vm).mapped, ram.words, vm.mapped)
      ensures Ok() && kernStackPos % 4096 == 0
      ensures var res := ReserveResult(old(State()), old(kernStackPos), KTHREAD_STACK_SIZE);
              && vm == res.1
              && kernStackPos == old(kernStackPos) + (if res.0 == 0 then KTHREAD_STACK_SIZE else 0)
              && live == old(live) + (if res.0 == 0 then {(old(kernStackPos) / 4096, kernStackPos / 4096)} else {})
              && addr == (if res.0 == 0 then kernStackPos else 0)
    {
      hide AllocFrom, Demand, Inv, FrameAllocator.Valid;
      ghost var sys := State();
      var start, end := kernStackPos, kernStackPos + KTHREAD_STACK_SIZE;
      RangeSteps(start, KTHREAD_STACK_SIZE);
      var res := AllocVirt4kChunk(start, end);
      assert ReserveResult(sys, start, KTHREAD_STACK_SIZE) == (res, vm);
      if res != 0 {
        return 0;
      }
      kernStackPos := end;
      live := live + {(start / 4096, end / 4096)};
      return end;
    }

    /** Reserves size bytes of heap and returns their start, or NULL. An unaligned size
        changes nothing. */
    method AllocKernHeap(size: int) returns (addr: int)
      requires Valid() && 0 <= size < 0x1_0000_0000
      requires size % 4096 == 0 ==> VmSystem.Enabled(State(), VmSystem.Take(VmSystem.HeapArea, size / 4096), 0)
      modifies this`vm, this`roles, this`live, this`kernHeapPos, frames, ram
      ensures DataKept(old(ram.words), old(vm).mapped, ram.words, vm.mapped)
      ensures Valid()
      ensures State() == if size % 4096 != 0 then old(State())
                         else VmSystem.Step(old(State()), VmSystem.Take(VmSystem.HeapArea, size / 4096))
      ensures addr == if size % 4096 == 0 && VmSystem.Succeeds(old(State()), VmSystem.HeapArea, size / 4096)
                      then old(kernHeapPos) else 0
      ensures addr != 0 ==>
                && kernHeapPos == old(kernHeapPos) + size
                && live == old(live) + {(old(kernHeapPos) / 4096, kernHeapPos / 4096)}
    {
      assert PieceOk(Tables) && PieceOk(Positions);
      if size % 4096 == 0 {
        VmSystem.StepKeeps(State(), VmSystem.Take(VmSystem.HeapArea, size / 4096), 0, managed);
      }
      VmSystem.PositionBounds(State(), managed);
      addr := TakeHeap(size);
      assert PieceOk(Tables) && PieceOk(Positions);
    }

    method TakeHeap(size: int) returns (addr: int)
      requires Ok() && kernHeapPos % 4096 == 0 && 0 <= size < 0x1_0000_0000
      requires VmSystem.HEAP_START <= State().heapPos <= VmSystem.HEAP_END
      requires size % 4096 == 0 ==> VmSystem.Enabled(State(), VmSystem.Take(VmSystem.HeapArea, size / 4096), 0)
      modifies this`vm, this`roles, this`live, this`kernHeapPos, frames, ram
      ensures DataKept(old(ram.words), old(vm).mapped, ram.words, vm.mapped)
      ensures Ok() && kernHeapPos % 4096 == 0
      ensures State() == if size % 4096 != 0 then old(State())
                         else VmSystem.Step(old(State()), VmSystem.Take(VmSystem.HeapArea, size / 4096))
      ensures addr == if size % 4096 == 0 && VmSystem.Succeeds(old(State()), VmSystem.HeapArea, size / 4096)
                      then old(kernHeapPos) else 0
      ensures addr != 0 ==>
                && kernHeapPos == old(kernHeapPos) + size
                && live == old(live) + {(old(kernHeapPos) / 4096, kernHeapPos / 4096)}
    {
      hide AllocFrom, Demand, Inv, FrameAllocator.Valid;
      ghost var sys := State();
      var start, end := kernHeapPos, kernHeapPos + size;
      RangeSteps(start, size);
      var res := AllocVirt4kChunk(start, end);
      assert ReserveResult(sys, start, size) == (res, vm);
      if res == 0 {
        kernHeapPos := end;
        live := live + {(start / 4096, end / 4096)};
      }
      HeapState(sys, start, size, State());
      return if res != 0 then 0 else start;
    }

    /** Releases the live range of pages [start, end). */
    method ReleaseRange(start: int, end: int)
      requires Valid() && start % 4096 == 0 && end % 4096 == 0 && (start / 4096, end / 4096) in live
      modifies this`vm, this`roles, this`live, frames, ram
      ensures DataKept(old(ram.words), old(vm).mapped, ram.words, vm.mapped)
      ensures Valid() && live == old(live) - {(start / 4096, end / 4096)}
      ensures State() == VmSystem.Step(old(State()), VmSystem.Drop((start / 4096, end / 4096)))
    {
      ghost var sys, r := State(), (start / 4096, end / 4096);
      assert PieceOk(Tables) && PieceOk(Positions);
      VmSystem.StepKeeps(sys, VmSystem.Drop(r), 0, managed);
      VmSystem.LiveBounds(sys, r, managed);
      var res := FreeVirt4kChunk(start, end);
      live := live - {r};
      assert State() == VmSystem.Step(sys, VmSystem.Drop(r));
      assert PieceOk(Tables) && PieceOk(Positions);
    }

    /** Releases the stack whose top is addr. */
    method FreeKernStackMem(addr: int)
      requires Valid() && addr % 4096 == 0 && ((addr - KTHREAD_STACK_SIZE) / 4096, addr / 4096) in live
      modifies this`vm, this`roles, this`live, frames, ram
      ensures DataKept(old(ram.words), old(vm).mapped, ram.words, vm.mapped)
      ensures Valid() && live == old(live) - {((addr - KTHREAD_STACK_SIZE) / 4096, addr / 4096)}
      ensures State() == VmSystem.Step(old(State()), VmSystem.Drop(((addr - KTHREAD_STACK_SIZE) / 4096, addr / 4096)))
    {
      ReleaseRange(addr - KTHREAD_STACK_SIZE, addr);
    }

    /** Releases size bytes of heap from addr. */
    method FreeKernHeap(addr: int, size: int)
      requires Valid() && addr % 4096 == 0 && size % 4096 == 0 && (addr / 4096, (addr + size) / 4096) in live
      modifies this`vm, this`roles, this`live, frames, ram
      ensures DataKept(old(ram.words), old(vm).mapped, ram.words, vm.mapped)
      ensures Valid() && live == old(live) - {(addr / 4096, (addr + size) / 4096)}
      ensures State() == VmSystem.Step(old(State()), VmSystem.Drop((addr / 4096, (addr + size) / 4096)))
    {
      ReleaseRange(addr, addr + size);
    }
  }
}
