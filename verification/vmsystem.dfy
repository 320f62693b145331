/** The running system's address space: stacks and heap ranges handed out one after the
    other, released by their owners, and touched page by page. */
module VmSystem {
  import opened Frames
  import opened PageTree
  import opened Vm
  import opened VmLaws
  import opened VmRuns

  /** First pages of the stack and heap slots, one past the heap slot, pages of a stack. */
  const STACK_START: int := 0x1000_0000
  const HEAP_START: int := 0x2000_0000
  const HEAP_END: int := 0x2800_0000
  const STACK_PAGES: int := 512

  type Range = (int, int)

  /** stackPos and heapPos are page numbers; live holds the ranges not yet released. */
  datatype Sys = Sys(vm: Vm, stackPos: int, heapPos: int, live: set<Range>)

  datatype Area = StackArea | HeapArea

  /** Stacks always take STACK_PAGES pages. */
  datatype Op = Take(area: Area, pages: nat) | Drop(range: Range) | Touch(page: int)

  /** Where the next range of an area starts. */
  function Position(sys: Sys, area: Area): int {
    if area == StackArea then sys.stackPos else sys.heapPos
  }

  /** What each call requires of its caller and of the hardware: frames for the tables a
      reservation adds, no heap request that starts inside the heap's slot and ends outside
      it, a live range to release, and for a touch an absent page that the handler accepts. */
  predicate Enabled(sys: Sys, op: Op, low: int) {
    match op
    case Take(area, n) =>
      && (if area == StackArea then n == STACK_PAGES else sys.heapPos + n <= HEAP_END || sys.heapPos == HEAP_END)
      && Available(sys.vm.pool) >= Demand(sys.vm, Position(sys, area), Position(sys, area) + n)
    case Drop(r) => r in sys.live
    case Touch(v) =>
      && v !in sys.vm.mapped && Accepts(sys.vm, v, low)
      && Available(sys.vm.pool) >= FaultNeeds(sys.vm, v)
  }

  /** A successful reservation: the position moves past the new live range. */
  function AfterTake(sys: Sys, area: Area, n: nat): Sys {
    var s := Position(sys, area);
    Sys(AllocFrom(sys.vm, s, s + n).1,
        if area == StackArea then s + n else sys.stackPos,
        if area == HeapArea then s + n else sys.heapPos,
        sys.live + {(s, s + n)})
  }

  /** The state after the call: a range that does not fit its slot is refused. */
  function Step(sys: Sys, op: Op): Sys {
    match op
    case Take(area, n) =>
      var (res, vm') := AllocFrom(sys.vm, Position(sys, area), Position(sys, area) + n);
      if res == 0 then AfterTake(sys, area, n) else sys.(vm := vm')
    case Drop(r) => sys.(vm := FreeFrom(sys.vm, r.0, r.1).1, live := sys.live - {r})
    case Touch(v) => sys.(vm := Fault(sys.vm, v))
  }

  predicate Succeeds(sys: Sys, area: Area, n: nat) {
    AllocFrom(sys.vm, Position(sys, area), Position(sys, area) + n).0 == 0
  }

  /** Recognising the state after a reservation by its parts. */
  lemma StepTake(sys: Sys, area: Area, n: nat, sys': Sys)
    requires var s := Position(sys, area);
             var (res, vm') := AllocFrom(sys.vm, s, s + n);
             && sys'.vm == vm'
             && sys'.stackPos == (if res == 0 && area == StackArea then s + n else sys.stackPos)
             && sys'.heapPos == (if res == 0 && area == HeapArea then s + n else sys.heapPos)
             && sys'.live == (if res == 0 then sys.live + {(s, s + n)} else sys.live)
    ensures sys' == Step(sys, Take(area, n))
  {
  }

  predicate Holds(r: Range, v: int) { r.0 <= v < r.1 }

  ghost predicate Covered(live: set<Range>, v: int) {
    exists r :: r in live && Holds(r, v)
  }

  predicate Apart(r: Range, q: Range) { r.1 <= q.0 || q.1 <= r.0 }

  /** A range was taken from the stack slot or from the heap slot. */
  predicate Taken(sys: Sys, r: Range) {
    || STACK_START <= r.0 <= r.1 <= sys.stackPos
    || HEAP_START <= r.0 <= r.1 <= sys.heapPos
  }

  ghost predicate RangesOk(sys: Sys) {
    && STACK_START <= sys.stackPos <= STACK_START + 0x800_0000 && sys.stackPos % 512 == 0
    && HEAP_START <= sys.heapPos <= HEAP_END
    && (forall r :: r in sys.live ==> Taken(sys, r))
    && (forall r, q :: r in sys.live && q in sys.live && r != q ==> Apart(r, q))
  }

  /** The pages reserved are exactly those of the live ranges. */
  ghost predicate PagesCovered(sys: Sys) {
    forall v :: Reserved(sys.vm, v) <==> Covered(sys.live, v)
  }

  /** Each lazily reserved block lies inside one live range. */
  ghost predicate BlocksCovered(sys: Sys) {
    forall b :: Lazy(sys.vm, b) ==> exists r :: r in sys.live && Inside(b, r.0, r.1)
  }

  /** Every managed frame has exactly one role. */
  ghost predicate FramesOk(vm: Vm, managed: set<int>) {
    exists roles :: Accounts(vm, roles) && roles.Keys == managed
  }

  datatype Part = TablesPart | RangesPart | PagesPart | BlocksPart | FramesPart

  ghost predicate PartOk(sys: Sys, managed: set<int>, part: Part) {
    match part
    case TablesPart => Shape(sys.vm) && sys.vm.slots.Keys == {0, 2, 4}
    case RangesPart => RangesOk(sys)
    case PagesPart => PagesCovered(sys)
    case BlocksPart => BlocksCovered(sys)
    case FramesPart => FramesOk(sys.vm, managed)
  }

  ghost predicate SysInv(sys: Sys, managed: set<int>) {
    forall part: Part :: PartOk(sys, managed, part)
  }

  /** The pages of the two slots. */
  lemma SlotsHere(vm: Vm, s: int, e: int)
    requires vm.slots.Keys == {0, 2, 4}
    requires STACK_START <= s <= e <= STACK_START + 0x800_0000 || HEAP_START <= s <= e <= HEAP_END
    ensures SlotsPresent(vm, s, e)
  {
    forall v | s <= v < e ensures v / 0x800_0000 in vm.slots {
      assert v / 0x800_0000 == 2 || v / 0x800_0000 == 4;
    }
  }

  /** Nothing is reserved in a range next to all live ranges. */
  lemma NothingThere(sys: Sys, s: int, e: int)
    requires PagesCovered(sys) && forall r :: r in sys.live ==> Apart(r, (s, e))
    ensures forall v :: s <= v < e ==> !Reserved(sys.vm, v)
    ensures forall b :: !Cut(sys.vm, s, e, b)
  {
    forall v | s <= v < e ensures !Reserved(sys.vm, v) {
      forall r | r in sys.live ensures !Holds(r, v) { assert Apart(r, (s, e)); }
    }
    forall b ensures !Cut(sys.vm, s, e, b) {
      UnreservedNotLazy(sys.vm, s, e, b);
    }
  }

  function SlotEnd(area: Area): int {
    if area == StackArea then STACK_START + 0x800_0000 else HEAP_END
  }

  /** Whether the next range of an area lies in its slot. */
  predicate Fits(sys: Sys, area: Area, n: nat) {
    Position(sys, area) + n <= SlotEnd(area)
  }

  /** The next range of an area lies next to all live ones. */
  lemma NextApart(sys: Sys, area: Area, n: nat)
    requires RangesOk(sys) && sys.vm.slots.Keys == {0, 2, 4} && Fits(sys, area, n)
    ensures var s := Position(sys, area);
            SlotsPresent(sys.vm, s, s + n) && forall r :: r in sys.live ==> Apart(r, (s, s + n))
  {
    var s := Position(sys, area);
    SlotsHere(sys.vm, s, s + n);
    forall r | r in sys.live ensures Apart(r, (s, s + n)) { assert Taken(sys, r); }
  }

  /** The next range of an area can be reserved. */
  lemma TakeTables(sys: Sys, area: Area, n: nat)
    requires Shape(sys.vm) && RangesOk(sys) && sys.vm.slots.Keys == {0, 2, 4} && Fits(sys, area, n)
    ensures var s := Position(sys, area);
            var (res, vm') := AllocFrom(sys.vm, s, s + n);
            res == 0 && Shape(vm') && vm'.slots == sys.vm.slots
  {
    NextApart(sys, area, n);
    AllocEffect(sys.vm, Position(sys, area), Position(sys, area) + n, 0);
  }

  lemma AllocNone(vm: Vm, s: int)
    ensures AllocFrom(vm, s, s) == (0, vm)
  {}

  /** Reserving [s, e) next to the pages of the live ranges adds it to them. */
  lemma ReserveMore(vm: Vm, s: int, e: int, live: set<Range>)
    requires Shape(vm) && SlotsPresent(vm, s, e)
    requires forall v :: Reserved(vm, v) <==> Covered(live, v)
    requires forall b :: !Cut(vm, s, e, b)
    ensures forall v :: Reserved(AllocFrom(vm, s, e).1, v) <==> Covered(live + {(s, e)}, v)
  {
    var vm' := AllocFrom(vm, s, e).1;
    AllocExact(vm, s, e);
    forall v ensures Reserved(vm', v) <==> Covered(live + {(s, e)}, v) {
      if Covered(live, v) {
        var r :| r in live && Holds(r, v);
        assert r in live + {(s, e)};
      }
      if s <= v < e { assert (s, e) in live + {(s, e)} && Holds((s, e), v); }
    }
  }

  lemma TakePages(sys: Sys, area: Area, n: nat)
    requires Shape(sys.vm) && PagesCovered(sys) && RangesOk(sys) && sys.vm.slots.Keys == {0, 2, 4}
    requires Fits(sys, area, n)
    ensures PagesCovered(AfterTake(sys, area, n))
  {
    var s := Position(sys, area);
    NextApart(sys, area, n);
    NothingThere(sys, s, s + n);
    ReserveMore(sys.vm, s, s + n, sys.live);
  }

  lemma TakeBlocks(sys: Sys, area: Area, n: nat)
    requires Shape(sys.vm) && BlocksCovered(sys) && RangesOk(sys) && sys.vm.slots.Keys == {0, 2, 4}
    requires Fits(sys, area, n)
    ensures BlocksCovered(AfterTake(sys, area, n))
  {
    hide AllocFrom, Shape, SlotsPresent;
    var s, sys' := Position(sys, area), AfterTake(sys, area, n);
    var e, vm' := s + n, sys'.vm;
    NextApart(sys, area, n);
    forall b | Lazy(vm', b) ensures exists r :: r in sys'.live && Inside(b, r.0, r.1) {
      assert (512 * b) / 512 == b;
      AllocEffect(sys.vm, s, e, 512 * b);
      if Meets(b, s, e) {
        assert (s, e) in sys'.live;
      } else {
        var r :| r in sys.live && Inside(b, r.0, r.1);
        assert r in sys'.live;
      }
    }
  }

  lemma TakeRanges(sys: Sys, area: Area, n: nat)
    requires RangesOk(sys) && sys.vm.slots.Keys == {0, 2, 4} && Fits(sys, area, n)
    requires area == StackArea ==> n == STACK_PAGES
    ensures RangesOk(AfterTake(sys, area, n))
  {
    var sys' := AfterTake(sys, area, n);
    NextApart(sys, area, n);
    forall r | r in sys'.live ensures Taken(sys', r) {
      if r in sys.live { assert Taken(sys, r); }
    }
  }

  lemma TakeFrames(sys: Sys, area: Area, n: nat, managed: set<int>)
    requires FramesOk(sys.vm, managed)
    requires var s := Position(sys, area); Available(sys.vm.pool) >= Demand(sys.vm, s, s + n)
    ensures FramesOk(AfterTake(sys, area, n).vm, managed)
  {
    hide Accounts, AllocFrom, Demand;
    var s := Position(sys, area);
    var roles :| Accounts(sys.vm, roles) && roles.Keys == managed;
    var roles' := AllocFollows(sys.vm, roles, s, s + n);
  }

  /** Taking a range keeps the invariant. */
  lemma TakeKeeps(sys: Sys, area: Area, n: nat, managed: set<int>)
    requires SysInv(sys, managed) && Enabled(sys, Take(area, n), 0) && Fits(sys, area, n)
    ensures SysInv(AfterTake(sys, area, n), managed)
  {
    hide AllocFrom, Shape, RangesOk, PagesCovered, BlocksCovered, FramesOk, Demand;
    forall part: Part ensures PartOk(AfterTake(sys, area, n), managed, part) {
      assert PartOk(sys, managed, TablesPart) && PartOk(sys, managed, RangesPart);
      assert PartOk(sys, managed, PagesPart) && PartOk(sys, managed, part);
      match part
      case TablesPart => TakeTables(sys, area, n);
      case RangesPart => TakeRanges(sys, area, n);
      case PagesPart => TakePages(sys, area, n);
      case BlocksPart => TakeBlocks(sys, area, n);
      case FramesPart => TakeFrames(sys, area, n, managed);
    }
  }

  /** A reservation is refused, changing nothing, exactly when the slot is full. */
  lemma TakeOrRefuse(sys: Sys, area: Area, n: nat, managed: set<int>)
    requires SysInv(sys, managed) && Enabled(sys, Take(area, n), 0)
    ensures Fits(sys, area, n) ==> Step(sys, Take(area, n)) == AfterTake(sys, area, n)
    ensures !Fits(sys, area, n) ==> Step(sys, Take(area, n)) == sys
    ensures Fits(sys, area, n) ==>
              var s, sys' := Position(sys, area), Step(sys, Take(area, n));
              && sys'.live == sys.live + {(s, s + n)} && Position(sys', area) == s + n
              && Position(sys', if area == StackArea then HeapArea else StackArea)
                 == Position(sys, if area == StackArea then HeapArea else StackArea)
    ensures Fits(sys, area, n) <==> n == 0 || Position(sys, area) < SlotEnd(area)
  {
    hide AllocFrom, Shape, Demand;
    AllocNone(sys.vm, SlotEnd(area));
    assert PartOk(sys, managed, TablesPart) && PartOk(sys, managed, RangesPart);
    if Fits(sys, area, n) {
      TakeTables(sys, area, n);
    } else {
      AllocFailure(sys.vm, SlotEnd(area), SlotEnd(area), SlotEnd(area) + n);
    }
  }

  /** A reservation takes no page away. */
  lemma TakeMapped(sys: Sys, area: Area, n: nat, managed: set<int>)
    requires SysInv(sys, managed) && Enabled(sys, Take(area, n), 0)
    ensures Step(sys, Take(area, n)).vm.mapped == sys.vm.mapped
  {
    hide AllocFrom, Shape, SlotsPresent, Demand;
    assert PartOk(sys, managed, TablesPart) && PartOk(sys, managed, RangesPart);
    TakeOrRefuse(sys, area, n, managed);
    if Fits(sys, area, n) {
      NextApart(sys, area, n);
      AllocEffect(sys.vm, Position(sys, area), Position(sys, area) + n, 0);
    }
  }

  /** A heap request that runs out of the slot keeps the pages reserved and the ranges in
      step if and only if none of its pages was left in the slot: the pages before the
      slot's end stay reserved although the call fails and the position does not move. */
  lemma HeapOverrun(sys: Sys, n: nat, managed: set<int>)
    requires SysInv(sys, managed) && sys.heapPos + n > HEAP_END
    ensures PagesCovered(Step(sys, Take(HeapArea, n))) <==> sys.heapPos == HEAP_END
  {
    hide AllocFrom, Shape;
    AllocNone(sys.vm, HEAP_END);
    var s, sys' := sys.heapPos, Step(sys, Take(HeapArea, n));
    assert PartOk(sys, managed, TablesPart) && PartOk(sys, managed, RangesPart) && PartOk(sys, managed, PagesPart);
    SlotsHere(sys.vm, s, HEAP_END);
    AllocFailure(sys.vm, s, HEAP_END, s + n);
    if s < HEAP_END {
      NextApart(sys, HeapArea, HEAP_END - s);
      AllocEffect(sys.vm, s, HEAP_END, s);
      assert Reserved(sys'.vm, s);
      forall r | r in sys'.live ensures !Holds(r, s) { assert Apart(r, (s, HEAP_END)); }
      assert !Covered(sys'.live, s);
    }
  }

  /** A live range shares no lazy block with its surroundings. */
  lemma LiveNotCut(sys: Sys, r: Range, b: int)
    requires RangesOk(sys) && BlocksCovered(sys) && r in sys.live
    ensures !Cut(sys.vm, r.0, r.1, b)
    ensures Lazy(sys.vm, b) && !Meets(b, r.0, r.1) ==> exists q :: q in sys.live - {r} && Inside(b, q.0, q.1)
  {
    if Lazy(sys.vm, b) {
      var q :| q in sys.live && Inside(b, q.0, q.1);
      assert q == r || (Apart(q, r) && q in sys.live - {r});
    }
  }

  lemma DropPages(sys: Sys, r: Range)
    requires Shape(sys.vm) && sys.vm.slots.Keys == {0, 2, 4} && r in sys.live
    requires RangesOk(sys) && PagesCovered(sys) && BlocksCovered(sys)
    ensures var sys' := Step(sys, Drop(r));
            Shape(sys'.vm) && sys'.vm.slots == sys.vm.slots && PagesCovered(sys')
  {
    var sys' := Step(sys, Drop(r));
    assert Taken(sys, r);
    SlotsHere(sys.vm, r.0, r.1);
    FreeEffect(sys.vm, r.0, r.1, r.0);
    forall b ensures !Cut(sys.vm, r.0, r.1, b) { LiveNotCut(sys, r, b); }
    FreeExact(sys.vm, r.0, r.1);
    forall v ensures Reserved(sys'.vm, v) <==> Covered(sys'.live, v) {
      if Covered(sys.live, v) {
        var q :| q in sys.live && Holds(q, v);
        assert q == r || (Apart(q, r) && q in sys'.live);
      }
      if Covered(sys'.live, v) {
        var q :| q in sys'.live && Holds(q, v);
        assert q in sys.live && Apart(q, r);
      }
    }
  }

  lemma DropBlocks(sys: Sys, r: Range)
    requires Shape(sys.vm) && sys.vm.slots.Keys == {0, 2, 4} && r in sys.live
    requires RangesOk(sys) && BlocksCovered(sys)
    ensures BlocksCovered(Step(sys, Drop(r)))
  {
    var sys' := Step(sys, Drop(r));
    assert Taken(sys, r);
    SlotsHere(sys.vm, r.0, r.1);
    forall b | Lazy(sys'.vm, b) ensures exists q :: q in sys'.live && Inside(b, q.0, q.1) {
      assert (512 * b) / 512 == b;
      FreeEffect(sys.vm, r.0, r.1, 512 * b);
      LiveNotCut(sys, r, b);
    }
  }

  /** Releasing a live range. */
  lemma DropKeeps(sys: Sys, r: Range, managed: set<int>)
    requires SysInv(sys, managed) && r in sys.live
    ensures SysInv(Step(sys, Drop(r)), managed)
  {
    var sys' := Step(sys, Drop(r));
    assert PartOk(sys, managed, TablesPart) && PartOk(sys, managed, RangesPart) && PartOk(sys, managed, PagesPart);
    assert PartOk(sys, managed, BlocksPart) && PartOk(sys, managed, FramesPart);
    forall part: Part ensures PartOk(sys', managed, part) {
      match part
      case TablesPart => DropPages(sys, r);
      case RangesPart =>
        forall q | q in sys'.live ensures Taken(sys', q) { assert Taken(sys, q); }
      case PagesPart => DropPages(sys, r);
      case BlocksPart => DropBlocks(sys, r);
      case FramesPart =>
        var roles :| Accounts(sys.vm, roles) && roles.Keys == managed;
        var roles' := FreeFollows(sys.vm, roles, r.0, r.1);
    }
  }

  /** An accepted page fault. */
  lemma TouchKeeps(sys: Sys, v: int, low: int, managed: set<int>)
    requires SysInv(sys, managed) && Enabled(sys, Touch(v), low)
    ensures SysInv(Step(sys, Touch(v)), managed)
  {
    var sys' := Step(sys, Touch(v));
    assert PartOk(sys, managed, TablesPart) && PartOk(sys, managed, RangesPart) && PartOk(sys, managed, PagesPart);
    assert PartOk(sys, managed, BlocksPart) && PartOk(sys, managed, FramesPart);
    forall w ensures (Reserved(sys'.vm, w) <==> Reserved(sys.vm, w)) && (Lazy(sys'.vm, w) ==> Lazy(sys.vm, w)) {
      FaultEffect(sys.vm, v, w);
    }
    FaultEffect(sys.vm, v, v);
    forall part: Part ensures PartOk(sys', managed, part) {
      match part
      case TablesPart =>
      case RangesPart => forall q | q in sys'.live ensures Taken(sys', q) { assert Taken(sys, q); }
      case PagesPart =>
      case BlocksPart =>
      case FramesPart =>
        var roles :| Accounts(sys.vm, roles) && roles.Keys == managed;
        var roles' := FaultFollows(sys.vm, roles, v);
    }
  }

  /** Every call keeps the system invariant. */
  lemma StepKeeps(sys: Sys, op: Op, low: int, managed: set<int>)
    requires SysInv(sys, managed) && Enabled(sys, op, low)
    ensures SysInv(Step(sys, op), managed)
  {
    match op
    case Take(area, n) =>
      TakeOrRefuse(sys, area, n, managed);
      if Fits(sys, area, n) { TakeKeeps(sys, area, n, managed); }
    case Drop(r) => DropKeeps(sys, r, managed);
    case Touch(v) => TouchKeeps(sys, v, low, managed);
  }

  lemma PositionBounds(sys: Sys, managed: set<int>)
    requires SysInv(sys, managed)
    ensures STACK_START <= sys.stackPos <= STACK_START + 0x800_0000
    ensures HEAP_START <= sys.heapPos <= HEAP_END
  {
    assert PartOk(sys, managed, RangesPart);
  }

  /** The page is absent, and a fault on it is never accepted, whatever word 0 of memory
      holds. */
  ghost predicate Refused(sys: Sys, v: int) {
    v !in sys.vm.mapped && forall low :: !Accepts(sys.vm, v, low)
  }

  /** Touching the page after the last heap range is fatal. */
  lemma NextRefused(sys: Sys, managed: set<int>)
    requires SysInv(sys, managed)
    ensures Refused(sys, sys.heapPos)
  {
    assert PartOk(sys, managed, TablesPart) && PartOk(sys, managed, RangesPart) && PartOk(sys, managed, PagesPart);
    forall r | r in sys.live ensures !Holds(r, sys.heapPos) { assert Taken(sys, r); }
    assert !Reserved(sys.vm, sys.heapPos);
  }

  /** The next heap range starts with a whole block that no table describes. */
  predicate StartsLazy(sys: Sys, n: nat) {
    sys.heapPos % 512 == 0 && n >= 512 && sys.heapPos / 512 !in sys.vm.l1s
  }

  /** The first page of a heap range is absent when the range has just been taken. The
      first write to it is refused if and only if word 0 of memory carries no mark and the
      page's block is reserved by its level-2 entry alone. */
  lemma FirstTouchExact(sys: Sys, n: nat, low: int, managed: set<int>)
    requires SysInv(sys, managed) && Enabled(sys, Take(HeapArea, n), 0) && Fits(sys, HeapArea, n) && n > 0
    ensures var vm' := Step(sys, Take(HeapArea, n)).vm;
            && sys.heapPos !in vm'.mapped
            && (Accepts(vm', sys.heapPos, low) <==> low != 0 || !StartsLazy(sys, n))
  {
    hide AllocFrom, Shape, SlotsPresent, Accepts, Reserved, Lazy;
    var s := sys.heapPos;
    assert PartOk(sys, managed, TablesPart) && PartOk(sys, managed, RangesPart) && PartOk(sys, managed, PagesPart);
    TakeOrRefuse(sys, HeapArea, n, managed);
    NextApart(sys, HeapArea, n);
    AllocEffect(sys.vm, s, s + n, s);
    NextRefused(sys, managed);
    AcceptsAt(Step(sys, Take(HeapArea, n)).vm, s, low);
  }

  /** Taking n heap pages, and then the first write to them. */
  function TakeWritten(sys: Sys, n: nat): Sys {
    Step(Step(sys, Take(HeapArea, n)), Touch(sys.heapPos))
  }

  /** The slot and the frames suffice for both; a refused write needs none. */
  predicate Writable(sys: Sys, n: nat, low: int) {
    && Enabled(sys, Take(HeapArea, n), 0) && Fits(sys, HeapArea, n)
    && var vm' := Step(sys, Take(HeapArea, n)).vm;
       low != 0 || !StartsLazy(sys, n) ==> Available(vm'.pool) >= FaultNeeds(vm', sys.heapPos)
  }

  lemma WriteKeeps(sys: Sys, n: nat, low: int, managed: set<int>)
    requires SysInv(sys, managed) && n > 0 && Writable(sys, n, low) && (low != 0 || !StartsLazy(sys, n))
    ensures SysInv(Step(sys, Take(HeapArea, n)), managed)
    ensures Enabled(Step(sys, Take(HeapArea, n)), Touch(sys.heapPos), low)
    ensures SysInv(TakeWritten(sys, n), managed)
    ensures TakeWritten(sys, n).live == sys.live + {(sys.heapPos, sys.heapPos + n)}
    ensures TakeWritten(sys, n).vm.mapped.Keys == sys.vm.mapped.Keys + {sys.heapPos}
  {
    hide AllocFrom, Shape, SlotsPresent, Accepts, Reserved, Lazy, Demand;
    var s := sys.heapPos;
    assert PartOk(sys, managed, TablesPart) && PartOk(sys, managed, RangesPart);
    FirstTouchExact(sys, n, low, managed);
    TakeOrRefuse(sys, HeapArea, n, managed);
    NextApart(sys, HeapArea, n);
    AllocEffect(sys.vm, s, s + n, s);
    var sys1 := Step(sys, Take(HeapArea, n));
    StepKeeps(sys, Take(HeapArea, n), low, managed);
    StepKeeps(sys1, Touch(s), low, managed);
    AcceptsAt(sys1.vm, s, low);
    FaultEffect(sys1.vm, s, s);
  }

  lemma LiveBounds(sys: Sys, r: Range, managed: set<int>)
    requires SysInv(sys, managed) && r in sys.live
    ensures STACK_START <= r.0 <= r.1 <= HEAP_END
  {
    assert PartOk(sys, managed, RangesPart) && Taken(sys, r);
  }

  ghost predicate Runnable(sys: Sys, ops: seq<Op>, low: int)
    decreases |ops|
  {
    ops == [] || (Enabled(sys, ops[0], low) && Runnable(Step(sys, ops[0]), ops[1..], low))
  }

  function Run(sys: Sys, ops: seq<Op>): Sys
    decreases |ops|
  {
    if ops == [] then sys else Run(Step(sys, ops[0]), ops[1..])
  }

  lemma {:induction false} RunKeeps(sys: Sys, ops: seq<Op>, low: int, managed: set<int>)
    requires SysInv(sys, managed) && Runnable(sys, ops, low)
    ensures SysInv(Run(sys, ops), managed)
    decreases |ops|
  {
    if ops != [] {
      StepKeeps(sys, ops[0], low, managed);
      RunKeeps(Step(sys, ops[0]), ops[1..], low, managed);
    }
  }

  /** Every call keeps the number of frames left, in tables and behind pages. */
  lemma StepBalance(sys: Sys, op: Op, low: int, managed: set<int>)
    requires SysInv(sys, managed) && Enabled(sys, op, low)
    ensures Balance(Step(sys, op).vm) == Balance(sys.vm)
  {
    hide Accounts, Balance, AllocFrom, FreeFrom, Demand;
    assert PartOk(sys, managed, FramesPart);
    var roles :| Accounts(sys.vm, roles) && roles.Keys == managed;
    match op
    case Take(area, n) =>
      var roles' := AllocFollows(sys.vm, roles, Position(sys, area), Position(sys, area) + n);
    case Drop(r) =>
      var roles' := FreeFollows(sys.vm, roles, r.0, r.1);
    case Touch(v) =>
      assert PartOk(sys, managed, TablesPart);
      var roles' := FaultFollows(sys.vm, roles, v);
  }

  /** Over every run the counts keep their sum, and every frame has exactly one role. */
  lemma {:induction false} RunRoles(sys: Sys, ops: seq<Op>, low: int, managed: set<int>, f: int)
    requires SysInv(sys, managed) && Runnable(sys, ops, low) && f in managed
    ensures Balance(Run(sys, ops).vm) == Balance(sys.vm)
    ensures var vm := Run(sys, ops).vm;
            && (f in vm.pool.unissued || f in vm.pool.freed || IsTable(vm, f) || HeldAs(vm, Data, f))
            && (f in vm.pool.unissued ==> f !in vm.pool.freed && !IsTable(vm, f) && !HeldAs(vm, Data, f))
            && (f in vm.pool.freed ==> !IsTable(vm, f) && !HeldAs(vm, Data, f))
            && (IsTable(vm, f) ==> !HeldAs(vm, Data, f))
            && forall v, w :: v in vm.mapped && w in vm.mapped && vm.mapped[v] == f == vm.mapped[w] ==> v == w
    decreases |ops|
  {
    hide Accounts, Balance, Enabled, Step, IsTable, HeldAs;
    if ops == [] {
      assert PartOk(sys, managed, FramesPart);
      var roles :| Accounts(sys.vm, roles) && roles.Keys == managed;
      OneRole(sys.vm, roles, f);
    } else {
      StepBalance(sys, ops[0], low, managed);
      StepKeeps(sys, ops[0], low, managed);
      RunRoles(Step(sys, ops[0]), ops[1..], low, managed, f);
    }
  }

  // ----------------------------------------------------------------- successive stacks

  /** The first k stacks reserved one after the other. */
  function StackRun(vm: Vm, k: nat): Vm {
    if k == 0 then vm
    else AllocFrom(StackRun(vm, k - 1), STACK_START + 512 * (k - 1), STACK_START + 512 * k).1
  }

  function CeilDiv(k: nat): nat { (k + 511) / 512 }

  /** A stack is one whole block of a slot without tables: it adds at most the level-2
      table of its region and marks the block. */
  lemma OneStack(vm: Vm, s: int)
    requires s % 512 == 0 && s / 0x800_0000 in vm.slots && s / 512 !in vm.l1s
    ensures AllocFrom(vm, s, s + 512) == (0, MarkBlock(WithL2(vm, s / 0x4_0000), s / 512))
  {
    var vm1 := WithL2(vm, s / 0x4_0000);
    assert Spanned(vm1, s, s + 512);
    assert AllocFrom(MarkBlock(vm1, s / 512), s + 512, s + 512) == (0, MarkBlock(vm1, s / 512));
  }

  /** Its pages are reserved, but the first fault on any of them is refused while word 0
      of memory carries no mark. */
  lemma FreshStackRefused(vm: Vm, s: int, v: int)
    requires s % 512 == 0 && s / 0x800_0000 in vm.slots && s / 512 !in vm.l1s && s <= v < s + 512
    ensures Reserved(AllocFrom(vm, s, s + 512).1, v) && !Accepts(AllocFrom(vm, s, s + 512).1, v, 0)
  {
    OneStack(vm, s);
    assert v / 512 == s / 512;
  }

  /** Block, region and slot of the k-th stack. */
  lemma StackNumbers(k: nat)
    requires 0 < k <= 0x4_0000
    ensures var s := STACK_START + 512 * (k - 1);
            && s % 512 == 0 && s / 512 == 0x8_0000 + k - 1
            && s / 0x4_0000 == 0x400 + (k - 1) / 512 && s / 0x800_0000 == 2
    ensures CeilDiv(k) == CeilDiv(k - 1) + if (k - 1) % 512 == 0 then 1 else 0
    ensures (k - 1) / 512 < CeilDiv(k - 1) <==> (k - 1) % 512 != 0
    ensures (k - 1) / 512 + 1 == CeilDiv(k)
  {
  }

  /** The state after k stacks. */
  ghost predicate StacksTaken(vm: Vm, vm': Vm, k: nat) {
    && vm'.l1s == vm.l1s && vm'.mapped == vm.mapped && vm'.pages == vm.pages && vm'.slots == vm.slots
    && (forall c :: c in vm'.l2s <==> c in vm.l2s || 0x400 <= c < 0x400 + CeilDiv(k))
    && (forall b :: b in vm'.blocks <==> b in vm.blocks || 0x8_0000 <= b < 0x8_0000 + k)
    && Available(vm'.pool) == Available(vm.pool) - CeilDiv(k)
  }

  lemma OneMoreStack(vm: Vm, vm1: Vm, k: nat)
    requires 0 < k <= 0x4_0000 && 2 in vm.slots && StacksTaken(vm, vm1, k - 1)
    requires forall c :: 0x400 <= c < 0x600 ==> c !in vm.l2s
    requires forall b :: 0x8_0000 <= b < 0xC_0000 ==> b !in vm.l1s
    requires Available(vm.pool) >= CeilDiv(k)
    ensures var s := STACK_START + 512 * (k - 1);
            var (res, vm') := AllocFrom(vm1, s, s + 512);
            res == 0 && StacksTaken(vm, vm', k)
  {
    var s := STACK_START + 512 * (k - 1);
    StackNumbers(k);
    OneStack(vm1, s);
    assert s / 0x4_0000 in vm1.l2s <==> (k - 1) % 512 != 0;
  }

  /** Up to 2^18 stacks all succeed, add no level-1 table and together take exactly one
      frame for every 512 of them, for the level-2 table of their 1 GB region. */
  lemma {:induction false} StacksAreCheap(vm: Vm, k: nat)
    requires k <= 0x4_0000 && 2 in vm.slots
    requires forall c :: 0x400 <= c < 0x600 ==> c !in vm.l2s
    requires forall b :: 0x8_0000 <= b < 0xC_0000 ==> b !in vm.l1s
    requires Available(vm.pool) >= CeilDiv(k)
    ensures StacksTaken(vm, StackRun(vm, k), k)
    ensures k > 0 ==> AllocFrom(StackRun(vm, k - 1), STACK_START + 512 * (k - 1), STACK_START + 512 * k).0 == 0
  {
    if k > 0 {
      StackNumbers(k);
      StacksAreCheap(vm, k - 1);
      OneMoreStack(vm, StackRun(vm, k - 1), k);
    }
  }

  function Stacks(k: nat): seq<Op> {
    if k == 0 then [] else Stacks(k - 1) + [Take(StackArea, STACK_PAGES)]
  }

  lemma {:induction false} RunMore(sys: Sys, ops: seq<Op>, op: Op)
    ensures Run(sys, ops + [op]) == Step(Run(sys, ops), op)
    decreases |ops|
  {
    hide Step;
    if ops == [] {
      assert [op][1..] == [];
    } else {
      RunMore(Step(sys, ops[0]), ops[1..], op);
      assert (ops + [op])[1..] == ops[1..] + [op];
    }
  }

  /** In the running system: the k-th of the first stacks ends k stacks past the slot's
      start, and its range is live, beside those before it. */
  lemma {:induction false} StackTops(sys: Sys, k: nat)
    requires k <= 0x4_0000 && 2 in sys.vm.slots && sys.stackPos == STACK_START
    requires forall c :: 0x400 <= c < 0x600 ==> c !in sys.vm.l2s
    requires forall b :: 0x8_0000 <= b < 0xC_0000 ==> b !in sys.vm.l1s
    requires Available(sys.vm.pool) >= CeilDiv(k)
    ensures var sys' := Run(sys, Stacks(k));
            && sys'.vm == StackRun(sys.vm, k) && sys'.stackPos == STACK_START + STACK_PAGES * k
            && sys'.heapPos == sys.heapPos && sys.live <= sys'.live
            && (k > 0 ==> (STACK_START + STACK_PAGES * (k - 1), STACK_START + STACK_PAGES * k) in sys'.live)
  {
    hide AllocFrom, StacksTaken;
    if k > 0 {
      StackTops(sys, k - 1);
      StacksAreCheap(sys.vm, k);
      RunMore(sys, Stacks(k - 1), Take(StackArea, STACK_PAGES));
    }
  }
}
