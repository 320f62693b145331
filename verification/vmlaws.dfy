/** What whole calls do to the address space: exactly which pages a reservation, a
    release and a fault change, and when that is what the caller asked for. */
module VmLaws {
  import opened Frames
  import opened Vm

  /** Tables hang below tables, marks and frames below the tables that hold them. */
  ghost predicate Shape(vm: Vm) {
    && vm.l1s.Keys <= vm.blocks
    && (forall b :: b in vm.blocks ==> b / 512 in vm.l2s)
    && (forall c :: c in vm.l2s ==> c / 512 in vm.slots)
    && (forall v :: v in vm.pages ==> v / 512 in vm.l1s)
    && (forall v :: v in vm.mapped ==> v in vm.pages)
  }

  /** Block b has a page in [s, e). */
  predicate Meets(b: int, s: int, e: int) { s < e && s < 512 * b + 512 && 512 * b < e }

  /** All of block b is in [s, e). */
  predicate Inside(b: int, s: int, e: int) { s <= 512 * b && 512 * b + 512 <= e }

  /** A lazily reserved block that [s, e) reaches into without covering it. */
  predicate Cut(vm: Vm, s: int, e: int, b: int) {
    Lazy(vm, b) && Meets(b, s, e) && !Inside(b, s, e)
  }

  ghost predicate SlotsPresent(vm: Vm, s: int, e: int) {
    forall v :: s <= v < e ==> v / 0x800_0000 in vm.slots
  }

  // -------------------------------------------------------------------- reservation

  lemma WithL2Same(vm: Vm, c: int)
    ensures var vm1 := WithL2(vm, c);
            && vm1.mapped == vm.mapped && vm1.slots == vm.slots && vm1.root == vm.root
            && vm1.blocks == vm.blocks && vm1.pages == vm.pages && vm1.l1s == vm.l1s
            && vm1.l2s.Keys == vm.l2s.Keys + {c}
  {
  }

  /** One turn of the loop reserves its page or block, and keeps the shape. */
  lemma MarkStepEffect(vm: Vm, pos: int, e: int, v: int)
    requires Shape(vm) && pos < e && pos / 0x800_0000 in vm.slots
    ensures var vm1 := WithL2(vm, pos / 0x4_0000);
            var vm', next := MarkStep(vm1, pos, e), if Spanned(vm1, pos, e) then pos + 512 else pos + 1;
            && Shape(vm') && vm'.mapped == vm.mapped && vm'.slots == vm.slots
            && (Reserved(vm', v) <==>
                pos <= v < next || (Reserved(vm, v) && !(v / 512 == pos / 512 && Cut(vm, pos, e, v / 512))))
            && (Lazy(vm', v / 512) <==> if v / 512 == pos / 512 then Spanned(vm1, pos, e) else Lazy(vm, v / 512))
  {
    WithL2Same(vm, pos / 0x4_0000);
    assert pos / 512 / 512 == pos / 0x4_0000 && pos / 0x4_0000 / 512 == pos / 0x800_0000;
  }

  /** Reserving [s, e) reserves those pages and unreserves the rest of each block it
      cuts; frames behind pages stay. Afterwards the range's lazy blocks are exactly the
      whole blocks in it that had no level-1 table. */
  lemma {:induction false} AllocEffect(vm: Vm, s: int, e: int, v: int)
    requires Shape(vm) && SlotsPresent(vm, s, e)
    ensures var (res, vm') := AllocFrom(vm, s, e);
            && res == 0 && Shape(vm') && vm'.mapped == vm.mapped && vm'.slots == vm.slots
            && (Reserved(vm', v) <==> s <= v < e || (Reserved(vm, v) && !Cut(vm, s, e, v / 512)))
            && (Lazy(vm', v / 512) <==> if Meets(v / 512, s, e) then Inside(v / 512, s, e) && v / 512 !in vm.l1s
                                        else Lazy(vm, v / 512))
    decreases e - s
  {
    if s < e {
      assert s / 0x800_0000 in vm.slots;
      var vm1 := WithL2(vm, s / 0x4_0000);
      var vm', next := MarkStep(vm1, s, e), if Spanned(vm1, s, e) then s + 512 else s + 1;
      MarkStepEffect(vm, s, e, v);
      AllocEffect(vm', next, e, v);
    }
  }

  /** A reservation adds exactly its own pages if and only if it cuts no lazy block. */
  lemma AllocExact(vm: Vm, s: int, e: int)
    requires Shape(vm) && SlotsPresent(vm, s, e)
    ensures (forall v :: Reserved(AllocFrom(vm, s, e).1, v) <==> s <= v < e || Reserved(vm, v))
            <==> (forall b :: !Cut(vm, s, e, b))
  {
    var vm' := AllocFrom(vm, s, e).1;
    forall v ensures Reserved(vm', v) <==> s <= v < e || (Reserved(vm, v) && !Cut(vm, s, e, v / 512)) {
      AllocEffect(vm, s, e, v);
    }
    if b :| Cut(vm, s, e, b) {
      var v := if s > 512 * b then 512 * b else 512 * b + 511;
      assert v / 512 == b && Reserved(vm, v) && !Reserved(vm', v) && !(s <= v < e);
    }
  }

  lemma SlotGap(s: int, m: int)
    requires s < m && m % 0x800_0000 == 0
    ensures s % 512 == 0 ==> m - s >= 512
  {
    var q := m / 0x800_0000;
    assert m == 512 * (0x4_0000 * q);
  }

  /** A range that runs into a level-4 slot without a table fails there: everything
      before the first such page stays reserved. */
  lemma {:induction false} AllocFailure(vm: Vm, s: int, m: int, e: int)
    requires s <= m < e && SlotsPresent(vm, s, m) && m / 0x800_0000 !in vm.slots
    requires m == s || m % 0x800_0000 == 0
    ensures AllocFrom(vm, s, e) == (1, AllocFrom(vm, s, m).1)
    decreases m - s
  {
    if s < m {
      assert s / 0x800_0000 in vm.slots;
      var vm1 := WithL2(vm, s / 0x4_0000);
      SlotGap(s, m);
      assert MarkStep(vm1, s, e) == MarkStep(vm1, s, m);
      AllocFailure(MarkStep(vm1, s, e), if Spanned(vm1, s, e) then s + 512 else s + 1, m, e);
    }
  }

  // ------------------------------------------------------------------------ release

  ghost predicate FramesPositive(vm: Vm) {
    forall v :: v in vm.mapped ==> vm.mapped[v] > 0
  }

  /** The frames behind the pages of [s, e), in page order. */
  function Released(vm: Vm, s: int, e: int): seq<int>
    decreases e - s
  {
    if s >= e then [] else (if s in vm.mapped then [vm.mapped[s]] else []) + Released(vm, s + 1, e)
  }

  /** Releasing [s, e) unreserves those pages and every lazy block it touches. */
  lemma {:induction false} FreeEffect(vm: Vm, s: int, e: int, v: int)
    requires Shape(vm) && SlotsPresent(vm, s, e)
    ensures var (res, vm') := FreeFrom(vm, s, e);
            && res == 0 && Shape(vm') && vm'.slots == vm.slots && vm'.l1s == vm.l1s && vm'.l2s == vm.l2s
            && (Reserved(vm', v) <==> Reserved(vm, v) && !(s <= v < e) && !(Lazy(vm, v / 512) && Meets(v / 512, s, e)))
            && (v in vm'.mapped <==> v in vm.mapped && !(s <= v < e))
            && (v in vm'.mapped ==> vm'.mapped[v] == vm.mapped[v])
            && (Lazy(vm', v / 512) <==> Lazy(vm, v / 512) && !Meets(v / 512, s, e))
    decreases e - s
  {
    if s < e {
      assert s / 0x800_0000 in vm.slots;
      FreeEffect(FreeOne(vm, s), s + 1, e, v);
    }
  }

  /** A release removes exactly its own pages if and only if every lazy block it touches
      lies inside it. */
  lemma FreeExact(vm: Vm, s: int, e: int)
    requires Shape(vm) && SlotsPresent(vm, s, e)
    ensures (forall v :: Reserved(FreeFrom(vm, s, e).1, v) <==> Reserved(vm, v) && !(s <= v < e))
            <==> (forall b :: !Cut(vm, s, e, b))
  {
    var vm' := FreeFrom(vm, s, e).1;
    forall v ensures Reserved(vm', v) <==> Reserved(vm, v) && !(s <= v < e) && !Cut(vm, s, e, v / 512) {
      FreeEffect(vm, s, e, v);
      assert Lazy(vm, v / 512) && Meets(v / 512, s, e) ==> s <= v < e || Cut(vm, s, e, v / 512);
    }
    if b :| Cut(vm, s, e, b) {
      var v := if s > 512 * b then 512 * b else 512 * b + 511;
      assert v / 512 == b && Reserved(vm, v) && !Reserved(vm', v) && !(s <= v < e);
    }
  }

  /** A release puts exactly the frames behind its pages on the free list, in order. */
  lemma {:induction false} FreeReturns(vm: Vm, s: int, e: int)
    requires Shape(vm) && SlotsPresent(vm, s, e) && FramesPositive(vm)
    ensures var pool := FreeFrom(vm, s, e).1.pool;
            pool.unissued == vm.pool.unissued && pool.freed == vm.pool.freed + Released(vm, s, e)
    decreases e - s
  {
    hide Shape, FreeOne, FramesPositive;
    if s < e {
      assert s / 0x800_0000 in vm.slots;
      var vm' := FreeOne(vm, s);
      FreeOneReturns(vm, s);
      FreeReturns(vm', s + 1, e);
      ReleasedSame(vm, vm', s + 1, e);
      if s in vm.mapped {
        assert vm'.pool.freed + Released(vm, s + 1, e) == vm.pool.freed + ([vm.mapped[s]] + Released(vm, s + 1, e));
      }
    }
  }

  lemma FreeOneReturns(vm: Vm, s: int)
    requires Shape(vm) && FramesPositive(vm)
    ensures var vm' := FreeOne(vm, s);
            && Shape(vm') && FramesPositive(vm') && vm'.slots == vm.slots
            && vm'.pool.unissued == vm.pool.unissued
            && vm'.pool.freed == vm.pool.freed + (if s in vm.mapped then [vm.mapped[s]] else [])
            && forall v :: v != s ==>
                 (v in vm'.mapped <==> v in vm.mapped) && (v in vm.mapped ==> vm'.mapped[v] == vm.mapped[v])
  {}

  lemma {:induction false} ReleasedSame(vm: Vm, vm': Vm, s: int, e: int)
    requires forall v :: s <= v < e ==> (v in vm.mapped <==> v in vm'.mapped)
    requires forall v :: s <= v < e && v in vm.mapped ==> vm.mapped[v] == vm'.mapped[v]
    ensures Released(vm, s, e) == Released(vm', s, e)
    decreases e - s
  {
    if s < e { ReleasedSame(vm, vm', s + 1, e); }
  }

  // -------------------------------------------------------------------- page faults

  /** A fault is accepted on a reserved page unless its block is lazily reserved and word
      0 of memory carries no mark. */
  lemma AcceptsAt(vm: Vm, v: int, low: int)
    requires Shape(vm)
    ensures Accepts(vm, v, low) <==> Reserved(vm, v) && (low != 0 || !Lazy(vm, v / 512))
  {
    assert v / 512 / 512 == v / 0x4_0000 && v / 0x4_0000 / 512 == v / 0x800_0000;
  }

  /** So a fault is accepted exactly on reserved pages if and only if word 0 of memory
      looks marked or no block is lazily reserved. */
  lemma AcceptsExact(vm: Vm, low: int)
    requires Shape(vm)
    ensures (forall v :: Accepts(vm, v, low) <==> Reserved(vm, v))
            <==> (low != 0 || forall b :: !Lazy(vm, b))
  {
    forall v ensures Accepts(vm, v, low) <==> Reserved(vm, v) && (low != 0 || !Lazy(vm, v / 512)) {
      AcceptsAt(vm, v, low);
    }
    if b :| Lazy(vm, b) {
      var v := 512 * b;
      assert v / 512 == b && Reserved(vm, v);
    }
  }

  /** The frame a fault puts behind its page. */
  function FaultFrame(vm: Vm, v: int): int {
    Next(if v / 512 in vm.l1s then vm.pool else Take(vm.pool))
  }

  /** An accepted fault changes no reservation, builds at most the one missing table and
      adds one mapping. */
  lemma FaultEffect(vm: Vm, v: int, w: int)
    requires Shape(vm) && Reserved(vm, v)
    ensures var vm' := Fault(vm, v);
            && Shape(vm') && vm'.slots == vm.slots && vm'.l2s == vm.l2s
            && vm'.mapped == vm.mapped[v := FaultFrame(vm, v)]
            && vm'.l1s.Keys == vm.l1s.Keys + {v / 512}
            && (Reserved(vm', w) <==> Reserved(vm, w))
            && (Lazy(vm', w) <==> Lazy(vm, w) && w != v / 512)
  {
  }
}
