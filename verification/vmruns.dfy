/** Whole runs of the virtual memory system: frame roles, live ranges, and what a
    reserve-touch-release cycle leaves behind. */
module VmRuns {
  import opened Frames
  import opened PageTree
  import opened Vm
  import opened VmSteps
  import opened VmLaws

  // -------------------------------------------------------------------- frame roles

  /** Frame f is held at this level. */
  ghost predicate HeldAs(vm: Vm, kind: Kind, f: int) {
    exists k :: k in Holders(vm, kind) && Holders(vm, kind)[k] == f
  }

  ghost predicate IsTable(vm: Vm, f: int) {
    exists kind: Kind :: kind != Data && HeldAs(vm, kind, f)
  }

  lemma HolderRole(vm: Vm, roles: Roles, kind: Kind, f: int)
    requires Accounts(vm, roles)
    ensures HeldAs(vm, kind, f) <==> f in roles && roles[f].Held? && roles[f].kind == kind
  {
    assert OwnedAt(vm, roles, kind);
  }

  /** Every accounted frame is in exactly one of four roles (never issued, free, a page
      table, behind a page), and a frame behind a page is behind that page only. */
  lemma OneRole(vm: Vm, roles: Roles, f: int)
    requires Accounts(vm, roles) && f in roles
    ensures f in vm.pool.unissued || f in vm.pool.freed || IsTable(vm, f) || HeldAs(vm, Data, f)
    ensures f in vm.pool.unissued ==> f !in vm.pool.freed && !IsTable(vm, f) && !HeldAs(vm, Data, f)
    ensures f in vm.pool.freed ==> !IsTable(vm, f) && !HeldAs(vm, Data, f)
    ensures IsTable(vm, f) ==> !HeldAs(vm, Data, f)
    ensures forall v, w :: v in vm.mapped && w in vm.mapped && vm.mapped[v] == f == vm.mapped[w] ==> v == w
  {
    forall kind: Kind ensures HeldAs(vm, kind, f) <==> roles[f].Held? && roles[f].kind == kind {
      HolderRole(vm, roles, kind, f);
    }
    if roles[f].Held? { assert HeldAs(vm, roles[f].kind, f); }
    assert OwnedAt(vm, roles, Data) && Holders(vm, Data) == vm.mapped;
  }

  /** The frames left plus the frames in use below level 3. */
  function Balance(vm: Vm): nat {
    Available(vm.pool) + TableCount(vm) + |vm.mapped|
  }

  /** vm' accounts for the same frames as vm, under the roles roles'. */
  ghost predicate Follows(vm: Vm, roles: Roles, vm': Vm, roles': Roles) {
    Accounts(vm', roles') && roles'.Keys == roles.Keys && Balance(vm') == Balance(vm)
  }

  lemma GrantFollows(vm: Vm, roles: Roles, kind: Kind, key: int, vm': Vm)
    requires Accounts(vm, roles) && Available(vm.pool) > 0
    requires kind != Root && kind != Slot
    requires key !in Holders(vm, kind) && vm'.pool == Take(vm.pool)
    requires Holders(vm', kind) == Holders(vm, kind)[key := Next(vm.pool)]
    requires forall other: Kind :: other != kind ==> Holders(vm', other) == Holders(vm, other)
    ensures Follows(vm, roles, vm', Granted(vm, roles, kind, key)) && Next(vm.pool) > 0
  {
    NextIsIdle(vm, roles);
    Grant(vm, roles, kind, key, vm');
    assert |Holders(vm', kind)| == |Holders(vm, kind)| + 1;
    assert Holders(vm', L2) == vm'.l2s && Holders(vm', L1) == vm'.l1s && Holders(vm', Data) == vm'.mapped;
    assert Holders(vm, L2) == vm.l2s && Holders(vm, L1) == vm.l1s && Holders(vm, Data) == vm.mapped;
  }

  lemma MarkFollows(vm: Vm, roles: Roles, vm': Vm)
    requires Accounts(vm, roles)
    requires vm' == vm.(blocks := vm'.blocks, pages := vm'.pages)
    ensures Follows(vm, roles, vm', roles)
  {
    SameAccounts(vm, vm', roles);
  }

  lemma MarkStepFollows(vm: Vm, roles: Roles, pos: int, e: int) returns (roles': Roles)
    requires Accounts(vm, roles)
    requires !Spanned(vm, pos, e) && pos / 512 !in vm.l1s ==> Available(vm.pool) > 0
    ensures Follows(vm, roles, MarkStep(vm, pos, e), roles')
  {
    var b, vm1 := pos / 512, vm;
    roles' := roles;
    if !Spanned(vm, pos, e) && b !in vm.l1s {
      vm1, roles' := AddL1(vm, b), Granted(vm, roles, L1, b);
      GrantFollows(vm, roles, L1, b, vm1);
    }
    MarkFollows(vm1, roles', MarkStep(vm, pos, e));
  }

  /** A reservation whose demand is covered keeps the roles and the balance. */
  lemma {:induction false} AllocFollows(vm: Vm, roles: Roles, s: int, e: int) returns (roles': Roles)
    requires Accounts(vm, roles) && Available(vm.pool) >= Demand(vm, s, e)
    ensures Follows(vm, roles, AllocFrom(vm, s, e).1, roles')
    decreases e - s
  {
    if s >= e || s / 0x800_0000 !in vm.slots { return roles; }
    DemandStep(vm, s, e);
    var c := s / 0x4_0000;
    var vm1, r1 := WithL2(vm, c), roles;
    if c !in vm.l2s {
      r1 := Granted(vm, roles, L2, c);
      GrantFollows(vm, roles, L2, c, vm1);
    }
    var r2 := MarkStepFollows(vm1, r1, s, e);
    roles' := AllocFollows(MarkStep(vm1, s, e), r2, if Spanned(vm1, s, e) then s + 512 else s + 1, e);
  }

  lemma FreeOneFollows(vm: Vm, roles: Roles, v: int) returns (roles': Roles)
    requires Accounts(vm, roles)
    ensures Follows(vm, roles, FreeOne(vm, v), roles')
  {
    if v / 512 in vm.l1s && v in vm.mapped {
      assert OwnedAt(vm, roles, Data);
      assert vm.mapped[v] in roles && vm.mapped[v] > 0;
      Return(vm, roles, v);
      assert vm.mapped == (vm.mapped - {v})[v := vm.mapped[v]];
      return Returned(vm, roles, v);
    }
    if v !in vm.mapped { assert vm.mapped - {v} == vm.mapped; }
    MarkFollows(vm, roles, FreeOne(vm, v));
    return roles;
  }

  lemma {:induction false} FreeFollows(vm: Vm, roles: Roles, s: int, e: int) returns (roles': Roles)
    requires Accounts(vm, roles)
    ensures Follows(vm, roles, FreeFrom(vm, s, e).1, roles')
    decreases e - s
  {
    if s >= e || s / 0x800_0000 !in vm.slots { return roles; }
    var r1 := FreeOneFollows(vm, roles, s);
    roles' := FreeFollows(FreeOne(vm, s), r1, s + 1, e);
  }

  /** The frames a fault takes. */
  function FaultNeeds(vm: Vm, v: int): nat { if v / 512 in vm.l1s then 1 else 2 }

  lemma BackFollows(vm: Vm, roles: Roles, v: int)
    requires Accounts(vm, roles) && v !in vm.mapped && Available(vm.pool) > 0
    ensures Follows(vm, roles, Back(vm, v), Granted(vm, roles, Data, v)) && Next(vm.pool) > 0
  {
    GrantFollows(vm, roles, Data, v, Back(vm, v));
  }

  lemma ExpandFollows(vm: Vm, roles: Roles, b: int)
    requires Accounts(vm, roles) && b !in vm.l1s && Available(vm.pool) > 0
    ensures Follows(vm, roles, Expand(vm, b), Granted(vm, roles, L1, b))
  {
    GrantFollows(vm, roles, L1, b, Expand(vm, b));
  }

  lemma FaultFollows(vm: Vm, roles: Roles, v: int) returns (roles': Roles)
    requires Accounts(vm, roles) && v !in vm.mapped && Available(vm.pool) >= FaultNeeds(vm, v)
    ensures Follows(vm, roles, Fault(vm, v), roles') && FaultFrame(vm, v) > 0
  {
    if v / 512 in vm.l1s {
      BackFollows(vm, roles, v);
      return Granted(vm, roles, Data, v);
    }
    var vm1, r1 := Expand(vm, v / 512), Granted(vm, roles, L1, v / 512);
    ExpandFollows(vm, roles, v / 512);
    BackFollows(vm1, r1, v);
    return Granted(vm1, r1, Data, v);
  }

  /** Backing a page keeps some assignment of roles if and only if a frame was left:
      without one the handler maps frame 0. */
  lemma BackNeedsAFrame(vm: Vm, roles: Roles, v: int)
    requires Accounts(vm, roles) && v !in vm.mapped
    ensures (exists roles' :: Accounts(Back(vm, v), roles')) <==> Available(vm.pool) > 0
  {
    var vm' := Back(vm, v);
    if Available(vm.pool) > 0 {
      Grant(vm, roles, Data, v, vm');
      assert Accounts(vm', Granted(vm, roles, Data, v));
    } else {
      forall roles' ensures !Accounts(vm', roles') {
        assert vm'.mapped[v] == 0 && v in Holders(vm', Data);
        if OwnedAt(vm', roles', Data) { assert 0 in roles'; }
      }
    }
  }

  // ------------------------------------------------------ reserve, touch and release

  function FaultAll(vm: Vm, vs: seq<int>): Vm {
    if vs == [] then vm else Fault(FaultAll(vm, vs[..|vs| - 1]), vs[|vs| - 1])
  }

  /** Touching reserved pages, in any order, changes no reservation and maps exactly
      those pages; blocks only stop being lazy. */
  lemma {:induction false} FaultAllEffect(vm: Vm, vs: seq<int>, w: int)
    requires Shape(vm) && forall v :: v in vs ==> Reserved(vm, v)
    ensures var vm' := FaultAll(vm, vs);
            && Shape(vm') && vm'.slots == vm.slots && vm'.l2s == vm.l2s && vm.l1s.Keys <= vm'.l1s.Keys
            && (Reserved(vm', w) <==> Reserved(vm, w))
            && (Lazy(vm', w) ==> Lazy(vm, w))
            && (w in vm'.mapped <==> w in vm.mapped || w in vs)
            && (w in vm.mapped && w !in vs ==> vm'.mapped[w] == vm.mapped[w])
  {
    if vs != [] {
      var init, last := vs[..|vs| - 1], vs[|vs| - 1];
      assert vs == init + [last];
      FaultAllEffect(vm, init, w);
      FaultAllEffect(vm, init, last);
      FaultEffect(FaultAll(vm, init), last, w);
      assert last in vs;
    }
  }

  /** No block reaching into an unreserved range is lazy. */
  lemma UnreservedNotLazy(vm: Vm, s: int, e: int, b: int)
    requires forall v :: s <= v < e ==> !Reserved(vm, v)
    ensures Lazy(vm, b) ==> !Meets(b, s, e)
  {
    if Lazy(vm, b) && Meets(b, s, e) {
      var v := if s > 512 * b then s else 512 * b;
      assert v / 512 == b && Reserved(vm, v);
    }
  }

  /** Page v is reserved and mapped in vm' as it is in vm. */
  ghost predicate SamePage(vm: Vm, vm': Vm, v: int) {
    && (Reserved(vm', v) <==> Reserved(vm, v))
    && (v in vm'.mapped <==> v in vm.mapped)
    && (v in vm.mapped ==> vm'.mapped[v] == vm.mapped[v])
  }

  lemma SamePages(vm: Vm, vm': Vm)
    requires forall v :: SamePage(vm, vm', v)
    ensures vm'.mapped == vm.mapped
    ensures forall v :: Reserved(vm', v) <==> Reserved(vm, v)
  {
    forall v ensures (v in vm'.mapped <==> v in vm.mapped) && (v in vm.mapped ==> vm'.mapped[v] == vm.mapped[v]) {
      assert SamePage(vm, vm', v);
    }
    forall v ensures Reserved(vm', v) <==> Reserved(vm, v) {
      assert SamePage(vm, vm', v);
    }
  }

  /** The round trip at one page. */
  lemma RoundTripAt(vm: Vm, s: int, e: int, vs: seq<int>, v: int)
    requires Shape(vm) && SlotsPresent(vm, s, e)
    requires forall w :: s <= w < e ==> !Reserved(vm, w)
    requires forall w :: w in vs ==> s <= w < e
    ensures var vm1 := AllocFrom(vm, s, e).1;
            var vm2 := FaultAll(vm1, vs);
            var vm3 := FreeFrom(vm2, s, e).1;
            && SamePage(vm, vm3, v)
            && (s <= v < e ==> (v in vm2.mapped <==> v in vs))
            && vm3.l2s == vm1.l2s && vm3.l1s == vm2.l1s
  {
    var vm1 := AllocFrom(vm, s, e).1;
    AllocEffect(vm, s, e, v);
    forall w | w in vs ensures Reserved(vm1, w) { AllocEffect(vm, s, e, w); }
    var vm2 := FaultAll(vm1, vs);
    FaultAllEffect(vm1, vs, v);
    FaultAllEffect(vm1, vs, v / 512);
    FreeEffect(vm2, s, e, v);
    UnreservedNotLazy(vm, s, e, v / 512);
    assert v in vm.mapped ==> Reserved(vm, v);
  }

  /** Reserving a range none of whose pages is reserved, touching any of its pages in any
      order, then releasing it restores every reservation and mapping; only level-2 and
      level-1 tables may stay behind. */
  lemma RoundTrip(vm: Vm, s: int, e: int, vs: seq<int>)
    requires Shape(vm) && SlotsPresent(vm, s, e)
    requires forall v :: s <= v < e ==> !Reserved(vm, v)
    requires forall v :: v in vs ==> s <= v < e
    ensures var vm1 := AllocFrom(vm, s, e).1;
            var vm2 := FaultAll(vm1, vs);
            var vm3 := FreeFrom(vm2, s, e).1;
            && (forall v :: Reserved(vm3, v) <==> Reserved(vm, v))
            && vm3.mapped == vm.mapped && vm3.l2s == vm1.l2s && vm3.l1s == vm2.l1s
            && forall v :: s <= v < e ==> (v in vm2.mapped <==> v in vs)
  {
    var vm1 := AllocFrom(vm, s, e).1;
    var vm2 := FaultAll(vm1, vs);
    var vm3 := FreeFrom(vm2, s, e).1;
    forall v ensures SamePage(vm, vm3, v) { RoundTripAt(vm, s, e, vs, v); }
    forall v | s <= v < e ensures v in vm2.mapped <==> v in vs { RoundTripAt(vm, s, e, vs, v); }
    RoundTripAt(vm, s, e, vs, s);
    SamePages(vm, vm3);
  }

  lemma {:induction false} FaultAllFollows(vm: Vm, roles: Roles, vs: seq<int>) returns (roles': Roles)
    requires Accounts(vm, roles) && Shape(vm) && NoRepeat(vs)
    requires forall v :: v in vs ==> Reserved(vm, v) && v !in vm.mapped
    requires Available(vm.pool) >= TableCount(FaultAll(vm, vs)) - TableCount(vm) + |vs|
    ensures Follows(vm, roles, FaultAll(vm, vs), roles')
    ensures |FaultAll(vm, vs).mapped| == |vm.mapped| + |vs|
  {
    if vs == [] { return roles; }
    var init, last := vs[..|vs| - 1], vs[|vs| - 1];
    var vm1 := FaultAll(vm, init);
    assert last !in init;
    assert TableCount(FaultAll(vm, vs)) == TableCount(vm1) + if last / 512 in vm1.l1s then 0 else 1;
    var r1 := FaultAllFollows(vm, roles, init);
    FaultAllEffect(vm, init, last);
    roles' := FaultFollows(vm1, r1, last);
  }

  /** The pages of [s, e) that have a frame each give back exactly that frame. */
  lemma {:induction false} ReleasedAre(vm: Vm, s: int, e: int, f: int)
    ensures f in Released(vm, s, e) <==> exists v :: s <= v < e && v in vm.mapped && vm.mapped[v] == f
    decreases e - s
  {
    if s < e {
      ReleasedAre(vm, s + 1, e, f);
      var here := if s in vm.mapped then [vm.mapped[s]] else [];
      assert f in Released(vm, s, e) <==> f in here || f in Released(vm, s + 1, e);
    }
  }

  /** The round trip gives back exactly the frames it put behind pages: the free list
      grows by them, and the frames left are what they were but for the new tables. */
  lemma RoundTripFrames(vm: Vm, roles: Roles, s: int, e: int, vs: seq<int>)
    requires Shape(vm) && SlotsPresent(vm, s, e) && Accounts(vm, roles) && NoRepeat(vs)
    requires forall v :: s <= v < e ==> !Reserved(vm, v)
    requires forall v :: v in vs ==> s <= v < e
    requires var vm2 := FaultAll(AllocFrom(vm, s, e).1, vs);
             Available(vm.pool) >= TableCount(vm2) - TableCount(vm) + |vs|
    ensures var vm2 := FaultAll(AllocFrom(vm, s, e).1, vs);
            var vm3 := FreeFrom(vm2, s, e).1;
            && vm3.pool.unissued == vm2.pool.unissued
            && vm3.pool.freed == vm2.pool.freed + Released(vm2, s, e)
            && (forall f :: f in Released(vm2, s, e) <==> exists v :: v in vs && v in vm2.mapped && vm2.mapped[v] == f)
            && Available(vm3.pool) == Available(vm.pool) - (TableCount(vm3) - TableCount(vm))
  {
    hide AllocFrom, FreeFrom, FaultAll, Released;
    var vm1 := AllocFrom(vm, s, e).1;
    var vm2 := FaultAll(vm1, vs);
    var vm3 := FreeFrom(vm2, s, e).1;
    forall v | v in vs ensures Reserved(vm1, v) && v !in vm1.mapped {
      AllocEffect(vm, s, e, v);
      assert v in vm.mapped ==> Reserved(vm, v);
    }
    AllocEffect(vm, s, e, s);
    FaultAllGrows(vm1, vs);
    var r1 := AllocFollows(vm, roles, s, e);
    var r2 := FaultAllFollows(vm1, r1, vs);
    var r3 := FreeFollows(vm2, r2, s, e);
    assert OwnedAt(vm2, r2, Data);
    FaultAllEffect(vm1, vs, s);
    FreeReturns(vm2, s, e);
    FreeEffect(vm2, s, e, s);
    RoundTrip(vm, s, e, vs);
    forall f ensures f in Released(vm2, s, e) <==> exists v :: v in vs && v in vm2.mapped && vm2.mapped[v] == f {
      ReleasedAre(vm2, s, e, f);
    }
  }

  lemma {:induction false} FaultAllGrows(vm: Vm, vs: seq<int>)
    ensures TableCount(FaultAll(vm, vs)) >= TableCount(vm)
  {
    if vs != [] { FaultAllGrows(vm, vs[..|vs| - 1]); }
  }
}
