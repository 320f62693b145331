/** Each change the kernel makes to the page tables in memory is the corresponding
    change of the address space, and keeps every frame in exactly one role. */
module VmSteps {
  import opened Memory
  import opened Frames
  import opened PageTree
  import opened Vm

  // ------------------------------------------------------------------------- memory

  /** A frame used as something else than a table of this level is none of its tables. */
  lemma NotATableOf(vm: Vm, roles: Roles, g: int, kind: Kind)
    requires Accounts(vm, roles)
    requires g in roles ==> !(roles[g].Held? && roles[g].kind == kind)
    ensures g !in Walked(vm, kind).Values
  {
    assert OwnedAt(vm, roles, kind);
    forall k | k in Walked(vm, kind) ensures Walked(vm, kind)[k] != g {}
  }

  /** The table frame that holds entry n of a level. */
  lemma TableOf(words: Words, vm: Vm, roles: Roles, kind: Kind, n: int)
    requires Represents(words, vm) && Accounts(vm, roles)
    requires kind != Data && n / 512 in Walked(vm, kind)
    ensures var g := Walked(vm, kind)[n / 512];
            && g in roles && roles[g] == Held(kind, n / 512) && Backed(words, g)
            && Agrees(words[g][n % 512], Holders(vm, Lower(kind)), Marks(vm, kind), n)
    ensures Injective(Walked(vm, kind))
  {
    assert OwnedAt(vm, roles, kind);
    assert LevelAt(words, vm, kind);
    assert Agrees(EntryOf(words, Walked(vm, kind), n), Holders(vm, Lower(kind)), Marks(vm, kind), n);
  }

  /** Changing a frame that is not one of a level's tables leaves the level alone. */
  lemma Elsewhere(words: Words, vm: Vm, kind: Kind, g: int, content: seq<Entry>)
    requires LevelAt(words, vm, kind) && g !in Walked(vm, kind).Values
    ensures LevelAt(words[g := content], vm, kind)
  {
    var t := Walked(vm, kind);
    forall k | k in t ensures t[k] != g { assert t[k] in t.Values; }
    LevelFrame(words, words[g := content], t, Holders(vm, Lower(kind)), Marks(vm, kind));
  }

  /** Rewriting a frame that no level uses as a table. */
  lemma NotATable(words: Words, vm: Vm, roles: Roles, g: int, content: seq<Entry>)
    requires Represents(words, vm) && Accounts(vm, roles)
    requires g in roles ==> !roles[g].Held? || roles[g].kind == Data
    ensures Represents(words[g := content], vm)
  {
    var words' := words[g := content];
    forall kind: Kind | kind != Data ensures LevelAt(words', vm, kind) {
      NotATableOf(vm, roles, g, kind);
      Elsewhere(words, vm, kind, g, content);
    }
  }

  /** This level looks the same in vm and vm'. */
  ghost predicate SameLevel(vm: Vm, vm': Vm, kind: Kind) {
    && Walked(vm', kind) == Walked(vm, kind)
    && Holders(vm', Lower(kind)) == Holders(vm, Lower(kind))
    && Marks(vm', kind) == Marks(vm, kind)
  }

  /** Rewriting entry n of one level: every other level either looks the same in vm' or
      is already there in memory. */
  lemma WriteEntry(words: Words, vm: Vm, kind: Kind, n: int, e: Entry, vm': Vm)
    requires kind != Data && n / 512 in Walked(vm, kind) && Injective(Walked(vm, kind))
    requires LevelAt(words, vm, kind) && Walked(vm', kind) == Walked(vm, kind)
    requires Holders(vm', Lower(kind)) ==
             if e.p then Holders(vm, Lower(kind))[n := e.base] else Holders(vm, Lower(kind)) - {n}
    requires Marks(vm', kind) == if e.avl != 0 then Marks(vm, kind) + {n} else Marks(vm, kind) - {n}
    requires forall other: Kind :: other != Data && other != kind ==>
               LevelAt(words, vm', other) && Walked(vm, kind)[n / 512] !in Walked(vm', other).Values
    requires vm'.l1s.Keys <= vm'.blocks
    ensures Backed(words, Walked(vm, kind)[n / 512])
    ensures Represents(Store(words, Walked(vm, kind)[n / 512], n % 512, e), vm')
  {
    var g := Walked(vm, kind)[n / 512];
    var words' := Store(words, g, n % 512, e);
    forall other: Kind | other != Data ensures LevelAt(words', vm', other) {
      if other == kind {
        LevelWrite(words, Walked(vm, kind), Holders(vm, Lower(kind)), Marks(vm, kind), n, e);
      } else {
        Elsewhere(words, vm', other, g, words[g][n % 512 := e]);
      }
    }
  }

  /** Rewriting entry n without adding or removing a table. */
  lemma Rewrite(words: Words, vm: Vm, roles: Roles, kind: Kind, n: int, e: Entry, vm': Vm)
    requires Represents(words, vm) && Accounts(vm, roles)
    requires kind != Data && n / 512 in Walked(vm, kind)
    requires forall other: Kind :: other != kind && other != Data ==> SameLevel(vm, vm', other)
    requires Walked(vm', kind) == Walked(vm, kind)
    requires Holders(vm', Lower(kind)) ==
             if e.p then Holders(vm, Lower(kind))[n := e.base] else Holders(vm, Lower(kind)) - {n}
    requires Marks(vm', kind) == if e.avl != 0 then Marks(vm, kind) + {n} else Marks(vm, kind) - {n}
    requires vm'.l1s.Keys <= vm'.blocks
    ensures Backed(words, Walked(vm, kind)[n / 512])
    ensures Represents(Store(words, Walked(vm, kind)[n / 512], n % 512, e), vm')
  {
    var g := Walked(vm, kind)[n / 512];
    TableOf(words, vm, roles, kind, n);
    assert LevelAt(words, vm, kind);
    forall other: Kind | other != Data && other != kind
      ensures LevelAt(words, vm', other) && g !in Walked(vm', other).Values
    {
      assert LevelAt(words, vm, other) && SameLevel(vm, vm', other);
      NotATableOf(vm, roles, g, other);
    }
    WriteEntry(words, vm, kind, n, e, vm');
  }

  /** Linking a new table, frame f filled with copies of fill, from entry n. */
  lemma LinkTable(words: Words, vm: Vm, roles: Roles, kind: Kind, n: int, f: int, fill: Entry, e: Entry, vm': Vm)
    requires Represents(words, vm) && Accounts(vm, roles)
    requires (kind == Slot || kind == L2) && n / 512 in Walked(vm, kind) && n !in Holders(vm, Lower(kind))
    requires f in roles && !roles[f].Held? && !fill.p && e.p && e.base == f
    requires forall other: Kind :: other != kind && other != Lower(kind) ==> SameLevel(vm, vm', other)
    requires Walked(vm', kind) == Walked(vm, kind)
    requires Holders(vm', Lower(kind)) == Holders(vm, Lower(kind))[n := f]
    requires Marks(vm', kind) == if e.avl != 0 then Marks(vm, kind) + {n} else Marks(vm, kind) - {n}
    requires Holders(vm', Lower(Lower(kind))) == Holders(vm, Lower(Lower(kind)))
    requires Marks(vm', Lower(kind)) ==
             if fill.avl != 0 then Marks(vm, Lower(kind)) + Under(n) else Marks(vm, Lower(kind))
    requires vm'.l1s.Keys <= vm'.blocks
    ensures var g := Walked(vm, kind)[n / 512];
            && g != f && Backed(words, g)
            && Represents(Store(words[f := Filled(fill)], g, n % 512, e), vm')
  {
    var g, w1 := Walked(vm, kind)[n / 512], words[f := Filled(fill)];
    TableOf(words, vm, roles, kind, n);
    NotATable(words, vm, roles, f, Filled(fill));
    NotATableOf(vm, roles, f, Lower(kind));
    assert LevelAt(words, vm, Lower(kind)) && LevelAt(w1, vm, kind);
    LevelGrow(words, Holders(vm, Lower(kind)), Holders(vm, Lower(Lower(kind))), Marks(vm, Lower(kind)), n, f, fill);
    forall other: Kind | other != Data && other != kind
      ensures LevelAt(w1, vm', other) && g !in Walked(vm', other).Values
    {
      assert LevelAt(w1, vm, other);
      NotATableOf(vm, roles, g, other);
      assert other != Lower(kind) ==> SameLevel(vm, vm', other);
    }
    WriteEntry(w1, vm, kind, n, e, vm');
  }

  // -------------------------------------------------------------------------- roles

  /** The roles once the next frame is handed out as kind under key. */
  function Granted(vm: Vm, roles: Roles, kind: Kind, key: int): Roles {
    roles[Next(vm.pool) := Held(kind, key)]
  }

  /** Handing out the next frame under a new key. */
  lemma Grant(vm: Vm, roles: Roles, kind: Kind, key: int, vm': Vm)
    requires Accounts(vm, roles) && Available(vm.pool) > 0
    requires key !in Holders(vm, kind) && vm'.pool == Take(vm.pool)
    requires Holders(vm', kind) == Holders(vm, kind)[key := Next(vm.pool)]
    requires forall other: Kind :: other != kind ==> Holders(vm', other) == Holders(vm, other)
    ensures Accounts(vm', Granted(vm, roles, kind, key))
  {
    var f, roles' := Next(vm.pool), Granted(vm, roles, kind, key);
    NextIsIdle(vm, roles);
    TakeKeeps(vm, roles, kind, key);
    forall other: Kind ensures OwnedAt(vm', roles', other) {
      assert OwnedAt(vm, roles, other);
      if other == kind {
        OwnedAdd(roles, Holders(vm, kind), kind, key, f);
      } else {
        OwnedOther(roles, Holders(vm, other), other, f, Held(kind, key));
      }
    }
  }

  /** Roles depend only on the pool and on the frames held. */
  lemma SameAccounts(vm: Vm, vm': Vm, roles: Roles)
    requires Accounts(vm, roles) && vm'.pool == vm.pool
    requires forall kind: Kind :: Holders(vm', kind) == Holders(vm, kind)
    ensures Accounts(vm', roles)
  {
    forall kind: Kind ensures OwnedAt(vm', roles, kind) { assert OwnedAt(vm, roles, kind); }
  }

  /** The roles once the frame behind page v, if any, is back on the free list. */
  function Returned(vm: Vm, roles: Roles, v: int): Roles {
    if v in vm.mapped then roles[vm.mapped[v] := Freed] else roles
  }

  lemma Return(vm: Vm, roles: Roles, v: int)
    requires Accounts(vm, roles) && v in vm.mapped
    ensures Accounts(ClearPage(vm, v), Returned(vm, roles, v))
  {
    var f, roles', vm' := vm.mapped[v], Returned(vm, roles, v), ClearPage(vm, v);
    assert OwnedAt(vm, roles, Data);
    assert f in roles && roles[f] == Held(Data, v) && f > 0;
    forall kind: Kind ensures OwnedAt(vm', roles', kind) {
      assert OwnedAt(vm, roles, kind);
      if kind != Data { OwnedOther(roles, Holders(vm, kind), kind, f, Freed); }
    }
    IdleOther(roles, vm.pool.unissued, Unissued, f, Freed);
    assert vm'.pool.freed == vm.pool.freed + [f];
    assert f !in vm.pool.freed;
    assert Idle(roles', vm'.pool.freed, Freed);
  }

  lemma BackedStore(words: Words, roles: Roles, g: int, i: int, e: Entry, x: int, role: Role)
    requires AllBacked(words, roles) && Backed(words, g) && 0 <= i < 512 && x in roles
    ensures AllBacked(Store(words, g, i, e), roles)
    ensures AllBacked(Store(words, g, i, e), roles[x := role])
  {
  }

  lemma BackedFill(words: Words, roles: Roles, f: int, e: Entry)
    requires AllBacked(words, roles)
    ensures AllBacked(words[f := Filled(e)], roles)
  {
  }

  // -------------------------------------------------------------------- small steps

  /** A new zeroed level-2 table, linked from the level-3 entry of region c. */
  lemma AddL2Keeps(words: Words, vm: Vm, roles: Roles, c: int, e: Entry)
    requires Inv(words, vm, roles) && Available(vm.pool) > 0
    requires c !in vm.l2s && c / 512 in Upper(vm)
    requires e.p && e.base == Next(vm.pool) && e.avl == 0
    ensures var f, g := Next(vm.pool), Upper(vm)[c / 512];
            && f != g && Backed(words, g)
            && Inv(Store(words[f := Filled(ZERO)], g, c % 512, e), AddL2(vm, c), Granted(vm, roles, L2, c))
  {
    var f, vm' := Next(vm.pool), AddL2(vm, c);
    NextIsIdle(vm, roles);
    LinkTable(words, vm, roles, Slot, c, f, ZERO, e, vm');
    Grant(vm, roles, L2, c, vm');
    BackedFill(words, roles, f, ZERO);
    BackedStore(words[f := Filled(ZERO)], roles, Upper(vm)[c / 512], c % 512, e, f, Held(L2, c));
  }

  /** A new level-1 table, linked from the level-2 entry of block b: zeroed by an
      allocation that does not span the block. */
  lemma AddL1Keeps(words: Words, vm: Vm, roles: Roles, b: int, e: Entry)
    requires Inv(words, vm, roles) && Available(vm.pool) > 0
    requires b !in vm.l1s && b / 512 in vm.l2s
    requires e.p && e.base == Next(vm.pool) && e.avl != 0
    ensures var f, g := Next(vm.pool), vm.l2s[b / 512];
            && f != g && Backed(words, g)
            && Inv(Store(words[f := Filled(ZERO)], g, b % 512, e), AddL1(vm, b), Granted(vm, roles, L1, b))
  {
    var f, vm' := Next(vm.pool), AddL1(vm, b);
    NextIsIdle(vm, roles);
    LinkTable(words, vm, roles, L2, b, f, ZERO, e, vm');
    Grant(vm, roles, L1, b, vm');
    BackedFill(words, roles, f, ZERO);
    BackedStore(words[f := Filled(ZERO)], roles, vm.l2s[b / 512], b % 512, e, f, Held(L1, b));
  }

  /** The fully marked table the fault handler builds for a lazily reserved block. */
  lemma ExpandKeeps(words: Words, vm: Vm, roles: Roles, b: int, fill: Entry, e: Entry)
    requires Inv(words, vm, roles) && Available(vm.pool) > 0
    requires Lazy(vm, b) && b / 512 in vm.l2s
    requires e.p && e.base == Next(vm.pool) && e.avl != 0 && !fill.p && fill.avl != 0
    ensures var f, g := Next(vm.pool), vm.l2s[b / 512];
            && f != g && Backed(words, g)
            && Inv(Store(words[f := Filled(fill)], g, b % 512, e), Expand(vm, b), Granted(vm, roles, L1, b))
  {
    var f, vm' := Next(vm.pool), Expand(vm, b);
    NextIsIdle(vm, roles);
    assert vm.blocks == vm.blocks + {b};
    LinkTable(words, vm, roles, L2, b, f, fill, e, vm');
    Grant(vm, roles, L1, b, vm');
    BackedFill(words, roles, f, fill);
    BackedStore(words[f := Filled(fill)], roles, vm.l2s[b / 512], b % 512, e, f, Held(L1, b));
  }

  /** Setting or clearing the mark of a block without a table. */
  lemma MarkBlockKeeps(words: Words, vm: Vm, roles: Roles, b: int, e: Entry)
    requires Inv(words, vm, roles) && b !in vm.l1s && b / 512 in vm.l2s && !e.p
    ensures Backed(words, vm.l2s[b / 512])
    ensures Inv(Store(words, vm.l2s[b / 512], b % 512, e),
                if e.avl != 0 then MarkBlock(vm, b) else UnmarkBlock(vm, b), roles)
  {
    var vm' := if e.avl != 0 then MarkBlock(vm, b) else UnmarkBlock(vm, b);
    TableOf(words, vm, roles, L2, b);
    assert vm.l1s - {b} == vm.l1s;
    Rewrite(words, vm, roles, L2, b, e, vm');
    SameAccounts(vm, vm', roles);
    BackedStore(words, roles, vm.l2s[b / 512], b % 512, e, vm.l2s[b / 512], roles[vm.l2s[b / 512]]);
  }

  /** Setting or clearing the mark of page v without touching its frame. */
  lemma MarkPageKeeps(words: Words, vm: Vm, roles: Roles, v: int, e: Entry, vm': Vm)
    requires Inv(words, vm, roles) && v / 512 in vm.l1s
    requires if e.p then v in vm.mapped && e.base == vm.mapped[v] else v !in vm.mapped
    requires vm' == if e.avl != 0 then vm.(pages := vm.pages + {v}) else vm.(pages := vm.pages - {v})
    ensures Backed(words, vm.l1s[v / 512])
    ensures Inv(Store(words, vm.l1s[v / 512], v % 512, e), vm', roles)
  {
    TableOf(words, vm, roles, L1, v);
    if e.p {
      assert vm.mapped[v := e.base] == vm.mapped;
    } else {
      assert vm.mapped - {v} == vm.mapped;
    }
    Rewrite(words, vm, roles, L1, v, e, vm');
    SameAccounts(vm, vm', roles);
    BackedStore(words, roles, vm.l1s[v / 512], v % 512, e, vm.l1s[v / 512], roles[vm.l1s[v / 512]]);
  }

  /** Backing a reserved page with the next frame. */
  lemma BackKeeps(words: Words, vm: Vm, roles: Roles, v: int, e: Entry)
    requires Inv(words, vm, roles) && Available(vm.pool) > 0
    requires v / 512 in vm.l1s && v in vm.pages && v !in vm.mapped
    requires e.p && e.base == Next(vm.pool) && e.avl != 0
    ensures Backed(words, vm.l1s[v / 512])
    ensures Inv(Store(words, vm.l1s[v / 512], v % 512, e), Back(vm, v), Granted(vm, roles, Data, v))
  {
    TableOf(words, vm, roles, L1, v);
    NextIsIdle(vm, roles);
    assert vm.pages + {v} == vm.pages;
    Rewrite(words, vm, roles, L1, v, e, Back(vm, v));
    Grant(vm, roles, Data, v, Back(vm, v));
    BackedStore(words, roles, vm.l1s[v / 512], v % 512, e, Next(vm.pool), Held(Data, v));
  }

  /** Clearing a page whose frame has just been put on the free list, which wrote the
      list's link into the frame. */
  lemma ReleaseKeeps(words: Words, vm: Vm, roles: Roles, v: int, e: Entry, link: Entry)
    requires Inv(words, vm, roles)
    requires v in vm.mapped && v / 512 in vm.l1s && !e.p && e.avl == 0
    ensures var f, g := vm.mapped[v], vm.l1s[v / 512];
            && Backed(words, g) && Backed(words, f) && g != f && f > 0 && f !in vm.pool.freed
            && Inv(Store(Store(words, f, 1, link), g, v % 512, e), ClearPage(vm, v), Returned(vm, roles, v))
  {
    var f, g := vm.mapped[v], vm.l1s[v / 512];
    assert OwnedAt(vm, roles, Data);
    TableOf(words, vm, roles, L1, v);
    NotATable(words, vm, roles, f, words[f][1 := link]);
    Rewrite(Store(words, f, 1, link), vm, roles, L1, v, e, ClearPage(vm, v));
    Return(vm, roles, v);
    BackedStore(words, roles, f, 1, link, f, Freed);
    BackedStore(Store(words, f, 1, link), roles, g, v % 512, e, f, Freed);
  }
}
