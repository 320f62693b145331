/** The address space as sets and maps: what the page tables of Page.cpp stand for,
    and the effect of each change the kernel makes to them. */
module Vm {
  import opened Memory
  import opened Frames
  import opened PageTree

  /** root: the level-4 table; slots: level-3 tables by level-4 index; l2s: level-2
      tables by 1 GB region; l1s: level-1 tables by 2 MB block; blocks: blocks whose
      level-2 entry is marked; pages: pages whose own entry is marked; mapped: the
      frame behind each present page. */
  datatype Vm = Vm(pool: Pool, root: int, slots: Tables, l2s: Tables, l1s: Tables,
                   blocks: set<int>, pages: set<int>, mapped: Tables)

  /** The frames held at one level, by key. */
  function Holders(vm: Vm, kind: Kind): Tables {
    match kind
    case Root => map[0 := vm.root]
    case Slot => vm.slots
    case L2 => vm.l2s
    case L1 => vm.l1s
    case Data => vm.mapped
  }

  /** The level-3 tables the kernel walks: the identity map's slot 0 is not one. */
  function Upper(vm: Vm): Tables { vm.slots - {0} }

  /** The tables of one level that the kernel walks. */
  function Walked(vm: Vm, kind: Kind): Tables {
    if kind == Slot then Upper(vm) else Holders(vm, kind)
  }

  /** The keys whose entry at this level carries the reservation mark. */
  function Marks(vm: Vm, kind: Kind): set<int> {
    match kind
    case L2 => vm.blocks
    case L1 => vm.pages
    case _ => {}
  }

  /** The page belongs to some allocation: its own entry is marked, or its whole block
      is marked and has no level-1 table. */
  predicate Reserved(vm: Vm, v: int) {
    if v / 512 in vm.l1s then v in vm.pages else v / 512 in vm.blocks
  }

  /** A block reserved by its level-2 entry alone. */
  predicate Lazy(vm: Vm, b: int) {
    b in vm.blocks && b !in vm.l1s
  }

  // ------------------------------------------------------------------- small steps

  function AddL2(vm: Vm, c: int): Vm {
    vm.(pool := Take(vm.pool), l2s := vm.l2s[c := Next(vm.pool)])
  }

  /** A zeroed level-1 table: the block's earlier mark no longer counts. */
  function AddL1(vm: Vm, b: int): Vm {
    vm.(pool := Take(vm.pool), l1s := vm.l1s[b := Next(vm.pool)], blocks := vm.blocks + {b})
  }

  /** A level-1 table whose 512 entries are all marked. */
  function Expand(vm: Vm, b: int): Vm {
    vm.(pool := Take(vm.pool), l1s := vm.l1s[b := Next(vm.pool)], pages := vm.pages + Under(b))
  }

  function MarkBlock(vm: Vm, b: int): Vm { vm.(blocks := vm.blocks + {b}) }

  function UnmarkBlock(vm: Vm, b: int): Vm { vm.(blocks := vm.blocks - {b}) }

  function MarkPage(vm: Vm, v: int): Vm { vm.(pages := vm.pages + {v}) }

  function Back(vm: Vm, v: int): Vm {
    vm.(pool := Take(vm.pool), mapped := vm.mapped[v := Next(vm.pool)])
  }

  /** Clears the page's own entry and gives back its frame, if any. */
  function ClearPage(vm: Vm, v: int): Vm {
    vm.(pool := if v in vm.mapped then Give(vm.pool, vm.mapped[v]) else vm.pool,
        mapped := vm.mapped - {v}, pages := vm.pages - {v})
  }

  // -------------------------------------------------------------------- whole calls

  /** Adds the tables missing above page pos, as one turn of the allocation loop. */
  function WithL2(vm: Vm, c: int): Vm {
    if c in vm.l2s then vm else AddL2(vm, c)
  }

  function WithL1(vm: Vm, b: int): Vm {
    if b in vm.l1s then vm else AddL1(vm, b)
  }

  /** A block is reserved whole when it has no table and the range covers it. */
  predicate Spanned(vm: Vm, pos: int, end: int) {
    pos / 512 !in vm.l1s && pos % 512 == 0 && end - pos >= 512
  }

  /** Reserving pages pos to end: the status returned and the address space left. */
  function AllocFrom(vm: Vm, pos: int, end: int): (int, Vm)
    decreases end - pos
  {
    if pos >= end then (0, vm)
    else if pos / 0x800_0000 !in vm.slots then (1, vm)
    else
      var vm1 := WithL2(vm, pos / 0x4_0000);
      if Spanned(vm1, pos, end) then AllocFrom(MarkBlock(vm1, pos / 512), pos + 512, end)
      else AllocFrom(MarkPage(WithL1(vm1, pos / 512), pos), pos + 1, end)
  }

  /** One turn of the release loop. */
  function FreeOne(vm: Vm, v: int): Vm {
    if v / 512 in vm.l1s then ClearPage(vm, v) else UnmarkBlock(vm, v / 512)
  }

  function FreeFrom(vm: Vm, pos: int, end: int): (int, Vm)
    decreases end - pos
  {
    if pos >= end then (0, vm)
    else if pos / 0x800_0000 !in vm.slots then (1, vm)
    else FreeFrom(FreeOne(vm, pos), pos + 1, end)
  }

  /** Whether the handler accepts a fault on page v. The level-1 test of a block
      without a table reads through NULL, so it sees low, the mark bits of word 0. */
  predicate Accepts(vm: Vm, v: int, low: int) {
    && v / 0x800_0000 in vm.slots && v / 0x4_0000 in vm.l2s && v / 512 in vm.blocks
    && if v / 512 in vm.l1s then v in vm.pages else low != 0
  }

  function Fault(vm: Vm, v: int): Vm {
    Back(if v / 512 in vm.l1s then vm else Expand(vm, v / 512), v)
  }

  /** The page tables below level 3. */
  function TableCount(vm: Vm): nat { |vm.l2s| + |vm.l1s| }

  /** Frames an allocation of pages pos to end takes: the tables it adds. */
  function Demand(vm: Vm, pos: int, end: int): int {
    TableCount(AllocFrom(vm, pos, end).1) - TableCount(vm)
  }

  // ---------------------------------------------------------------------- invariant

  ghost predicate LevelAt(words: Words, vm: Vm, kind: Kind) {
    Level(words, Walked(vm, kind), Holders(vm, Lower(kind)), Marks(vm, kind))
  }

  /** The memory words hold exactly the tables vm describes. */
  ghost predicate Represents(words: Words, vm: Vm) {
    && (forall kind: Kind :: kind != Data ==> LevelAt(words, vm, kind))
    && vm.l1s.Keys <= vm.blocks
  }

  ghost predicate OwnedAt(vm: Vm, roles: Roles, kind: Kind) {
    Owned(roles, Holders(vm, kind), kind)
  }

  /** Every frame has exactly one role, and vm agrees with it. Frame 0 has none. */
  ghost predicate Accounts(vm: Vm, roles: Roles) {
    && (forall f :: f in roles ==> f > 0)
    && Idle(roles, vm.pool.unissued, Unissued)
    && Idle(roles, vm.pool.freed, Freed)
    && forall kind: Kind :: OwnedAt(vm, roles, kind)
  }

  ghost predicate AllBacked(words: Words, roles: Roles) {
    forall f :: f in roles ==> Backed(words, f)
  }

  ghost predicate Inv(words: Words, vm: Vm, roles: Roles) {
    Represents(words, vm) && Accounts(vm, roles) && AllBacked(words, roles)
  }

  /** The next frame, when there is one, has no owner. */
  lemma NextIsIdle(vm: Vm, roles: Roles)
    requires Accounts(vm, roles) && Available(vm.pool) > 0
    ensures var f := Next(vm.pool);
            f in roles && (roles[f] == Unissued || roles[f] == Freed) && f > 0
  {
    var p := vm.pool;
    if p.unissued != [] {
      assert p.unissued[0] in p.unissued;
    } else {
      assert p.freed[|p.freed| - 1] in p.freed;
    }
  }

  /** Handing the next frame to an owner changes no other role. */
  lemma TakeKeeps(vm: Vm, roles: Roles, kind: Kind, key: int)
    requires Accounts(vm, roles) && Available(vm.pool) > 0
    ensures var roles' := roles[Next(vm.pool) := Held(kind, key)];
            && Idle(roles', Take(vm.pool).unissued, Unissued)
            && Idle(roles', Take(vm.pool).freed, Freed)
  {
    NextIsIdle(vm, roles);
    var p, f, role := vm.pool, Next(vm.pool), Held(kind, key);
    if p.unissued != [] {
      IdleFirst(roles, p.unissued, Unissued, role);
      IdleOther(roles, p.freed, Freed, f, role);
    } else {
      IdleLast(roles, p.freed, Freed, role);
      IdleOther(roles, p.unissued, Unissued, f, role);
    }
  }

  lemma IdleFirst(roles: Roles, s: seq<int>, idle: Role, role: Role)
    requires Idle(roles, s, idle) && s != [] && role != idle
    ensures Idle(roles[s[0] := role], s[1..], idle)
  {
    var rest := s[1..];
    assert s == [s[0]] + rest;
    forall j | 0 <= j < |rest| ensures rest[j] != s[0] { assert rest[j] == s[j + 1]; }
    forall i, j | 0 <= i < j < |rest| ensures rest[i] != rest[j] { assert s[i + 1] != s[j + 1]; }
  }

  lemma IdleLast(roles: Roles, s: seq<int>, idle: Role, role: Role)
    requires Idle(roles, s, idle) && s != [] && role != idle
    ensures Idle(roles[s[|s| - 1] := role], s[..|s| - 1], idle)
  {
    var rest, last := s[..|s| - 1], s[|s| - 1];
    assert s == rest + [last];
    forall j | 0 <= j < |rest| ensures rest[j] != last { assert s[j] != s[|s| - 1]; }
  }

  lemma IdleOther(roles: Roles, s: seq<int>, idle: Role, f: int, role: Role)
    requires Idle(roles, s, idle) && role != idle && f in roles && roles[f] != idle
    ensures Idle(roles[f := role], s, idle)
  {
  }

  lemma OwnedAdd(roles: Roles, m: Tables, kind: Kind, key: int, f: int)
    requires Owned(roles, m, kind) && key !in m
    requires f in roles && !roles[f].Held?
    ensures Owned(roles[f := Held(kind, key)], m[key := f], kind)
  {
  }

  lemma OwnedOther(roles: Roles, m: Tables, kind: Kind, f: int, role: Role)
    requires Owned(roles, m, kind)
    requires f in roles && !(roles[f].Held? && roles[f].kind == kind)
    requires !(role.Held? && role.kind == kind)
    ensures Owned(roles[f := role], m, kind)
  {
  }

  lemma {:induction false} DemandGrows(vm: Vm, pos: int, end: int)
    ensures Demand(vm, pos, end) >= 0
    decreases end - pos
  {
    if pos < end && pos / 0x800_0000 in vm.slots {
      var vm1 := WithL2(vm, pos / 0x4_0000);
      if Spanned(vm1, pos, end) {
        DemandGrows(MarkBlock(vm1, pos / 512), pos + 512, end);
      } else {
        DemandGrows(MarkPage(WithL1(vm1, pos / 512), pos), pos + 1, end);
      }
    }
  }

  lemma AddCounts(vm: Vm, k: int)
    ensures k !in vm.l2s ==> TableCount(AddL2(vm, k)) == TableCount(vm) + 1
    ensures k !in vm.l1s ==> TableCount(AddL1(vm, k)) == TableCount(vm) + 1
    ensures k !in vm.l1s ==> TableCount(Expand(vm, k)) == TableCount(vm) + 1
    ensures Available(vm.pool) > 0 ==> Available(Take(vm.pool)) == Available(vm.pool) - 1
  {
  }

  /** The end of one turn of the allocation loop, below a level-2 table. */
  function MarkStep(vm: Vm, pos: int, end: int): Vm {
    if Spanned(vm, pos, end) then MarkBlock(vm, pos / 512) else MarkPage(WithL1(vm, pos / 512), pos)
  }

  /** A turn never lacks a frame when the whole demand is covered, and leaves enough
      for the rest. */
  lemma DemandStep(vm: Vm, pos: int, end: int)
    requires pos < end && pos / 0x800_0000 in vm.slots
    requires Available(vm.pool) >= Demand(vm, pos, end)
    ensures var c, b := pos / 0x4_0000, pos / 512;
            && (c !in vm.l2s ==> Available(vm.pool) > 0)
            && (!Spanned(WithL2(vm, c), pos, end) && b !in vm.l1s ==> Available(WithL2(vm, c).pool) > 0)
    ensures var vm1 := WithL2(vm, pos / 0x4_0000);
            var pos', vm' := if Spanned(vm1, pos, end) then pos + 512 else pos + 1, MarkStep(vm1, pos, end);
            Available(vm'.pool) >= Demand(vm', pos', end) && AllocFrom(vm, pos, end) == AllocFrom(vm', pos', end)
  {
    var c, b := pos / 0x4_0000, pos / 512;
    var vm1 := WithL2(vm, c);
    AddCounts(vm, c);
    AddCounts(vm1, b);
    var pos', vm' := if Spanned(vm1, pos, end) then pos + 512 else pos + 1, MarkStep(vm1, pos, end);
    DemandGrows(vm', pos', end);
  }

  lemma UnmarkAbsent(vm: Vm, b: int)
    requires b !in vm.blocks
    ensures UnmarkBlock(vm, b) == vm
  {
    assert vm.blocks - {b} == vm.blocks;
  }
}
