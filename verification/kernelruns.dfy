/** Safety and bounded waiting over whole runs of the system. */
module KernelRuns {
  import opened SchedSpec
  import opened SchedLaws
  import opened AtaSpec
  import opened Kernel

  /** After start-up: no process, empty queues, an idle disk, an empty ring. */
  function Booted(guarded: bool, size: nat): State
    requires size >= 2
  {
    var s := Sched(guarded, false, 0, NoQueues(), map[], 0);
    var ring := Rings.Ring(seq(size, i requires 0 <= i < size => 0), 0, 0);
    State(Reader(s, Disk([], map[], [], [])), false, false, Rings.Log(ring, [], []), true)
  }

  lemma BootedInv(guarded: bool, size: nat, content: int -> int)
    requires size >= 2
    ensures KInv(Booted(guarded, size), content)
  {
    var k := Booted(guarded, size);
    forall q ensures Linked(k.x.s, q) {}
    assert Inv(k.x.s);
    assert Items(k.x.s, InProgress) == [] && Items(k.x.s, Blocked) == [] && Items(k.x.s, Keyboard) == [];
    assert Open(k.x.s) == [];
    forall f ensures Facets(k, content, f) {}
  }

  lemma StepMoves(k: State, op: Op, content: int -> int)
    requires Sound(k) && Enabled(k, op) && KInv(k, content) && Step(k, op, content).Fine?
    ensures Moves(k, op, Step(k, op, content).s)
  {
    hide KInv, Moves, Step;
    match op
    case Spawn(e, junk) => SpawnMoves(k, op, content);
    case Yield => DispatchMoves(k, op, content);
    case Exit => DispatchMoves(k, op, content);
    case Start => DispatchMoves(k, op, content);
    case Read(block, dest) => ReadMoves(k, op, content);
    case GetChar => GetCharMoves(k, op, content);
    case DiskIrq => DiskIrqMoves(k, op, content);
    case KeyIrq(b) => KeyIrqMoves(k, op, content);
  }

  /** Every step the system can take is FATAL only for an entry with junk in its
      queue field, never corrupts a queue if pushes are guarded, and otherwise
      keeps the invariant and every process where it was that it does not concern. */
  lemma StepKeeps(k: State, op: Op, content: int -> int)
    requires Sound(k) && Enabled(k, op) && KInv(k, content)
    ensures Good(k, op, content)
    ensures Step(k, op, content).Fine? ==> Moves(k, op, Step(k, op, content).s)
  {
    hide KInv, Good, Moves, Step;
    if Step(k, op, content).Fine? { StepMoves(k, op, content); }
    match op
    case Spawn(e, junk) => SpawnKeeps(k, op, content);
    case Yield => DispatchKeeps(k, op, content);
    case Exit => DispatchKeeps(k, op, content);
    case Start => DispatchKeeps(k, op, content);
    case Read(block, dest) => ReadKeeps(k, op, content);
    case GetChar => GetCharKeeps(k, op, content);
    case DiskIrq => DiskIrqKeeps(k, op, content);
    case KeyIrq(b) => KeyIrqKeeps(k, op, content);
  }

  /** k' is reached from k by ops, none of which failed. */
  ghost predicate Reaches(k: State, ops: seq<Op>, k': State, content: int -> int)
    decreases ops
  {
    if ops == [] then k' == k
    else
      && Sound(k) && Enabled(k, ops[0]) && Step(k, ops[0], content).Fine?
      && Reaches(Step(k, ops[0], content).s, ops[1..], k', content)
  }

  lemma {:induction false} RunKeeps(k: State, ops: seq<Op>, k': State, content: int -> int)
    requires KInv(k, content) && Reaches(k, ops, k', content)
    ensures KInv(k', content)
    decreases ops
  {
    if ops != [] {
      StepKeeps(k, ops[0], content);
      RunKeeps(Step(k, ops[0], content).s, ops[1..], k', content);
    }
  }

  /** In every reachable state each live process is in exactly one place: in one
      position of one queue, or in none and then the running one. */
  lemma OnePlace(k: State, ops: seq<Op>, k': State, content: int -> int, e: int)
    requires KInv(k, content) && Reaches(k, ops, k', content) && e in k'.x.s.procs
    ensures var s, proc := k'.x.s, k'.x.s.procs[e];
            && (forall q :: e in Items(s, q) <==> proc.owner == In(q))
            && (forall q, i, j :: 0 <= i < j < |Items(s, q)| ==> Items(s, q)[i] != Items(s, q)[j])
            && (proc.owner == Nowhere <==> proc.state == RUNNING)
            && (proc.state == RUNNING ==> e == s.cur)
            && (proc.owner == In(RunQueue) <==> proc.state == RUNABLE)
            && proc.state != EXITED
  {
    RunKeeps(k, ops, k', content);
    assert Facets(k', content, Scheduling);
    var s := k'.x.s;
    assert Placed(s, e);
    forall q ensures e in Items(s, q) <==> s.procs[e].owner == In(q) { assert Linked(s, q); }
    forall q, i, j | 0 <= i < j < |Items(s, q)| ensures Items(s, q)[i] != Items(s, q)[j] { assert Linked(s, q); }
  }

  function Count(ops: seq<Op>): nat {
    if ops == [] then 0 else (if Dispatches(ops[0]) then 1 else 0) + Count(ops[1..])
  }

  /** A waiting process moves one place up at every dispatch and at nothing else. */
  lemma {:induction false} StillWaiting(k: State, ops: seq<Op>, k': State, content: int -> int, i: nat)
    requires KInv(k, content) && Reaches(k, ops, k', content)
    requires i < |Items(k.x.s, RunQueue)| && Count(ops) <= i
    ensures i - Count(ops) < |Items(k'.x.s, RunQueue)|
    ensures Items(k'.x.s, RunQueue)[i - Count(ops)] == Items(k.x.s, RunQueue)[i]
    decreases ops
  {
    hide Step, Facets, Enabled, Sound;
    if ops != [] {
      StepKeeps(k, ops[0], content);
      var k1 := Step(k, ops[0], content).s;
      assert Advances(k, ops[0], k1);
      StillWaiting(k1, ops[1..], k', content, if Dispatches(ops[0]) then i - 1 else i);
    }
  }

  /** So the process at place i of the run queue gets the CPU at exactly the
      (i + 1)-th following dispatch, and not before. */
  lemma BoundedWaiting(k: State, ops: seq<Op>, op: Op, k': State, content: int -> int, i: nat)
    requires KInv(k, content) && Reaches(k, ops, k', content)
    requires i < |Items(k.x.s, RunQueue)| && Count(ops) == i && Sound(k') && Enabled(k', op) && Dispatches(op)
    ensures k'.x.s.cur != Items(k.x.s, RunQueue)[i]
    ensures Step(k', op, content).Fine?
    ensures Step(k', op, content).s.x.s.cur == Items(k.x.s, RunQueue)[i] && Step(k', op, content).s.inProc
  {
    StillWaiting(k, ops, k', content, i);
    RunKeeps(k, ops, k', content);
    StepKeeps(k', op, content);
    assert Linked(k'.x.s, RunQueue);
    var e := Items(k.x.s, RunQueue)[i];
    assert Items(k'.x.s, RunQueue)[0] == e;
    assert Placed(k'.x.s, e);
    HandedKeeps(k', op, content);
    RescheduleEffect(Handed(k', op));
  }

  /** The parent gets the CPU back exactly when no process is left that can run. */
  lemma ParentExact(k: State, op: Op, content: int -> int)
    requires Sound(k) && Enabled(k, op) && KInv(k, content) && Dispatches(op)
    ensures Step(k, op, content).Fine?
    ensures !Step(k, op, content).s.inProc <==>
            forall e | e in Alive(k, op) :: !CanRun(k.x.s.procs[e].state)
  {
    HandedKeeps(k, op, content);
    RescheduleEffect(Handed(k, op));
    RescheduleNull(Handed(k, op));
    var s := Handed(k, op);
    assert forall e | e in Alive(k, op) :: s.procs[e].state == k.x.s.procs[e].state;
    if op.Exit? {
      assert s.procs[s.cur].state == EXITED;
      assert forall e | e in s.procs :: e in Alive(k, op) || e == s.cur;
    }
  }

  function Spawns(ops: seq<Op>): nat {
    if ops == [] then 0 else (if ops[0].Spawn? then 1 else 0) + Spawns(ops[1..])
  }

  /** Pids are below the next one, and no two processes share one. */
  ghost predicate PidsOk(s: Sched) {
    && (forall e | e in s.procs :: 0 <= s.procs[e].pid < s.nextPid)
    && forall e, f | e in s.procs && f in s.procs && e != f :: s.procs[e].pid != s.procs[f].pid
  }

  /** Until the counter wraps around, every process has a pid of its own. */
  lemma {:induction false} PidsKept(k: State, ops: seq<Op>, k': State, content: int -> int)
    requires KInv(k, content) && Reaches(k, ops, k', content) && PidsOk(k.x.s)
    requires 0 <= k.x.s.nextPid && k.x.s.nextPid + Spawns(ops) < 0x1_0000_0000
    ensures PidsOk(k'.x.s) && k'.x.s.nextPid == k.x.s.nextPid + Spawns(ops)
    decreases ops
  {
    hide Step, KInv, Moves, Sound, Enabled;
    if ops != [] {
      var k1 := Step(k, ops[0], content).s;
      StepKeeps(k, ops[0], content);
      StepNumbers(k, ops[0], content);
      PidsKept(k1, ops[1..], k', content);
    }
  }

  /** From start-up, the n-th process gets pid n, counted from 0. */
  lemma NthPid(guarded: bool, size: nat, ops: seq<Op>, k': State, content: int -> int, e: int)
    requires size >= 2 && Reaches(Booted(guarded, size), ops, k', content) && Spawns(ops) < 0x1_0000_0000
    requires Sound(k') && Enabled(k', Spawn(e, false)) && Step(k', Spawn(e, false), content).Fine?
    ensures PidsOk(k'.x.s)
    ensures var s' := Step(k', Spawn(e, false), content).s.x.s;
            && e in s'.procs && s'.procs[e].pid == Spawns(ops)
            && forall f | f in k'.x.s.procs :: s'.procs[f] == k'.x.s.procs[f]
  {
    hide Moves, Linked, Placed;
    BootedInv(guarded, size, content);
    PidsKept(Booted(guarded, size), ops, k', content);
    AddKeeps(k'.x.s, e, false);
  }

  function Called(k: State, op: Op): seq<Request> {
    if op.Read? then [Request(k.x.s.cur, op.block, op.dest)] else []
  }

  /** The calls of ReadBlock among ops, with their callers. */
  ghost function Calls(k: State, ops: seq<Op>, content: int -> int): seq<Request>
    decreases ops
  {
    if ops == [] || !Sound(k) || !Enabled(k, ops[0]) || !Step(k, ops[0], content).Fine? then []
    else
      Called(k, ops[0]) + Calls(Step(k, ops[0], content).s, ops[1..], content)
  }

  function Interrupts(ops: seq<Op>): nat {
    if ops == [] then 0 else (if ops[0].DiskIrq? then 1 else 0) + Interrupts(ops[1..])
  }

  lemma DiskStep(k: State, op: Op, content: int -> int)
    requires Sound(k) && Enabled(k, op) && KInv(k, content) && Step(k, op, content).Fine?
    ensures Step(k, op, content).s.x.d.issued == k.x.d.issued + Called(k, op)
    ensures |Step(k, op, content).s.x.d.done| == |k.x.d.done| + if op.DiskIrq? then 1 else 0
  {
    assert Facets(k, content, DiskOrder);
    if op.Read? { ReadBlockKeeps(k.x, op.block, op.dest, content); }
    if op.DiskIrq? { IrqKeeps(k.x, content); }
  }

  /** Each call adds itself to the requests, in order. */
  lemma {:induction false} CallLog(k: State, ops: seq<Op>, k': State, content: int -> int)
    requires KInv(k, content) && Reaches(k, ops, k', content)
    ensures k'.x.d.issued == k.x.d.issued + Calls(k, ops, content)
    decreases ops
  {
    if ops == [] {
      assert k.x.d.issued + [] == k.x.d.issued;
    } else {
      StepKeeps(k, ops[0], content);
      DiskStep(k, ops[0], content);
      var k1 := Step(k, ops[0], content).s;
      CallLog(k1, ops[1..], k', content);
      Assoc(k.x.d.issued, Called(k, ops[0]), Calls(k1, ops[1..], content));
    }
  }

  /** Each interrupt answers one more. */
  lemma {:induction false} AnswerLog(k: State, ops: seq<Op>, k': State, content: int -> int)
    requires KInv(k, content) && Reaches(k, ops, k', content)
    ensures |k'.x.d.done| == |k.x.d.done| + Interrupts(ops)
    decreases ops
  {
    if ops != [] {
      StepKeeps(k, ops[0], content);
      DiskStep(k, ops[0], content);
      AnswerLog(Step(k, ops[0], content).s, ops[1..], k', content);
    }
  }

  /** From start-up, the i-th interrupt answers the i-th call of ReadBlock, with
      that call's block to that call's buffer, and never an interrupt too many. */
  lemma EveryReadAnswered(guarded: bool, size: nat, ops: seq<Op>, k': State, content: int -> int, i: nat)
    requires size >= 2 && Reaches(Booted(guarded, size), ops, k', content)
    requires i < Interrupts(ops)
    ensures i < |k'.x.d.done| == Interrupts(ops) <= |Calls(Booted(guarded, size), ops, content)|
    ensures k'.x.d.done[i] == Answer(Calls(Booted(guarded, size), ops, content)[i], content)
    ensures k'.x.d.memory == Stored(k'.x.d.done)
  {
    BootedInv(guarded, size, content);
    RunKeeps(Booted(guarded, size), ops, k', content);
    CallLog(Booted(guarded, size), ops, k', content);
    AnswerLog(Booted(guarded, size), ops, k', content);
    assert Facets(k', content, DiskOrder);
  }

  /** As long as no process has waited for the keyboard beside another one, whoever
      waits for a key waits because there is none. */
  lemma NoLostWakeUp(guarded: bool, size: nat, ops: seq<Op>, k': State, content: int -> int)
    requires size >= 2 && Reaches(Booted(guarded, size), ops, k', content) && k'.alone
    ensures |Items(k'.x.s, Keyboard)| <= 1
    ensures Items(k'.x.s, Keyboard) != [] ==> k'.log.ring.prod == k'.log.ring.consumer
  {
    BootedInv(guarded, size, content);
    RunKeeps(Booted(guarded, size), ops, k', content);
    assert Facets(k', content, OneReader);
    Rings.GetTakesFirst(k'.log.ring);
  }

  /** Keyboard interrupts with n readers waiting: a key and a waiting reader are left
      together, a lost wake-up, if and only if there were at least two readers. */
  lemma LostWakeUp(k: State, b: int, content: int -> int)
    requires Sound(k) && Step(k, KeyIrq(b), content).Fine?
    ensures var k' := Step(k, KeyIrq(b), content).s;
            Items(k'.x.s, Keyboard) != [] && Rings.Unread(k'.log.ring) != [] <==> |Items(k.x.s, Keyboard)| >= 2
  {
    UnblockDrains(k.x.s, Keyboard);
    Rings.PutKeepsLast(k.log.ring, b);
  }

  /** Where the processes are, with nothing in the ring. */
  ghost predicate Scene(k: State, content: int -> int, run: seq<int>, keys: seq<int>, cur: int) {
    && KInv(k, content) && k.x.s.guarded
    && Items(k.x.s, RunQueue) == run && Items(k.x.s, Keyboard) == keys && k.x.s.cur == cur
    && k.log.ring.prod == k.log.ring.consumer && (k.inProc <==> cur != 0)
  }

  lemma SpawnScene(k: State, content: int -> int, e: int, run: seq<int>) returns (k': State)
    requires Scene(k, content, run, [], 0) && e > 0 && e !in k.x.s.procs && !k.mustYield
    ensures Steps(k, Spawn(e, false), k', content)
    ensures Scene(k', content, run + [e], [], 0) && !k'.mustYield && k'.x.s.procs.Keys == k.x.s.procs.Keys + {e}
  {
    assert Facets(k, content, Scheduling);
    StepKeeps(k, Spawn(e, false), content);
    AddKeeps(k.x.s, e, false);
    k' := Step(k, Spawn(e, false), content).s;
  }

  /** A dispatch while the current process, if any, cannot run. */
  lemma DispatchScene(k: State, content: int -> int, op: Op, run: seq<int>, keys: seq<int>, cur: int)
    returns (k': State)
    requires Scene(k, content, run, keys, cur) && run != [] && Chosen(k.x.s) == 0
    requires op == if cur == 0 then Start else Yield
    ensures Steps(k, op, k', content)
    ensures Scene(k', content, run[1..], keys, run[0]) && !k'.mustYield
  {
    assert Facets(k, content, Scheduling);
    StepKeeps(k, op, content);
    HandedKeeps(k, op, content);
    RescheduleEffect(k.x.s);
    k' := Step(k, op, content).s;
    assert RescheduledPart(k.x.s, k'.x.s, Waiting) && RescheduledPart(k.x.s, k'.x.s, Running);
    assert RescheduledPart(k.x.s, k'.x.s, Kept);
    assert Facets(k', content, Scheduling) && Linked(k.x.s, RunQueue);
  }

  lemma GetCharScene(k: State, content: int -> int, run: seq<int>, keys: seq<int>, cur: int) returns (k': State)
    requires Scene(k, content, run, keys, cur) && cur != 0 && !k.mustYield
    ensures Steps(k, GetChar, k', content)
    ensures Scene(k', content, run, keys + [cur], cur) && Chosen(k'.x.s) == 0
  {
    assert Facets(k, content, Scheduling) && Facets(k, content, Control);
    StepKeeps(k, GetChar, content);
    BlockKeeps(k.x.s, Keyboard, 0, 0);
    k' := Step(k, GetChar, content).s;
  }

  ghost predicate Steps(k: State, op: Op, k': State, content: int -> int) {
    Sound(k) && Enabled(k, op) && Step(k, op, content) == Fine(k')
  }

  lemma StepBefore(k: State, op: Op, k1: State, ops: seq<Op>, k': State, content: int -> int)
    requires Steps(k, op, k1, content) && Reaches(k1, ops, k', content)
    ensures Reaches(k, [op] + ops, k', content)
  {
    assert ([op] + ops)[1..] == ops;
  }

  const TWO_READERS: seq<Op> := [Spawn(1, false), Spawn(2, false), Start, GetChar, Yield, GetChar]

  /** A run from start-up that leaves two processes waiting for a key, also when the
      queues are linked as intended. */
  lemma TwoReaders(content: int -> int) returns (k: State)
    ensures Reaches(Booted(true, 4), TWO_READERS, k, content) && Scene(k, content, [], [1, 2], 2)
  {
    hide Step, Reaches, Facets;
    var k0 := Booted(true, 4);
    BootedInv(true, 4, content);
    var k1 := SpawnScene(k0, content, 1, []);
    var k2 := SpawnScene(k1, content, 2, [1]);
    var k3 := DispatchScene(k2, content, Start, [1, 2], [], 0);
    var k4 := GetCharScene(k3, content, [2], [], 1);
    var k5 := DispatchScene(k4, content, Yield, [2], [1], 1);
    k := GetCharScene(k5, content, [], [1], 2);
    TwoReadersRun(k0, k1, k2, k3, k4, k5, k, content);
  }

  lemma TwoReadersRun(k0: State, k1: State, k2: State, k3: State, k4: State, k5: State, k6: State,
                      content: int -> int)
    requires Steps(k0, Spawn(1, false), k1, content) && Steps(k1, Spawn(2, false), k2, content)
    requires Steps(k2, Start, k3, content) && Steps(k3, GetChar, k4, content)
    requires Steps(k4, Yield, k5, content) && Steps(k5, GetChar, k6, content)
    ensures Reaches(k0, TWO_READERS, k6, content)
  {
    assert Reaches(k6, [], k6, content);
    hide Steps, Reaches;
    StepBefore(k5, GetChar, k6, [], k6, content);
    StepBefore(k4, Yield, k5, [GetChar], k6, content);
    StepBefore(k3, GetChar, k4, [Yield, GetChar], k6, content);
    StepBefore(k2, Start, k3, [GetChar, Yield, GetChar], k6, content);
    StepBefore(k1, Spawn(2, false), k2, [Start, GetChar, Yield, GetChar], k6, content);
    StepBefore(k0, Spawn(1, false), k1, [Spawn(2, false), Start, GetChar, Yield, GetChar], k6, content);
  }

  /** The next key wakes the first of them only: the second one goes on waiting beside
      a key that nobody has read. */
  lemma LostWakeUpRun(b: int, content: int -> int)
    ensures exists k, k' ::
              && Reaches(Booted(true, 4), TWO_READERS, k, content) && Steps(k, KeyIrq(b), k', content)
              && Items(k'.x.s, Keyboard) == [2] && Rings.Good(k'.log.ring) && Rings.Unread(k'.log.ring) == [b]
  {
    var k := TwoReaders(content);
    var k' := KeyScene(k, b, content);
  }

  lemma KeyScene(k: State, b: int, content: int -> int) returns (k': State)
    requires Scene(k, content, [], [1, 2], 2)
    ensures Steps(k, KeyIrq(b), k', content) && Rings.Good(k'.log.ring)
    ensures Items(k'.x.s, Keyboard) == [2] && Rings.Unread(k'.log.ring) == [b]
  {
    assert Facets(k, content, Scheduling);
    UnblockKeeps(k.x.s, Keyboard);
    k' := Step(k, KeyIrq(b), content).s;
    assert FreedPart(k.x.s, k'.x.s, Keyboard, 1, Source);
    Rings.PutKeepsLast(k.log.ring, b);
    Rings.GetTakesFirst(k.log.ring);
  }

  /** A process that ran alone: spawned and started on a system just booted. */
  lemma Alone(content: int -> int) returns (k: State)
    ensures Reaches(Booted(false, 4), [Spawn(1, false), Start], k, content)
    ensures KInv(k, content) && k.inProc && !k.mustYield && k.x.s.procs.Keys == {1}
    ensures k.x.s.queues[RunQueue] == Q.View([], false, [1]) && !k.x.s.low
  {
    var k0 := Booted(false, 4);
    BootedInv(false, 4, content);
    assert Facets(k0, content, Scheduling);
    StepKeeps(k0, Spawn(1, false), content);
    var k1 := Step(k0, Spawn(1, false), content).s;
    assert Facets(k1, content, Scheduling);
    assert k1.x.s.queues[RunQueue] == Q.View([1], true, []);
    StepKeeps(k1, Start, content);
    k := Step(k1, Start, content).s;
    assert Facets(k, content, Scheduling);
    assert Reaches(k, [], k, content);
    StepBefore(k1, Start, k, [], k, content);
    StepBefore(k0, Spawn(1, false), k1, [Start], k, content);
  }

  /** Two processes, one after the other, are enough for the links as written: the
      second one is pushed behind the first one's ghost and is lost. */
  lemma SelfLinkedRun(content: int -> int)
    ensures exists k ::
              && Reaches(Booted(false, 4), [Spawn(1, false), Start], k, content)
              && Sound(k) && Enabled(k, Spawn(2, false)) && Step(k, Spawn(2, false), content) == Corrupt
  {
    var k := Alone(content);
    assert Facets(k, content, Scheduling);
    AddKeeps(k.x.s, 2, false);
  }

  /** With the links as written, a block read from the idle disk leaves its reader as
      a ghost in the wait queue. */
  lemma ReaderStays(k: State, op: Op, content: int -> int)
    requires KInv(k, content) && Sound(k) && Enabled(k, op) && op.Read?
    requires !k.x.s.guarded && Items(k.x.s, InProgress) == [] && Step(k, op, content).Fine?
    ensures Step(k, op, content).s.x.s.queues[Blocked] == Q.View([], false, [k.x.s.cur])
  {
    assert Facets(k, content, DiskOrder);
    IdleRead(k.x, op.block, op.dest);
  }

  /** From then on no other process can read a block: its push meets the ghost. */
  lemma SecondReader(k: State, op: Op, content: int -> int, first: int)
    requires KInv(k, content) && Sound(k) && Enabled(k, op) && op.Read?
    requires k.x.s.queues[Blocked] == Q.View([], false, [first]) && k.x.s.cur != first
    ensures Step(k, op, content) == Corrupt
  {
    assert Facets(k, content, Control);
    BlockKeeps(k.x.s, Blocked, op.block, op.dest);
    assert Placed(k.x.s, k.x.s.cur);
  }

  lemma IdleRead(x: Reader, block: int, dest: int)
    requires Inv(x.s) && x.s.cur != 0 && !x.s.guarded && Items(x.s, InProgress) == [] && Items(x.s, Blocked) == []
    requires ReadBlock(x, block, dest).Fine?
    ensures ReadBlock(x, block, dest).s.s.queues[Blocked] == Q.View([], false, [x.s.cur])
  {
    BlockKeeps(x.s, Blocked, block, dest);
    var s := BlockCurProc(x.s, Blocked, block, dest).s;
    assert s.queues[Blocked] == Q.View([x.s.cur], true, []);
    MovedKeeps(s);
    assert Dequeue(s, Blocked).queues[Blocked] == Q.View([], false, [x.s.cur]);
  }
}
