/** The scheduler, the disk and the keyboard together: every interleaving of the
    system calls, the driver entry points and the interrupts, each of them atomic
    because it runs with interrupts off. */
module Kernel {
  import opened SchedSpec
  import opened SchedLaws
  import opened AtaSpec
  import Rings

  /** inProc says that a process, and not the parent, has the CPU; mustYield that it
      is between its driver's Enable and ProcYield; alone that no process has waited
      for the keyboard while another one did. */
  datatype State = State(x: Reader, inProc: bool, mustYield: bool, log: Rings.Log, alone: bool)

  datatype Op =
    | Spawn(e: int, junk: bool)
    | Yield
    | Exit
    | Start
    | Read(block: int, dest: int)
    | GetChar
    | DiskIrq
    | KeyIrq(b: int)

  predicate Dispatches(op: Op) { op.Yield? || op.Exit? || op.Start? }

  ghost predicate Sound(k: State) {
    Inv(k.x.s) && Rings.Good(k.log.ring) && (k.inProc ==> k.x.s.cur != 0)
  }

  /** Which calls the program text allows next, and which interrupts the devices. */
  ghost predicate Enabled(k: State, op: Op) {
    match op
    case Spawn(e, junk) => e > 0 && e !in k.x.s.procs && !k.mustYield
    case Yield => k.inProc
    case Exit => k.inProc && !k.mustYield
    case Start => !k.inProc
    case Read(block, dest) => k.inProc && !k.mustYield
    case GetChar => k.inProc && !k.mustYield
    case DiskIrq => k.x.d.command != []
    case KeyIrq(b) => true
  }

  function WithSched(k: State, s: Sched): State { k.(x := k.x.(s := s)) }

  /** After Reschedule: load the chosen process, or the parent. */
  function Loaded(k: State, s: Sched): State {
    WithSched(k, s).(inProc := Chosen(s) != 0, mustYield := false)
  }

  function Key(k: State, b: int): State
    requires Rings.Good(k.log.ring)
  {
    k.(log := Rings.Step(k.log, Rings.Byte(b)))
  }

  /** One turn of GetChar's loop: takes a byte, or blocks and goes on to yield. */
  function TryRead(k: State): Result<State>
    requires Sound(k) && k.inProc
  {
    if k.log.ring.consumer != k.log.ring.prod then
      Fine(k.(log := Rings.Step(k.log, Rings.Read)))
    else
      var s :- BlockCurProc(k.x.s, Keyboard, 0, 0);
      Fine(WithSched(k, s).(mustYield := true, alone := k.alone && Items(k.x.s, Keyboard) == []))
  }

  function Step(k: State, op: Op, content: int -> int): Result<State>
    requires Sound(k) && Enabled(k, op)
  {
    match op
    case Spawn(e, junk) =>
      var s :- Add(k.x.s, e, junk);
      Fine(WithSched(k, s))
    case Yield =>
      var s :- Reschedule(k.x.s);
      Fine(Loaded(k, s))
    case Exit =>
      ExitedKeeps(k);
      var s :- Reschedule(Exited(k.x.s));
      Fine(Loaded(k, s))
    case Start =>
      var s :- Reschedule(k.x.s);
      Fine(Loaded(k, s))
    case Read(block, dest) =>
      var x :- ReadBlock(k.x, block, dest);
      Fine(k.(x := x, mustYield := true))
    case GetChar => TryRead(k)
    case DiskIrq =>
      var x :- Irq(k.x, content(k.x.d.command[0]));
      Fine(k.(x := x))
    case KeyIrq(b) =>
      var s :- Unblock(k.x.s, Keyboard, 0);
      Fine(WithSched(Key(k, b), s))
  }

  lemma ExitedKeeps(k: State)
    requires Sound(k) && k.inProc
    ensures k.x.s.cur in k.x.s.procs && AllLinked(Exited(k.x.s))
    ensures k.x.s.procs[k.x.s.cur].owner == Nowhere ==> Leaving(Exited(k.x.s))
  {
    var s := k.x.s;
    SetKeeps(s, s.cur, EXITED, s.procs[s.cur].data1, s.procs[s.cur].data2);
    if s.procs[s.cur].owner == Nowhere {
      forall e | e in s.procs && e != s.cur ensures Placed(Exited(s), e) { assert Placed(s, e); }
    }
  }

  datatype Facet = Scheduling | Control | DiskOrder | OneReader

  ghost predicate Facets(k: State, content: int -> int, f: Facet) {
    match f
    case Scheduling => Sound(k) && !k.x.s.low
    case Control =>
      && (k.mustYield ==> k.inProc)
      && (k.inProc && !k.mustYield ==> k.x.s.cur in k.x.s.procs && k.x.s.procs[k.x.s.cur].state == RUNNING)
    case DiskOrder => OneCommand(k.x) && InOrder(k.x, content)
    case OneReader =>
      Rings.Good(k.log.ring) && (k.alone ==>
        |Items(k.x.s, Keyboard)| <= 1 && (Items(k.x.s, Keyboard) != [] ==> Rings.Unread(k.log.ring) == []))
  }

  /** The invariant of the whole system; as long as readers of the keyboard come one
      at a time no wake-up is lost: while one waits for a key, there is none to read. */
  ghost predicate KInv(k: State, content: int -> int) {
    forall f :: Facets(k, content, f)
  }

  /** The processes in existence after op. */
  ghost function Alive(k: State, op: Op): set<int> {
    match op
    case Spawn(e, junk) => k.x.s.procs.Keys + {e}
    case Exit => k.x.s.procs.Keys - {k.x.s.cur}
    case _ => k.x.s.procs.Keys
  }

  /** A dispatch runs the head of the run queue; nothing else removes anyone. */
  ghost predicate Advances(k: State, op: Op, k': State) {
    && k'.x.s.procs.Keys == Alive(k, op)
    && (if Dispatches(op) then
          Items(k.x.s, RunQueue) != [] ==>
            && k'.x.s.cur == Items(k.x.s, RunQueue)[0] && k'.inProc
            && Items(k.x.s, RunQueue)[1..] <= Items(k'.x.s, RunQueue)
        else
          Items(k.x.s, RunQueue) <= Items(k'.x.s, RunQueue))
  }

  /** The queues after op: whoever is not named here stays where it was. */
  ghost predicate Moves(k: State, op: Op, k': State)
    requires Rings.Good(k.log.ring)
  {
    var s, s' := k.x.s, k'.x.s;
    var keys, n := Items(s, Keyboard), Half(|Items(s, Keyboard)|);
    var asks := op.GetChar? && Rings.Unread(k.log.ring) == [];
    && Items(s', Keyboard) == (if op.KeyIrq? then keys[n..] else if asks then keys + [s.cur] else keys)
    && (op.DiskIrq? ==> DiskLine(s) != [] && DiskLine(s') == DiskLine(s)[1..])
    && (op.Read? ==> DiskLine(s') == DiskLine(s) + [s.cur])
    && (!op.DiskIrq? && !op.Read? ==>
          Items(s', InProgress) == Items(s, InProgress) && Items(s', Blocked) == Items(s, Blocked))
    && (Dispatches(op) ==>
          Items(s', RunQueue) == if Items(s, RunQueue) == [] then []
                                 else Items(s, RunQueue)[1..] + if op.Exit? || Chosen(s) == 0 then [] else [s.cur])
    && (!Dispatches(op) ==>
          Items(s', RunQueue) == Items(s, RunQueue) + match op
                                                      case Spawn(e, _) => [e]
                                                      case DiskIrq => Others(Items(s, InProgress), s.cur)
                                                      case KeyIrq(_) => Others(keys[..n], s.cur)
                                                      case _ => [])
  }

  lemma SpawnMoves(k: State, op: Op, content: int -> int)
    requires Sound(k) && Enabled(k, op) && op.Spawn? && Step(k, op, content).Fine?
    ensures Moves(k, op, Step(k, op, content).s)
  {
    AddKeeps(k.x.s, op.e, op.junk);
  }

  lemma DispatchMoves(k: State, op: Op, content: int -> int)
    requires Sound(k) && Enabled(k, op) && KInv(k, content) && Dispatches(op) && Step(k, op, content).Fine?
    ensures Moves(k, op, Step(k, op, content).s)
  {
    hide Linked, Placed;
    HandedKeeps(k, op, content);
    var s, s' := Handed(k, op), Step(k, op, content).s.x.s;
    RescheduleEffect(s);
    assert RescheduledPart(s, s', Waiting) && RescheduledPart(s, s', Running);
  }

  lemma ReadMoves(k: State, op: Op, content: int -> int)
    requires Sound(k) && Enabled(k, op) && KInv(k, content) && op.Read? && Step(k, op, content).Fine?
    ensures Moves(k, op, Step(k, op, content).s)
  {
    ReadBlockLine(k.x, op.block, op.dest);
  }

  lemma GetCharMoves(k: State, op: Op, content: int -> int)
    requires Sound(k) && Enabled(k, op) && op.GetChar? && Step(k, op, content).Fine?
    ensures Moves(k, op, Step(k, op, content).s)
  {
    Rings.GetTakesFirst(k.log.ring);
    BlockKeeps(k.x.s, Keyboard, 0, 0);
  }

  lemma DiskIrqMoves(k: State, op: Op, content: int -> int)
    requires Sound(k) && Enabled(k, op) && KInv(k, content) && op.DiskIrq? && Step(k, op, content).Fine?
    ensures Moves(k, op, Step(k, op, content).s)
  {
    assert Facets(k, content, DiskOrder);
    IrqLine(k.x, content(k.x.d.command[0]));
  }

  lemma KeyIrqMoves(k: State, op: Op, content: int -> int)
    requires Sound(k) && Enabled(k, op) && op.KeyIrq? && Step(k, op, content).Fine?
    ensures Moves(k, op, Step(k, op, content).s)
  {
    UnblockKeeps(k.x.s, Keyboard);
    var s, s', n := k.x.s, Unblock(k.x.s, Keyboard, 0).s, Half(|Items(k.x.s, Keyboard)|);
    assert FreedPart(s, s', Keyboard, n, Source) && FreedPart(s, s', Keyboard, n, Target);
    assert FreedPart(s, s', Keyboard, n, Elsewhere);
  }

  /** A new process gets the next pid; nobody else's changes. */
  ghost predicate Numbers(k: State, op: Op, k': State) {
    if op.Spawn? then
      && op.e in k'.x.s.procs && k'.x.s.procs[op.e].pid == k.x.s.nextPid
      && k'.x.s.nextPid == (k.x.s.nextPid + 1) % 0x1_0000_0000
      && forall x | x in k.x.s.procs && x in k'.x.s.procs :: k'.x.s.procs[x].pid == k.x.s.procs[x].pid
    else SamePids(k.x.s, k'.x.s)
  }

  lemma DispatchNumbers(k: State, op: Op, content: int -> int)
    requires Sound(k) && Enabled(k, op) && KInv(k, content) && Dispatches(op) && Step(k, op, content).Fine?
    ensures Numbers(k, op, Step(k, op, content).s)
  {
    hide Linked, Placed;
    HandedKeeps(k, op, content);
    RescheduleEffect(Handed(k, op));
    assert RescheduledPart(Handed(k, op), Step(k, op, content).s.x.s, Kept);
  }

  lemma StepNumbers(k: State, op: Op, content: int -> int)
    requires Sound(k) && Enabled(k, op) && KInv(k, content) && Step(k, op, content).Fine?
    ensures Numbers(k, op, Step(k, op, content).s)
  {
    hide Linked, Placed;
    match op
    case Spawn(e, junk) => AddKeeps(k.x.s, e, junk);
    case Read(block, dest) => ReadBlockLine(k.x, block, dest);
    case GetChar => BlockKeeps(k.x.s, Keyboard, 0, 0);
    case DiskIrq =>
      assert Facets(k, content, DiskOrder);
      IrqLine(k.x, content(k.x.d.command[0]));
    case KeyIrq(b) =>
      UnblockKeeps(k.x.s, Keyboard);
      var s', n := Unblock(k.x.s, Keyboard, 0).s, Half(|Items(k.x.s, Keyboard)|);
      assert FreedPart(k.x.s, s', Keyboard, n, Untouched) && FreedPart(k.x.s, s', Keyboard, n, Woken);
      assert FreedPart(k.x.s, s', Keyboard, n, Rest);
    case _ => DispatchNumbers(k, op, content);
  }

  /** What the step lemmas establish. */
  ghost predicate Good(k: State, op: Op, content: int -> int)
    requires Sound(k) && Enabled(k, op)
  {
    var r := Step(k, op, content);
    && (r.Halted? <==> op.Spawn? && op.junk)
    && (k.x.s.guarded ==> !r.Corrupt?)
    && (r.Fine? ==> KInv(r.s, content) && Advances(k, op, r.s))
  }

  lemma SpawnKeeps(k: State, op: Op, content: int -> int)
    requires Sound(k) && Enabled(k, op) && KInv(k, content) && op.Spawn?
    ensures Good(k, op, content)
  {
    AddKeeps(k.x.s, op.e, op.junk);
    var r := Add(k.x.s, op.e, op.junk);
    forall f ensures Facets(k, content, f) {}
    if r.Fine? {
      assert Facets(k, content, DiskOrder) && Facets(k, content, OneReader);
      DiskFrame(k.x, r.s, content);
      forall f ensures Facets(WithSched(k, r.s), content, f) {
        assert Facets(k, content, f);
      }
    }
  }

  /** The state that a dispatch hands to Reschedule. */
  function Handed(k: State, op: Op): Sched
    requires k.inProc ==> k.x.s.cur in k.x.s.procs
  {
    if op.Exit? && k.inProc then Exited(k.x.s) else k.x.s
  }

  lemma HandedKeeps(k: State, op: Op, content: int -> int)
    requires Sound(k) && Enabled(k, op) && KInv(k, content) && Dispatches(op)
    ensures k.inProc ==> k.x.s.cur in k.x.s.procs
    ensures Leaving(Handed(k, op)) && !Handed(k, op).low
    ensures Step(k, op, content) == match Reschedule(Handed(k, op))
                                    case Halted => Halted
                                    case Corrupt => Corrupt
                                    case Fine(s) => Fine(Loaded(k, s))
    ensures CurExited(Handed(k, op)) <==> op.Exit?
  {
    var s := k.x.s;
    assert Facets(k, content, Scheduling) && Facets(k, content, Control);
    if s.cur != 0 { assert Placed(s, s.cur); }
    if op.Exit? { ExitedKeeps(k); }
  }

  /** What Reschedule leaves alone keeps the disk and the keyboard in order. */
  lemma DispatchedInv(k: State, op: Op, s': Sched, content: int -> int)
    requires Sound(k) && Enabled(k, op) && KInv(k, content) && Dispatches(op)
    requires k.inProc ==> k.x.s.cur in k.x.s.procs
    requires Inv(s') && RescheduledPart(Handed(k, op), s', Waiting)
    requires RescheduledPart(Handed(k, op), s', Live) && RescheduledPart(Handed(k, op), s', Kept)
    ensures KInv(Loaded(k, s'), content)
  {
    assert Facets(k, content, DiskOrder) && Facets(k, content, OneReader) && Facets(k, content, Scheduling);
    InProcs(s', InProgress);
    InProcs(s', Blocked);
    DiskFrame(k.x, s', content);
    if s'.cur != 0 { assert Placed(s', s'.cur); }
    forall f ensures Facets(Loaded(k, s'), content, f) {}
  }

  lemma DispatchAdvances(k: State, op: Op, s': Sched)
    requires Sound(k) && Enabled(k, op) && Dispatches(op) && !k.x.s.low
    requires k.inProc ==> k.x.s.cur in k.x.s.procs
    requires CurExited(Handed(k, op)) <==> op.Exit?
    requires Leaving(Handed(k, op)) && Reschedule(Handed(k, op)) == Fine(s')
    requires RescheduledPart(Handed(k, op), s', Live) && RescheduledPart(Handed(k, op), s', Running)
    ensures Advances(k, op, Loaded(k, s'))
  {
    RescheduleNull(Handed(k, op));
    Runnable(Handed(k, op));
  }

  lemma DispatchKeeps(k: State, op: Op, content: int -> int)
    requires Sound(k) && Enabled(k, op) && KInv(k, content) && Dispatches(op)
    ensures Good(k, op, content)
  {
    HandedKeeps(k, op, content);
    var s := Handed(k, op);
    RescheduleEffect(s);
    var s' := Reschedule(s).s;
    assert RescheduledPart(s, s', Waiting) && RescheduledPart(s, s', Live);
    assert RescheduledPart(s, s', Running) && RescheduledPart(s, s', Kept);
    assert Facets(k, content, Scheduling);
    DispatchedInv(k, op, s', content);
    DispatchAdvances(k, op, s');
  }

  lemma ReadKeeps(k: State, op: Op, content: int -> int)
    requires Sound(k) && Enabled(k, op) && KInv(k, content) && op.Read?
    ensures Good(k, op, content)
  {
    hide InOrder, OneCommand, Linked, Placed;
    assert Facets(k, content, Scheduling) && Facets(k, content, Control);
    assert Facets(k, content, DiskOrder) && Facets(k, content, OneReader);
    ReadBlockKeeps(k.x, op.block, op.dest, content);
    var r := Step(k, op, content);
    if r.Fine? {
      forall f ensures Facets(r.s, content, f) {}
    }
  }

  lemma GetCharKeeps(k: State, op: Op, content: int -> int)
    requires Sound(k) && Enabled(k, op) && KInv(k, content) && op.GetChar?
    ensures Good(k, op, content)
  {
    hide Linked, Spelled;
    assert Facets(k, content, Scheduling) && Facets(k, content, Control);
    assert Facets(k, content, DiskOrder) && Facets(k, content, OneReader);
    Rings.GetTakesFirst(k.log.ring);
    Rings.StepGood(k.log, Rings.Read);
    BlockKeeps(k.x.s, Keyboard, 0, 0);
    var r := Step(k, op, content);
    if r.Fine? {
      InProcs(k.x.s, InProgress);
      InProcs(k.x.s, Blocked);
      assert Placed(k.x.s, k.x.s.cur);
      DiskFrame(k.x, r.s.x.s, content);
      forall f ensures Facets(r.s, content, f) {}
    }
  }

  lemma DiskIrqKeeps(k: State, op: Op, content: int -> int)
    requires Sound(k) && Enabled(k, op) && KInv(k, content) && op.DiskIrq?
    ensures Good(k, op, content)
  {
    assert Facets(k, content, Scheduling) && Facets(k, content, Control);
    assert Facets(k, content, DiskOrder) && Facets(k, content, OneReader);
    IrqFatal(k.x, content(k.x.d.command[0]));
    IrqKeeps(k.x, content);
    var r := Irq(k.x, content(k.x.d.command[0]));
    if r.Fine? {
      if k.x.s.cur != 0 {
        assert Placed(k.x.s, k.x.s.cur);
        if k.x.s.procs[k.x.s.cur].owner == Nowhere { IrqSpares(k.x, content(k.x.d.command[0]), k.x.s.cur); }
      }
      var k' := k.(x := r.s);
      forall f ensures Facets(k', content, f) {}
      assert Advances(k, op, k');
    }
  }

  lemma KeyIrqKeeps(k: State, op: Op, content: int -> int)
    requires Sound(k) && Enabled(k, op) && KInv(k, content) && op.KeyIrq?
    ensures Good(k, op, content)
  {
    UnblockKeeps(k.x.s, Keyboard);
    var r := Unblock(k.x.s, Keyboard, 0);
    if r.Fine? {
      var s, s', n := k.x.s, r.s, Half(|Items(k.x.s, Keyboard)|);
      assert FreedPart(s, s', Keyboard, n, Target) && FreedPart(s, s', Keyboard, n, Untouched);
      assert FreedPart(s, s', Keyboard, n, Rest);
      KeyedInv(k, op.b, s', content);
      assert Advances(k, op, WithSched(Key(k, op.b), s'));
    }
  }

  lemma KeyedInv(k: State, b: int, s': Sched, content: int -> int)
    requires Sound(k) && KInv(k, content)
    requires Inv(s') && Freed(k.x.s, s', Keyboard, Half(|Items(k.x.s, Keyboard)|))
    ensures KInv(WithSched(Key(k, b), s'), content)
  {
    assert Facets(k, content, Scheduling) && Facets(k, content, Control);
    assert Facets(k, content, DiskOrder) && Facets(k, content, OneReader);
    Rings.StepGood(k.log, Rings.Byte(b));
    var s, n := k.x.s, Half(|Items(k.x.s, Keyboard)|);
    assert FreedPart(s, s', Keyboard, n, Source) && FreedPart(s, s', Keyboard, n, Untouched);
    assert FreedPart(s, s', Keyboard, n, Elsewhere) && FreedPart(s, s', Keyboard, n, Rest);
    InProcs(s, InProgress);
    InProcs(s, Blocked);
    InProcs(s, Keyboard);
    DiskFrame(k.x, s', content);
    if s.cur != 0 { assert Placed(s, s.cur); }
    forall f ensures Facets(WithSched(Key(k, b), s'), content, f) {}
  }
}
