/** Reading blocks from the disk: at most one command is outstanding, the other
    readers wait in a queue. */
module AtaSpec {
  import opened SchedSpec
  import opened SchedLaws

  /** A call of ReadBlock: who called, for which block, and where to. */
  datatype Request = Request(e: int, block: int, dest: int)

  /** What an interrupt stored where, and for whom. */
  datatype Delivery = Delivery(e: int, dest: int, data: int)

  /** command is the block the device was last told to read, if it has not
      answered; issued and done record all the calls and answers so far. */
  datatype Disk = Disk(command: seq<int>, memory: map<int, int>, issued: seq<Request>, done: seq<Delivery>)

  datatype Reader = Reader(s: Sched, d: Disk)

  /** The queue operations of MoveNext on the scheduler's state. */
  function Moved(s: Sched): Outcome
    requires Items(s, Blocked) != [] && Items(s, Blocked)[0] in s.procs
  {
    Enqueue(Dequeue(s, Blocked), InProgress, Items(s, Blocked)[0])
  }

  /** Moves the first waiting reader to the device and tells it the block. */
  function MoveNext(x: Reader): Result<Reader>
    requires Items(x.s, Blocked) != [] && Items(x.s, Blocked)[0] in x.s.procs
  {
    var s :- Moved(x.s);
    var head := Items(s, InProgress)[0];
    Fine(Reader(s, x.d.(command := if head in s.procs then [s.procs[head].data1] else [])))
  }

  function ReadBlock(x: Reader, block: int, dest: int): Result<Reader>
    requires Inv(x.s) && x.s.cur != 0
  {
    BlockKeeps(x.s, Blocked, block, dest);
    var s :- BlockCurProc(x.s, Blocked, block, dest);
    var x' := Reader(s, x.d.(issued := x.d.issued + [Request(s.cur, block, dest)]));
    if Items(s, InProgress) == [] then
      InProcs(s, Blocked);
      MoveNext(x')
    else Fine(x')
  }

  lemma InProcs(s: Sched, q: QueueId)
    requires AllLinked(s)
    ensures forall e | e in Items(s, q) :: e in s.procs && s.procs[e].owner == In(q)
    ensures Items(s, q) != [] ==> Items(s, q)[0] in s.procs
  {
    assert Linked(s, q);
  }

  /** The interrupt: data is what the device hands out for the block it was told. */
  function Irq(x: Reader, data: int): Result<Reader>
    requires Inv(x.s)
  {
    if Items(x.s, InProgress) == [] then Halted
    else
      InProcs(x.s, InProgress);
      var e := Items(x.s, InProgress)[0];
      var dest := x.s.procs[e].data2;
      UnblockKeeps(x.s, InProgress);
      var s :- Unblock(x.s, InProgress, 0);
      var x' := Reader(s, Disk([], x.d.memory[dest := data], x.d.issued, x.d.done + [Delivery(e, dest, data)]));
      if Items(s, Blocked) != [] then
        InProcs(s, Blocked);
        MoveNext(x')
      else Fine(x')
  }

  function Pending(s: Sched, es: seq<int>): seq<Request> {
    seq(|es|, i requires 0 <= i < |es| =>
      if es[i] in s.procs then Request(es[i], s.procs[es[i]].data1, s.procs[es[i]].data2) else Request(0, 0, 0))
  }

  function Answer(r: Request, content: int -> int): Delivery {
    Delivery(r.e, r.dest, content(r.block))
  }

  function Stored(done: seq<Delivery>): map<int, int> {
    if done == [] then map[]
    else Stored(done[..|done| - 1])[done[|done| - 1].dest := done[|done| - 1].data]
  }

  /** The request the device is working on, and those behind it. */
  function Open(s: Sched): seq<Request> { Pending(s, Items(s, InProgress) + Items(s, Blocked)) }

  /** The requests are answered in the order of their calls, each exactly once and
      with the contents of its own block. */
  ghost predicate InOrder(x: Reader, content: int -> int) {
    && |x.d.done| + |Open(x.s)| == |x.d.issued|
    && x.d.issued[|x.d.done|..] == Open(x.s)
    && (forall i :: 0 <= i < |x.d.done| ==> x.d.done[i] == Answer(x.d.issued[i], content))
    && x.d.memory == Stored(x.d.done)
  }

  /** One command at a time, for the block of the first open request. */
  ghost predicate OneCommand(x: Reader) {
    && |Items(x.s, InProgress)| <= 1
    && (Items(x.s, InProgress) == [] ==> Items(x.s, Blocked) == [])
    && x.d.command == if Items(x.s, InProgress) == [] then [] else [Open(x.s)[0].block]
  }

  ghost predicate SameWork(s: Sched, s': Sched) {
    && s'.cur == s.cur && s'.procs.Keys == s.procs.Keys
    && s'.guarded == s.guarded && s'.low == s.low && s'.nextPid == s.nextPid
    && (forall q | q != Blocked && q != InProgress :: s'.queues[q] == s.queues[q])
    && (forall e | e in s.procs :: s'.procs[e] == s.procs[e].(owner := s'.procs[e].owner))
  }

  lemma MovedKeeps(s: Sched)
    requires Inv(s) && Items(s, Blocked) != []
    ensures Items(s, Blocked)[0] in s.procs
    ensures Moved(s).Corrupt? <==> !Q.Ready(s.queues[InProgress], Items(s, Blocked)[0])
    ensures Moved(s) != Halted && (s.guarded ==> Moved(s).Fine?)
    ensures Moved(s).Fine? ==>
              && Inv(Moved(s).s) && SameWork(s, Moved(s).s)
              && Items(Moved(s).s, Blocked) == Items(s, Blocked)[1..]
              && Items(Moved(s).s, InProgress) == Items(s, InProgress) + [Items(s, Blocked)[0]]
  {
    DequeueKeeps(s, Blocked);
    var e, s1 := Items(s, Blocked)[0], Dequeue(s, Blocked);
    assert Placed(s, e);
    EnqueueKeeps(s1, InProgress, e);
    assert Linked(s1, InProgress);
    if Moved(s).Fine? {
      var s' := Moved(s).s;
      forall p | p in s'.procs ensures Placed(s', p) { assert Placed(s, p); }
    }
  }

  /** The open requests are a matter of the queues' order and the blocked data. */
  lemma PendingSame(s: Sched, s': Sched, es: seq<int>)
    requires forall e | e in es && e in s.procs ::
               e in s'.procs && s'.procs[e].data1 == s.procs[e].data1 && s'.procs[e].data2 == s.procs[e].data2
    requires forall e | e in es :: e in s.procs
    ensures Pending(s', es) == Pending(s, es)
  {
    forall i | 0 <= i < |es| ensures Pending(s', es)[i] == Pending(s, es)[i] {
      assert es[i] in es;
    }
  }

  lemma OpenSame(s: Sched, s': Sched)
    requires Inv(s) && Items(s', InProgress) + Items(s', Blocked) == Items(s, InProgress) + Items(s, Blocked)
    requires forall e | e in Items(s, InProgress) + Items(s, Blocked) && e in s.procs ::
               e in s'.procs && s'.procs[e].data1 == s.procs[e].data1 && s'.procs[e].data2 == s.procs[e].data2
    ensures Open(s') == Open(s)
  {
    InProcs(s, InProgress);
    InProcs(s, Blocked);
    PendingSame(s, s', Items(s, InProgress) + Items(s, Blocked));
  }

  lemma MoveNextKeeps(x: Reader, content: int -> int)
    requires Inv(x.s) && Items(x.s, InProgress) == [] && Items(x.s, Blocked) != [] && InOrder(x, content)
    ensures Items(x.s, Blocked)[0] in x.s.procs
    ensures MoveNext(x).Corrupt? <==> !Q.Ready(x.s.queues[InProgress], Items(x.s, Blocked)[0])
    ensures MoveNext(x) != Halted && (x.s.guarded ==> MoveNext(x).Fine?)
    ensures MoveNext(x).Fine? ==>
              && Inv(MoveNext(x).s.s) && OneCommand(MoveNext(x).s) && InOrder(MoveNext(x).s, content)
              && SameWork(x.s, MoveNext(x).s.s)
              && MoveNext(x).s.d.issued == x.d.issued && MoveNext(x).s.d.done == x.d.done
  {
    MovedKeeps(x.s);
    if MoveNext(x).Fine? {
      var s' := Moved(x.s).s;
      assert Items(s', InProgress) + Items(s', Blocked) == Items(x.s, InProgress) + Items(x.s, Blocked);
      InProcs(s', InProgress);
      OpenSame(x.s, s');
    }
  }

  /** ReadBlock is FATAL only for a caller that is already blocked, and otherwise
      adds one open request, commanding the device if it was idle. */
  lemma ReadBlockKeeps(x: Reader, block: int, dest: int, content: int -> int)
    requires Inv(x.s) && x.s.cur != 0 && OneCommand(x) && InOrder(x, content)
    ensures ReadBlock(x, block, dest).Halted? <==> x.s.procs[x.s.cur].state == BLOCKED
    ensures x.s.guarded && x.s.procs[x.s.cur].state != BLOCKED ==> ReadBlock(x, block, dest).Fine?
    ensures ReadBlock(x, block, dest).Fine? ==>
              var x' := ReadBlock(x, block, dest).s;
              && Inv(x'.s) && OneCommand(x') && InOrder(x', content)
              && x'.s.cur == x.s.cur && x'.s.procs.Keys == x.s.procs.Keys
              && x'.d.issued == x.d.issued + [Request(x.s.cur, block, dest)] && x'.d.done == x.d.done
              && (forall q | q != Blocked && q != InProgress :: x'.s.queues[q] == x.s.queues[q])
              && x'.s.procs[x.s.cur].state == BLOCKED
  {
    BlockKeeps(x.s, Blocked, block, dest);
    var r := BlockCurProc(x.s, Blocked, block, dest);
    if r.Fine? {
      var x1 := Reader(r.s, x.d.(issued := x.d.issued + [Request(r.s.cur, block, dest)]));
      OpenGrows(x.s, r.s, block, dest);
      assert x1.d.issued[|x1.d.done|..] == x.d.issued[|x.d.done|..] + [Request(x.s.cur, block, dest)];
      assert InOrder(x1, content);
      if Items(r.s, InProgress) == [] {
        MoveNextKeeps(x1, content);
      }
    }
  }

  lemma OpenGrows(s: Sched, s': Sched, block: int, dest: int)
    requires Inv(s) && s.cur != 0 && BlockCurProc(s, Blocked, block, dest) == Fine(s')
    ensures Open(s') == Open(s) + [Request(s.cur, block, dest)]
  {
    BlockKeeps(s, Blocked, block, dest);
    InProcs(s, InProgress);
    InProcs(s, Blocked);
    var es := Items(s, InProgress) + Items(s, Blocked);
    PendingSame(s, s', es);
    assert Items(s', InProgress) + Items(s', Blocked) == es + [s.cur];
    assert Pending(s', es + [s.cur]) == Pending(s', es) + [Request(s.cur, block, dest)];
  }

  /** Waking the reader drains InProgress, because it held one entry. */
  lemma WakeKeeps(s: Sched)
    requires Inv(s) && |Items(s, InProgress)| == 1
    ensures Unblock(s, InProgress, 0) != Halted && (s.guarded ==> Unblock(s, InProgress, 0).Fine?)
    ensures Unblock(s, InProgress, 0).Fine? ==>
              var s' := Unblock(s, InProgress, 0).s;
              && Inv(s') && Items(s', InProgress) == []
              && s'.queues[Blocked] == s.queues[Blocked] && s'.queues[Keyboard] == s.queues[Keyboard]
              && s'.cur == s.cur && s'.procs.Keys == s.procs.Keys && s'.guarded == s.guarded && s'.low == s.low
              && s'.nextPid == s.nextPid
              && Items(s', RunQueue) == Items(s, RunQueue) + Others(Items(s, InProgress), s.cur)
              && (forall x | x in s.procs && x !in Items(s, InProgress) :: s'.procs[x] == s.procs[x])
              && forall x | x in s.procs && x in Items(s, InProgress) :: s'.procs[x] == Awake(s.procs[x], x == s.cur)
  {
    hide Linked, Placed, Spelled, Unblock;
    UnblockKeeps(s, InProgress);
    if Unblock(s, InProgress, 0).Fine? {
      var s' := Unblock(s, InProgress, 0).s;
      assert Items(s, InProgress)[..1] == Items(s, InProgress) && Half(1) == 1;
      assert FreedPart(s, s', InProgress, 1, Source) && FreedPart(s, s', InProgress, 1, Target);
      assert FreedPart(s, s', InProgress, 1, Untouched) && FreedPart(s, s', InProgress, 1, Elsewhere);
      assert FreedPart(s, s', InProgress, 1, Rest) && FreedPart(s, s', InProgress, 1, Woken);
    }
  }

  /** The first open request is the reader's. */
  lemma WakeOpen(s: Sched, s': Sched)
    requires Inv(s) && |Items(s, InProgress)| == 1
    requires Items(s', InProgress) == [] && Items(s', Blocked) == Items(s, Blocked)
    requires s'.procs.Keys == s.procs.Keys
    requires forall x | x in s.procs && x !in Items(s, InProgress) :: s'.procs[x] == s.procs[x]
    ensures Open(s) != [] && Open(s') == Open(s)[1..]
  {
    var e := Items(s, InProgress)[0];
    InProcs(s, Blocked);
    InProcs(s, InProgress);
    PendingSame(s, s', Items(s, Blocked));
    assert Items(s', InProgress) + Items(s', Blocked) == Items(s, Blocked);
    assert Items(s, InProgress) == [e];
    assert Pending(s, [e] + Items(s, Blocked))[1..] == Pending(s, Items(s, Blocked));
  }

  /** An interrupt is FATAL exactly when no command is outstanding. */
  lemma IrqFatal(x: Reader, data: int)
    requires Inv(x.s) && OneCommand(x)
    ensures Irq(x, data) == Halted <==> x.d.command == []
  {
    if x.d.command != [] {
      UnblockKeeps(x.s, InProgress);
      assert Half(1) == 1;
      if Unblock(x.s, InProgress, 0).Fine? {
        var s' := Unblock(x.s, InProgress, 0).s;
        if Items(s', Blocked) != [] { MovedKeeps(s'); }
      }
    }
  }

  /** Otherwise it answers the oldest open request and starts the next. */
  lemma IrqKeeps(x: Reader, content: int -> int)
    requires Inv(x.s) && OneCommand(x) && InOrder(x, content) && x.d.command != []
    ensures x.s.guarded ==> Irq(x, content(x.d.command[0])).Fine?
    ensures Irq(x, content(x.d.command[0])).Fine? ==>
              var x' := Irq(x, content(x.d.command[0])).s;
              && Inv(x'.s) && OneCommand(x') && InOrder(x', content)
              && x'.d.issued == x.d.issued && |x'.d.done| == |x.d.done| + 1
              && x'.s.cur == x.s.cur && x'.s.procs.Keys == x.s.procs.Keys
              && x'.s.guarded == x.s.guarded && x'.s.low == x.s.low
              && x'.s.queues[Keyboard] == x.s.queues[Keyboard]
              && Items(x'.s, RunQueue) == Items(x.s, RunQueue) + Others(Items(x.s, InProgress), x.s.cur)
  {
    WakeKeeps(x.s);
    InProcs(x.s, InProgress);
    var e, data := Items(x.s, InProgress)[0], content(x.d.command[0]);
    var u := Unblock(x.s, InProgress, 0);
    if u.Fine? {
      var dest := x.s.procs[e].data2;
      var x1 := Reader(u.s, Disk([], x.d.memory[dest := data], x.d.issued, x.d.done + [Delivery(e, dest, data)]));
      WakeOpen(x.s, u.s);
      Answered(x, x1, content);
      if Items(u.s, Blocked) != [] {
        MoveNextKeeps(x1, content);
      } else {
        assert Open(u.s) == [];
      }
    }
  }

  /** The readers of the disk: the one it works for, and those behind it. */
  function DiskLine(s: Sched): seq<int> { Items(s, InProgress) + Items(s, Blocked) }

  /** Nobody's pid changes, nor the next one to be given. */
  ghost predicate SamePids(s: Sched, s': Sched) {
    s'.nextPid == s.nextPid && forall e | e in s.procs && e in s'.procs :: s'.procs[e].pid == s.procs[e].pid
  }

  /** A reader joins the line at its end. */
  lemma ReadBlockLine(x: Reader, block: int, dest: int)
    requires Inv(x.s) && x.s.cur != 0 && ReadBlock(x, block, dest).Fine?
    ensures var s' := ReadBlock(x, block, dest).s.s;
            && DiskLine(s') == DiskLine(x.s) + [x.s.cur] && SamePids(x.s, s')
            && forall q | q != Blocked && q != InProgress :: s'.queues[q] == x.s.queues[q]
  {
    hide Linked, Placed;
    BlockKeeps(x.s, Blocked, block, dest);
    var s := BlockCurProc(x.s, Blocked, block, dest).s;
    if Items(s, InProgress) == [] { MovedKeeps(s); }
  }

  /** An interrupt takes the first reader out of it. */
  lemma IrqLine(x: Reader, data: int)
    requires Inv(x.s) && |Items(x.s, InProgress)| == 1 && Irq(x, data).Fine?
    ensures var s' := Irq(x, data).s.s;
            && DiskLine(s') == DiskLine(x.s)[1..] && s'.queues[Keyboard] == x.s.queues[Keyboard]
            && SamePids(x.s, s')
            && Items(s', RunQueue) == Items(x.s, RunQueue) + Others(Items(x.s, InProgress), x.s.cur)
  {
    hide Linked, Placed, Spelled, Unblock, FreedPart;
    WakeKeeps(x.s);
    var s := Unblock(x.s, InProgress, 0).s;
    if Items(s, Blocked) != [] { MovedKeeps(s); }
  }

  /** A process that is in no queue is not touched. */
  lemma IrqSpares(x: Reader, data: int, p: int)
    requires Inv(x.s) && |Items(x.s, InProgress)| == 1 && Irq(x, data).Fine?
    requires p in x.s.procs && x.s.procs[p].owner == Nowhere
    ensures p in Irq(x, data).s.s.procs && Irq(x, data).s.s.procs[p].state == x.s.procs[p].state
  {
    WakeKeeps(x.s);
    InProcs(x.s, InProgress);
    var s' := Unblock(x.s, InProgress, 0).s;
    if Items(s', Blocked) != [] { MovedKeeps(s'); }
  }

  /** Recording the answer to the first open request. */
  lemma Answered(x: Reader, x1: Reader, content: int -> int)
    requires InOrder(x, content) && Open(x.s) != [] && Open(x1.s) == Open(x.s)[1..]
    requires x1.d.issued == x.d.issued
    requires x1.d.done == x.d.done + [Answer(Open(x.s)[0], content)]
    requires x1.d.memory == x.d.memory[Open(x.s)[0].dest := content(Open(x.s)[0].block)]
    ensures InOrder(x1, content)
  {
    assert x.d.issued[|x.d.done|] == Open(x.s)[0];
    assert x1.d.issued[|x1.d.done|..] == Open(x.s)[1..];
    assert x1.d.done[..|x1.d.done| - 1] == x.d.done;
  }

  /** What other steps of the system need to leave alone. */
  lemma DiskFrame(x: Reader, s': Sched, content: int -> int)
    requires Inv(x.s) && OneCommand(x) && InOrder(x, content)
    requires s'.queues[InProgress] == x.s.queues[InProgress] && s'.queues[Blocked] == x.s.queues[Blocked]
    requires forall e | e in Items(x.s, InProgress) + Items(x.s, Blocked) && e in x.s.procs ::
               e in s'.procs && s'.procs[e].data1 == x.s.procs[e].data1 && s'.procs[e].data2 == x.s.procs[e].data2
    ensures OneCommand(x.(s := s')) && InOrder(x.(s := s'), content)
  {
    OpenSame(x.s, s');
  }
}
