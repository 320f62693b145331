/** What the cooperative scheduler does to its processes and queues, as functions
    of its state. The queues are the FIFO views of module Queues, either as the
    code links them or guarded as intended. */
module SchedSpec {
  import Q = Queues

  type View = Q.View<int>

  /** The scheduler's queue and the wait queues of the disk and the keyboard. */
  datatype QueueId = RunQueue | InProgress | Blocked | Keyboard

  datatype ProcState = RUNNING | RUNABLE | EXITED | BLOCKED

  datatype Owner = Nowhere | In(q: QueueId)

  /** A queue entry: its process' state, its queue and block_data_1, block_data_2. */
  datatype Proc = Proc(pid: int, state: ProcState, owner: Owner, data1: int, data2: int)

  type Queues = m: map<QueueId, View> | forall q :: q in m witness NoQueues()

  const EVERY_QUEUE: set<QueueId> := {RunQueue, InProgress, Blocked, Keyboard}

  lemma EveryQueue()
    ensures forall q :: q in EVERY_QUEUE
  {
    forall q ensures q in EVERY_QUEUE {
      match q { case RunQueue => case InProgress => case Blocked => case Keyboard => }
    }
  }

  function NoQueues(): (m: map<QueueId, View>)
    ensures forall q :: q in m && m[q] == Q.Emptied()
  {
    EveryQueue();
    map q | q in EVERY_QUEUE :: Q.Emptied()
  }

  /** Entries are numbered by address and cur is 0 for NULL; low says whether the
      word at address 0, read through a NULL cur, happens to equal EXITED. */
  datatype Sched = Sched(guarded: bool, low: bool, cur: int, queues: Queues, procs: map<int, Proc>, nextPid: int)

  /** Halted is a FATAL, Corrupt a push onto a queue with someone else's stale head. */
  datatype Result<+T> = Halted | Corrupt | Fine(s: T) {
    predicate IsFailure() { !Fine? }
    function PropagateFailure<U>(): Result<U>
      requires IsFailure()
    {
      if Halted? then Halted else Corrupt
    }
    function Extract(): T
      requires !IsFailure()
    {
      s
    }
  }

  type Outcome = Result<Sched>

  predicate CanRun(state: ProcState) {
    state == RUNNING || state == RUNABLE
  }

  function Items(s: Sched, q: QueueId): seq<int> { s.queues[q].items }

  /** The owner fields say what is in queue q, and nothing is in it twice. */
  ghost predicate Spelled(items: seq<int>, procs: map<int, Proc>, q: QueueId) {
    && (forall e :: e in items <==> e in procs && procs[e].owner == In(q))
    && (forall i, j :: 0 <= i < j < |items| ==> items[i] != items[j])
  }

  ghost predicate Linked(s: Sched, q: QueueId) {
    && Spelled(Items(s, q), s.procs, q)
    && (Items(s, q) != [] ==> s.queues[q].left == [])
    && (s.queues[q].solo ==> |Items(s, q)| == 1)
    && (s.guarded ==> s.queues[q].left == [] && !s.queues[q].solo)
  }

  ghost predicate AllLinked(s: Sched) {
    && (forall q :: Linked(s, q))
    && (s.cur != 0 ==> s.cur in s.procs)
    && (forall e | e in s.procs :: e > 0)
  }

  /** A process is in the run queue iff RUNABLE, in a wait queue iff BLOCKED, and
      in no queue iff it is the current one and RUNNING. */
  ghost predicate Placed(s: Sched, e: int)
    requires e in s.procs
  {
    match s.procs[e].owner
    case Nowhere => e == s.cur && s.procs[e].state == RUNNING
    case In(q) => if q == RunQueue then e != s.cur && s.procs[e].state == RUNABLE else s.procs[e].state == BLOCKED
  }

  ghost predicate Inv(s: Sched) {
    AllLinked(s) && forall e | e in s.procs :: Placed(s, e)
  }

  function Enqueue(s: Sched, q: QueueId, e: int): (r: Outcome)
    requires e in s.procs
  {
    if s.procs[e].owner != Nowhere then Halted
    else if !Q.Ready(s.queues[q], e) then Corrupt
    else
      var v := if s.guarded then Q.View(s.queues[q].items + [e], false, []) else Q.Pushed(s.queues[q], e);
      Fine(s.(queues := s.queues[q := v], procs := s.procs[e := s.procs[e].(owner := In(q))]))
  }

  function Dequeue(s: Sched, q: QueueId): Sched
    requires Items(s, q) != [] && Items(s, q)[0] in s.procs
  {
    var e := Items(s, q)[0];
    s.(queues := s.queues[q := Q.Popped(s.queues[q])], procs := s.procs[e := s.procs[e].(owner := Nowhere)])
  }

  function Set(s: Sched, e: int, state: ProcState, data1: int, data2: int): Sched
    requires e in s.procs
  {
    s.(procs := s.procs[e := s.procs[e].(state := state, data1 := data1, data2 := data2)])
  }

  lemma SpelledPush(items: seq<int>, procs: map<int, Proc>, q: QueueId, e: int)
    requires Spelled(items, procs, q) && e in procs && procs[e].owner == Nowhere
    ensures Spelled(items + [e], procs[e := procs[e].(owner := In(q))], q)
  {}

  lemma SpelledPop(items: seq<int>, procs: map<int, Proc>, q: QueueId)
    requires Spelled(items, procs, q) && items != []
    ensures items[0] in procs && procs[items[0]].owner == In(q)
    ensures Spelled(items[1..], procs[items[0] := procs[items[0]].(owner := Nowhere)], q)
  {
    assert items == [items[0]] + items[1..];
    assert items[0] in items;
    assert items[0] !in items[1..];
  }

  lemma SpelledOther(items: seq<int>, procs: map<int, Proc>, q: QueueId, e: int, proc: Proc)
    requires Spelled(items, procs, q)
    requires proc.owner == In(q) <==> e in procs && procs[e].owner == In(q)
    ensures Spelled(items, procs[e := proc], q)
  {}

  lemma EnqueueKeeps(s: Sched, q: QueueId, e: int)
    requires AllLinked(s) && e in s.procs
    ensures Enqueue(s, q, e).Fine? ==> AllLinked(Enqueue(s, q, e).s)
    ensures s.guarded && s.procs[e].owner == Nowhere ==> Enqueue(s, q, e).Fine?
  {
    assert Linked(s, q);
    if Enqueue(s, q, e).Fine? {
      var s' := Enqueue(s, q, e).s;
      forall p ensures Linked(s', p) {
        assert Linked(s, p);
        if p == q {
          SpelledPush(Items(s, p), s.procs, p, e);
        } else {
          SpelledOther(Items(s, p), s.procs, p, e, s.procs[e].(owner := In(q)));
        }
      }
    }
  }

  lemma DequeueKeeps(s: Sched, q: QueueId)
    requires AllLinked(s) && Items(s, q) != []
    ensures Items(s, q)[0] in s.procs && s.procs[Items(s, q)[0]].owner == In(q)
    ensures AllLinked(Dequeue(s, q))
  {
    assert Linked(s, q);
    SpelledPop(Items(s, q), s.procs, q);
    var s', e := Dequeue(s, q), Items(s, q)[0];
    forall p ensures Linked(s', p) {
      assert Linked(s, p);
      if p != q {
        SpelledOther(Items(s, p), s.procs, p, e, s.procs[e].(owner := Nowhere));
      }
    }
  }

  lemma SetKeeps(s: Sched, e: int, state: ProcState, data1: int, data2: int)
    requires AllLinked(s) && e in s.procs
    ensures AllLinked(Set(s, e, state, data1, data2))
  {
    forall p ensures Linked(Set(s, e, state, data1, data2), p) {
      assert Linked(s, p);
      SpelledOther(Items(s, p), s.procs, p, e, s.procs[e].(state := state, data1 := data1, data2 := data2));
    }
  }

  // The scheduler's operations.

  /** Scheduler::Add of a freshly allocated entry e; junk says whether the memory
      it was given holds a non-NULL queue field, which nothing initialises. */
  function Add(s: Sched, e: int, junk: bool): Outcome
    requires e !in s.procs
  {
    if junk then Halted
    else
      var proc := Proc(s.nextPid, RUNABLE, Nowhere, 0, 0);
      Enqueue(s.(procs := s.procs[e := proc], nextPid := (s.nextPid + 1) % 0x1_0000_0000), RunQueue, e)
  }

  /** The body of Unblock's loop: the current process, blocked but not yet out of
      the CPU, goes back to RUNNING without being queued. */
  function UnblockOne(s: Sched, q: QueueId): Outcome
    requires AllLinked(s) && Items(s, q) != []
  {
    DequeueKeeps(s, q);
    var e := Items(s, q)[0];
    if e == s.cur then Fine(Set(Dequeue(s, q), e, RUNNING, 0, 0))
    else Enqueue(Set(Dequeue(s, q), e, RUNABLE, 0, 0), RunQueue, e)
  }

  lemma UnblockOneKeeps(s: Sched, q: QueueId)
    requires AllLinked(s) && Items(s, q) != []
    ensures UnblockOne(s, q).Fine? ==> AllLinked(UnblockOne(s, q).s)
    ensures UnblockOne(s, q) != Halted
    ensures s.guarded ==> UnblockOne(s, q).Fine?
    ensures q != RunQueue && UnblockOne(s, q).Fine? ==> Items(UnblockOne(s, q).s, q) == Items(s, q)[1..]
  {
    DequeueKeeps(s, q);
    var e := Items(s, q)[0];
    var s1 := Set(Dequeue(s, q), e, if e == s.cur then RUNNING else RUNABLE, 0, 0);
    SetKeeps(Dequeue(s, q), e, if e == s.cur then RUNNING else RUNABLE, 0, 0);
    if e != s.cur { EnqueueKeeps(s1, RunQueue, e); }
  }

  /** Unblock from its loop index i on: the bound is the length at each turn. */
  function Unblock(s: Sched, q: QueueId, i: nat): Outcome
    requires AllLinked(s) && q != RunQueue
    decreases |Items(s, q)|
  {
    if i >= |Items(s, q)| then Fine(s)
    else
      UnblockOneKeeps(s, q);
      var s' :- UnblockOne(s, q);
      Unblock(s', q, i + 1)
  }

  /** The state Reschedule reads through curProc. */
  predicate CurExited(s: Sched)
    requires s.cur != 0 ==> s.cur in s.procs
  {
    if s.cur == 0 then s.low else s.procs[s.cur].state == EXITED
  }

  /** The process Reschedule returns, 0 for NULL. */
  function Chosen(s: Sched): int {
    if s.cur != 0 && s.cur in s.procs && CanRun(s.procs[s.cur].state) then s.cur else 0
  }

  /** The first step of Reschedule: an exited process is freed. */
  function Reaped(s: Sched): Sched
    requires AllLinked(s)
  {
    if s.cur != 0 && CurExited(s) then s.(procs := s.procs - {s.cur}, cur := 0) else s
  }

  /** The second: a current process that can still run queues up behind the others. */
  function Requeued(s: Sched): Outcome
    requires s.cur != 0 ==> s.cur in s.procs
  {
    if Chosen(s) == 0 then Fine(s)
    else Enqueue(Set(s, s.cur, RUNABLE, s.procs[s.cur].data1, s.procs[s.cur].data2), RunQueue, s.cur)
  }

  /** Freeing a NULL entry reads a header 12 bytes below address 0, in a slot without a
      table: a fatal page fault. */
  function Reschedule(s: Sched): Outcome
    requires AllLinked(s)
  {
    if CurExited(s) && s.cur == 0 then Halted
    else
      var s1 := Reaped(s);
      if Items(s1, RunQueue) == [] then Fine(s1)
      else
        var s2 :- Requeued(s1);
        Switch(s2)
  }

  /** Takes the next process off the run queue. */
  function Switch(s: Sched): Outcome {
    if Items(s, RunQueue) == [] || Items(s, RunQueue)[0] !in s.procs then Fine(s.(cur := 0))
    else
      var e := Items(s, RunQueue)[0];
      var s' := Dequeue(s, RunQueue);
      Fine(Set(s', e, RUNNING, s'.procs[e].data1, s'.procs[e].data2).(cur := e))
  }

  function BlockCurProc(s: Sched, q: QueueId, data1: int, data2: int): Outcome
    requires s.cur in s.procs
  {
    Enqueue(Set(s, s.cur, BLOCKED, data1, data2), q, s.cur)
  }

  /** The first half of syscall_exit. */
  function Exited(s: Sched): Sched
    requires s.cur in s.procs
  {
    Set(s, s.cur, EXITED, s.procs[s.cur].data1, s.procs[s.cur].data2)
  }
}
