/** What every operation of the scheduler keeps, and exactly what it changes. */
module SchedLaws {
  import opened SchedSpec

  /** Inv, except that the current process may be on its way out. */
  ghost predicate Leaving(s: Sched) {
    && AllLinked(s)
    && forall e | e in s.procs ::
         || Placed(s, e)
         || (e == s.cur && s.procs[e].owner == Nowhere && s.procs[e].state == EXITED)
  }

  /** Nothing but queue q is different. */
  ghost predicate OthersSame(s: Sched, s': Sched, q: QueueId) {
    forall p | p != q :: s'.queues[p] == s.queues[p]
  }

  lemma AddKeeps(s: Sched, e: int, junk: bool)
    requires Inv(s) && e > 0 && e !in s.procs
    ensures Add(s, e, junk).Halted? <==> junk
    ensures Add(s, e, junk).Corrupt? <==> !junk && !Q.Ready(s.queues[RunQueue], e)
    ensures s.guarded && !junk ==> Add(s, e, junk).Fine?
    ensures Add(s, e, junk).Fine? ==>
              var s' := Add(s, e, junk).s;
              && Inv(s') && s'.cur == s.cur && s'.procs.Keys == s.procs.Keys + {e}
              && Items(s', RunQueue) == Items(s, RunQueue) + [e] && OthersSame(s, s', RunQueue)
              && s'.procs[e] == Proc(s.nextPid, RUNABLE, In(RunQueue), 0, 0)
              && s'.nextPid == (s.nextPid + 1) % 0x1_0000_0000
              && forall x | x in s.procs :: s'.procs[x] == s.procs[x]
  {
    var proc := Proc(s.nextPid, RUNABLE, Nowhere, 0, 0);
    var s1 := s.(procs := s.procs[e := proc], nextPid := (s.nextPid + 1) % 0x1_0000_0000);
    forall p ensures Linked(s1, p) {
      assert Linked(s, p);
      SpelledOther(Items(s, p), s.procs, p, e, proc);
    }
    EnqueueKeeps(s1, RunQueue, e);
    assert Linked(s, RunQueue);
    if Add(s, e, junk).Fine? {
      var s' := Add(s, e, junk).s;
      forall x | x in s'.procs ensures Placed(s', x) {
        if x != e { assert Placed(s, x); }
      }
    }
  }

  lemma BlockKeeps(s: Sched, q: QueueId, data1: int, data2: int)
    requires Inv(s) && s.cur != 0 && q != RunQueue
    ensures BlockCurProc(s, q, data1, data2).Halted? <==> s.procs[s.cur].state == BLOCKED
    ensures BlockCurProc(s, q, data1, data2).Corrupt? <==>
              s.procs[s.cur].state != BLOCKED && !Q.Ready(s.queues[q], s.cur)
    ensures s.guarded ==> !BlockCurProc(s, q, data1, data2).Corrupt?
    ensures BlockCurProc(s, q, data1, data2).Fine? ==>
              var s' := BlockCurProc(s, q, data1, data2).s;
              && Inv(s') && s'.cur == s.cur && s'.procs.Keys == s.procs.Keys
              && Items(s', q) == Items(s, q) + [s.cur] && OthersSame(s, s', q)
              && s'.procs[s.cur] == s.procs[s.cur].(state := BLOCKED, owner := In(q), data1 := data1, data2 := data2)
              && forall x | x in s.procs && x != s.cur :: s'.procs[x] == s.procs[x]
  {
    assert Placed(s, s.cur) && Linked(s, q);
    SetKeeps(s, s.cur, BLOCKED, data1, data2);
    var s1 := Set(s, s.cur, BLOCKED, data1, data2);
    EnqueueKeeps(s1, q, s.cur);
    if BlockCurProc(s, q, data1, data2).Fine? {
      var s' := BlockCurProc(s, q, data1, data2).s;
      forall x | x in s'.procs ensures Placed(s', x) { assert Placed(s, x); }
    }
  }

  /** The entries of a queue that Unblock moves to the run queue. */
  function Others(es: seq<int>, cur: int): seq<int> {
    if es == [] then [] else (if es[0] == cur then [] else [es[0]]) + Others(es[1..], cur)
  }

  function Half(n: nat): nat { (n + 1) / 2 }

  datatype Part = Source | Target | Elsewhere | Untouched | Woken | Rest

  /** The record of a process that Unblock frees. */
  function Awake(proc: Proc, current: bool): Proc {
    if current then Proc(proc.pid, RUNNING, Nowhere, 0, 0) else Proc(proc.pid, RUNABLE, In(RunQueue), 0, 0)
  }

  /** From s to s' the first n entries of q have left it: the current process for
      the CPU it still holds, the others for the run queue in the same order. */
  ghost predicate Freed(s: Sched, s': Sched, q: QueueId, n: nat) {
    n <= |Items(s, q)| && forall part :: FreedPart(s, s', q, n, part)
  }

  ghost predicate FreedPart(s: Sched, s': Sched, q: QueueId, n: nat, part: Part)
    requires n <= |Items(s, q)|
  {
    match part
    case Source => Items(s', q) == Items(s, q)[n..]
    case Target => Items(s', RunQueue) == Items(s, RunQueue) + Others(Items(s, q)[..n], s.cur)
    case Elsewhere => forall p | p != q && p != RunQueue :: s'.queues[p] == s.queues[p]
    case Untouched =>
      && s'.procs.Keys == s.procs.Keys
      && forall x | x in s.procs && x !in Items(s, q)[..n] :: s'.procs[x] == s.procs[x]
    case Woken =>
      forall x | x in Items(s, q)[..n] && x in s.procs :: x in s'.procs && s'.procs[x] == Awake(s.procs[x], x == s.cur)
    case Rest => s'.cur == s.cur && s'.guarded == s.guarded && s'.low == s.low && s'.nextPid == s.nextPid
  }

  lemma UnblockOneEffect(s: Sched, q: QueueId)
    requires Inv(s) && q != RunQueue && Items(s, q) != []
    ensures UnblockOne(s, q) != Halted && (s.guarded ==> UnblockOne(s, q).Fine?)
    ensures UnblockOne(s, q).Corrupt? <==> Items(s, q)[0] != s.cur && !Q.Ready(s.queues[RunQueue], Items(s, q)[0])
    ensures UnblockOne(s, q).Fine? ==> Inv(UnblockOne(s, q).s)
    ensures UnblockOne(s, q).Fine? ==> Freed(s, UnblockOne(s, q).s, q, 1)
  {
    UnblockOneKeeps(s, q);
    DequeueKeeps(s, q);
    if UnblockOne(s, q).Fine? {
      var s' := UnblockOne(s, q).s;
      assert Placed(s, Items(s, q)[0]);
      forall x | x in s'.procs ensures Placed(s', x) { assert Placed(s, x); }
      UnblockOneFrees(s, q);
    }
  }

  lemma UnblockOneFrees(s: Sched, q: QueueId)
    requires AllLinked(s) && q != RunQueue && Items(s, q) != [] && UnblockOne(s, q).Fine?
    ensures Freed(s, UnblockOne(s, q).s, q, 1)
  {
    DequeueKeeps(s, q);
    var e := Items(s, q)[0];
    assert Items(s, q)[..1] == [e] && Others([e], s.cur) == if e == s.cur then [] else [e];
    forall part ensures FreedPart(s, UnblockOne(s, q).s, q, 1, part) {}
  }

  lemma Assoc<T>(a: seq<T>, b: seq<T>, c: seq<T>)
    ensures (a + b) + c == a + (b + c)
  {}

  lemma Tail<T>(a: seq<T>, b: seq<T>)
    requires a != []
    ensures (a + b)[1..] == a[1..] + b && (a + b)[0] == a[0] && a + b != []
  {}

  lemma {:induction false} OthersConcat(a: seq<int>, b: seq<int>, cur: int)
    ensures Others(a + b, cur) == Others(a, cur) + Others(b, cur)
  {
    if a == [] {
      assert a + b == b;
      assert [] + Others(b, cur) == Others(b, cur);
    } else {
      OthersConcat(a[1..], b, cur);
      Tail(a, b);
      Assoc(if a[0] == cur then [] else [a[0]], Others(a[1..], cur), Others(b, cur));
    }
  }

  lemma FreedTwice(s: Sched, s1: Sched, s2: Sched, q: QueueId, n: nat, m: nat)
    requires q != RunQueue && Freed(s, s1, q, 1) && Freed(s1, s2, q, n) && m == n + 1
    requires Spelled(Items(s, q), s.procs, q)
    ensures Freed(s, s2, q, m)
  {
    assert FreedPart(s, s1, q, 1, Source) && FreedPart(s, s1, q, 1, Rest);
    forall part ensures FreedPart(s, s2, q, m, part) {
      assert FreedPart(s, s1, q, 1, part) && FreedPart(s1, s2, q, n, part);
      if part == Woken {
        assert FreedPart(s, s1, q, 1, Untouched) && FreedPart(s1, s2, q, n, Untouched);
        WokenTwice(s, s1, s2, q, n);
      } else {
        FreedPartTwice(s, s1, s2, q, n, part);
      }
    }
  }

  lemma WokenTwice(s: Sched, s1: Sched, s2: Sched, q: QueueId, n: nat)
    requires 1 <= |Items(s, q)| && n <= |Items(s1, q)| && Spelled(Items(s, q), s.procs, q) && s1.cur == s.cur
    requires FreedPart(s, s1, q, 1, Source) && FreedPart(s, s1, q, 1, Woken) && FreedPart(s, s1, q, 1, Untouched)
    requires FreedPart(s1, s2, q, n, Woken) && FreedPart(s1, s2, q, n, Untouched)
    ensures FreedPart(s, s2, q, n + 1, Woken)
  {
    var es := Items(s, q);
    forall x | x in es[..n + 1] && x in s.procs
      ensures x in s2.procs && s2.procs[x] == Awake(s.procs[x], x == s.cur)
    {
      var i :| 0 <= i < n + 1 && es[i] == x;
      if i == 0 {
        assert x in es[..1] && x !in es[1..][..n];
      } else {
        assert x !in es[..1] && es[1..][..n][i - 1] == x;
      }
    }
  }

  lemma FreedPartTwice(s: Sched, s1: Sched, s2: Sched, q: QueueId, n: nat, part: Part)
    requires q != RunQueue && 1 <= |Items(s, q)| && n <= |Items(s1, q)|
    requires FreedPart(s, s1, q, 1, Source) && s1.cur == s.cur
    requires FreedPart(s, s1, q, 1, part) && FreedPart(s1, s2, q, n, part) && part != Woken
    ensures FreedPart(s, s2, q, n + 1, part)
  {
    var es := Items(s, q);
    assert es[..n + 1] == es[..1] + es[1..][..n];
    match part
    case Source =>
    case Target => OthersConcat(es[..1], es[1..][..n], s.cur);
    case Elsewhere =>
    case Untouched =>
      forall x | x in s.procs && x !in es[..n + 1] ensures s2.procs[x] == s.procs[x] {
        assert x !in es[..1] && x !in es[1..][..n];
      }
    case Rest =>
  }

  lemma SpelledIn(s: Sched, q: QueueId)
    requires AllLinked(s)
    ensures Spelled(Items(s, q), s.procs, q)
  {
    assert Linked(s, q);
  }

  /** How many entries Unblock frees from loop index i on. */
  function FreedFrom(len: nat, i: nat): nat { if i > len then 0 else Half(len - i) }

  /** Half of the entries left, rounded up, leave the queue. */
  lemma {:induction false} UnblockExact(s: Sched, q: QueueId, i: nat) returns (r: Outcome)
    requires Inv(s) && q != RunQueue
    ensures r == Unblock(s, q, i)
    ensures r != Halted && (s.guarded ==> r.Fine?)
    ensures r.Fine? ==> Inv(r.s) && Freed(s, r.s, q, FreedFrom(|Items(s, q)|, i))
    decreases |Items(s, q)|
  {
    hide Linked, Spelled, Placed, UnblockOne;
    r := Unblock(s, q, i);
    if i >= |Items(s, q)| {
      FreedNone(s, q);
    } else {
      UnblockOneEffect(s, q);
      if UnblockOne(s, q).Fine? {
        var s1 := UnblockOne(s, q).s;
        assert FreedPart(s, s1, q, 1, Source) && FreedPart(s, s1, q, 1, Rest);
        r := UnblockExact(s1, q, i + 1);
        if r.Fine? {
          SpelledIn(s, q);
          FreedTwice(s, s1, r.s, q, FreedFrom(|Items(s, q)| - 1, i + 1), FreedFrom(|Items(s, q)|, i));
        }
      }
    }
  }

  lemma UnblockKeeps(s: Sched, q: QueueId)
    requires Inv(s) && q != RunQueue
    ensures Unblock(s, q, 0) != Halted && (s.guarded ==> Unblock(s, q, 0).Fine?)
    ensures Unblock(s, q, 0).Fine? ==>
              && Inv(Unblock(s, q, 0).s) && Freed(s, Unblock(s, q, 0).s, q, Half(|Items(s, q)|))
  {
    var r := UnblockExact(s, q, 0);
  }

  lemma FreedNone(s: Sched, q: QueueId)
    ensures Freed(s, s, q, 0)
  {
    forall part ensures FreedPart(s, s, q, 0, part) {}
  }

  /** So a call of Unblock drains the queue if and only if at most one entry waits. */
  lemma UnblockDrains(s: Sched, q: QueueId)
    requires Inv(s) && q != RunQueue && Unblock(s, q, 0).Fine?
    ensures Items(Unblock(s, q, 0).s, q) == [] <==> |Items(s, q)| <= 1
  {
    UnblockKeeps(s, q);
    assert FreedPart(s, Unblock(s, q, 0).s, q, Half(|Items(s, q)|), Source);
  }

  datatype Aspect = Waiting | Live | Running | Kept

  /** Where the processes are after Reschedule. */
  ghost predicate Rescheduled(s: Sched, s': Sched)
    requires s.cur != 0 ==> s.cur in s.procs
  {
    forall a :: RescheduledPart(s, s', a)
  }

  ghost predicate RescheduledPart(s: Sched, s': Sched, a: Aspect)
    requires s.cur != 0 ==> s.cur in s.procs
  {
    match a
    case Waiting => OthersSame(s, s', RunQueue)
    case Live => s'.procs.Keys == if CurExited(s) then s.procs.Keys - {s.cur} else s.procs.Keys
    case Running =>
      if Items(s, RunQueue) == [] then
        Items(s', RunQueue) == [] && s'.cur == if CurExited(s) then 0 else s.cur
      else
        && s'.cur == Items(s, RunQueue)[0]
        && Items(s', RunQueue) == Items(s, RunQueue)[1..] + if Chosen(s) != 0 then [s.cur] else []
    case Kept =>
      && (forall x | x in s'.procs && x in s.procs ::
            && s'.procs[x].pid == s.procs[x].pid
            && s'.procs[x].data1 == s.procs[x].data1 && s'.procs[x].data2 == s.procs[x].data2)
      && s'.guarded == s.guarded && s'.low == s.low && s'.nextPid == s.nextPid
  }

  lemma ReapedKeeps(s: Sched)
    requires Leaving(s)
    ensures Inv(Reaped(s)) && Chosen(Reaped(s)) == Chosen(s)
  {
    var s' := Reaped(s);
    forall q ensures Linked(s', q) { assert Linked(s, q); }
    forall e | e in s'.procs ensures Placed(s', e) { assert Placed(s, e); }
  }

  /** e waits in a queue, in the state that goes with it. */
  ghost predicate Queued(s: Sched, e: int)
    requires e in s.procs
  {
    match s.procs[e].owner
    case Nowhere => false
    case In(q) => s.procs[e].state == if q == RunQueue then RUNABLE else BLOCKED
  }

  lemma RequeuedKeeps(s: Sched)
    requires Inv(s)
    ensures Items(s, RunQueue) != [] ==> Requeued(s).Fine?
    ensures Requeued(s).Fine? ==>
              var s' := Requeued(s).s;
              && AllLinked(s') && (forall e | e in s'.procs :: Queued(s', e))
              && OthersSame(s, s', RunQueue)
              && Items(s', RunQueue) == Items(s, RunQueue) + (if Chosen(s) != 0 then [s.cur] else [])
              && RescheduledPart(s, s', Kept) && s'.procs.Keys == s.procs.Keys
  {
    assert Linked(s, RunQueue);
    if s.cur != 0 { assert Placed(s, s.cur); }
    if Chosen(s) != 0 {
      SetKeeps(s, s.cur, RUNABLE, s.procs[s.cur].data1, s.procs[s.cur].data2);
      EnqueueKeeps(Set(s, s.cur, RUNABLE, s.procs[s.cur].data1, s.procs[s.cur].data2), RunQueue, s.cur);
    }
    if Requeued(s).Fine? {
      var s' := Requeued(s).s;
      forall e | e in s'.procs ensures Queued(s', e) { assert Placed(s, e); }
    }
  }

  lemma SwitchKeeps(s: Sched)
    requires AllLinked(s) && Items(s, RunQueue) != [] && forall e | e in s.procs :: Queued(s, e)
    ensures Switch(s).Fine?
    ensures var s' := Switch(s).s;
            && Inv(s') && OthersSame(s, s', RunQueue)
            && s'.cur == Items(s, RunQueue)[0] && Items(s', RunQueue) == Items(s, RunQueue)[1..]
            && RescheduledPart(s, s', Kept) && s'.procs.Keys == s.procs.Keys
            && Chosen(s') == s'.cur != 0
  {
    DequeueKeeps(s, RunQueue);
    var e, s1 := Items(s, RunQueue)[0], Dequeue(s, RunQueue);
    SetKeeps(s1, e, RUNNING, s1.procs[e].data1, s1.procs[e].data2);
    var s2 := Set(s1, e, RUNNING, s1.procs[e].data1, s1.procs[e].data2);
    var s' := s2.(cur := e);
    forall q ensures Linked(s', q) { assert Linked(s2, q); }
    forall x | x in s'.procs ensures Placed(s', x) { assert Queued(s, x); }
  }

  lemma Runnable(s: Sched)
    requires Leaving(s)
    ensures (forall e | e in s.procs :: !CanRun(s.procs[e].state)) <==> Items(s, RunQueue) == [] && Chosen(s) == 0
  {
    assert Linked(s, RunQueue);
    if Items(s, RunQueue) != [] {
      var e := Items(s, RunQueue)[0];
      assert e in s.procs && Placed(s, e);
      assert CanRun(s.procs[e].state);
    } else {
      forall e | e in s.procs && CanRun(s.procs[e].state) ensures Chosen(s) != 0 {
        assert Placed(s, e);
      }
    }
  }

  lemma SwitchEffect(s: Sched)
    requires Inv(s) && Items(s, RunQueue) != []
    ensures Requeued(s).Fine? && Switch(Requeued(s).s).Fine? && Inv(Switch(Requeued(s).s).s)
    ensures Rescheduled(s, Switch(Requeued(s).s).s)
  {
    RequeuedKeeps(s);
    SwitchKeeps(Requeued(s).s);
    if s.cur != 0 { assert Placed(s, s.cur); }
    forall a ensures RescheduledPart(s, Switch(Requeued(s).s).s, a) {}
  }

  lemma ReapedFirst(s: Sched, s': Sched)
    requires Leaving(s) && Rescheduled(Reaped(s), s')
    ensures Rescheduled(s, s')
  {
    ReapedKeeps(s);
    assert RescheduledPart(Reaped(s), s', Live);
    forall a ensures RescheduledPart(s, s', a) {
      assert RescheduledPart(Reaped(s), s', a);
    }
  }

  /** Reschedule runs the head of the run queue and puts a current process that can
      still run at its end. */
  lemma RescheduleEffect(s: Sched)
    requires Leaving(s)
    ensures Reschedule(s) == Halted <==> s.cur == 0 && s.low
    ensures Reschedule(s) != Corrupt
    ensures Reschedule(s).Fine? ==> Inv(Reschedule(s).s) && Rescheduled(s, Reschedule(s).s)
  {
    ReapedKeeps(s);
    var s1 := Reaped(s);
    RequeuedKeeps(s1);
    if Items(s1, RunQueue) != [] {
      SwitchEffect(s1);
      ReapedFirst(s, Switch(Requeued(s1).s).s);
    } else {
      forall a ensures RescheduledPart(s, s1, a) {}
    }
  }

  /** It returns NULL exactly when no process can run. */
  lemma RescheduleNull(s: Sched)
    requires Leaving(s) && Reschedule(s).Fine?
    ensures Chosen(Reschedule(s).s) == 0 <==> forall e | e in s.procs :: !CanRun(s.procs[e].state)
  {
    Runnable(s);
    ReapedKeeps(s);
    RequeuedKeeps(Reaped(s));
    if Items(s, RunQueue) != [] { SwitchKeeps(Requeued(Reaped(s)).s); }
  }
}
