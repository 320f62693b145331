/** The scheduler, the system calls and the two drivers as the code runs them, step
    by step, against the functions of SchedSpec, AtaSpec and Rings. */
module Drivers {
  import opened SchedSpec
  import opened SchedLaws
  import opened AtaSpec
  import Rings

  /** How a call ended: returned, halted in a FATAL, or ruined a queue. */
  datatype Fate = Returned | Fatal | Ruined

  function Ended<T>(fate: Fate, s: T): Result<T> {
    match fate
    case Returned => Fine(s)
    case Fatal => Halted
    case Ruined => Corrupt
  }

  /** Which process a system call loads: the head of the run queue if there is one. */
  lemma Loads(s: Sched)
    requires Leaving(s) && Reschedule(s).Fine?
    ensures var s' := Reschedule(s).s;
            && (Chosen(s') == 0 <==> forall e | e in s.procs :: !CanRun(s.procs[e].state))
            && (Chosen(s') != 0 ==> Chosen(s') == s'.cur && s'.cur in s'.procs && s'.procs[s'.cur].state == RUNNING)
            && (Items(s, RunQueue) != [] ==> Chosen(s') == Items(s, RunQueue)[0])
  {
    var s' := Reschedule(s).s;
    RescheduleEffect(s);
    RescheduleNull(s);
    assert RescheduledPart(s, s', Running);
    assert Linked(s, RunQueue);
    if s'.cur != 0 { assert Placed(s', s'.cur); }
    if Items(s, RunQueue) != [] {
      var e := Items(s, RunQueue)[0];
      assert e in s.procs && Placed(s, e);
    }
  }

  /** What syscall_exit leaves. */
  lemma ExitEffect(s: Sched)
    requires Inv(s) && s.cur != 0 && s.procs[s.cur].state == RUNNING
    ensures Leaving(Exited(s)) && Reschedule(Exited(s)).Fine?
    ensures var s' := Reschedule(Exited(s)).s;
            && Inv(s') && s'.procs.Keys == s.procs.Keys - {s.cur}
            && (Chosen(s') == 0 <==> forall e | e in s.procs && e != s.cur :: !CanRun(s.procs[e].state))
  {
    assert Placed(s, s.cur);
    SetKeeps(s, s.cur, EXITED, s.procs[s.cur].data1, s.procs[s.cur].data2);
    var x := Exited(s);
    forall e | e in x.procs && e != x.cur ensures Placed(x, e) { assert Placed(s, e); }
    RescheduleEffect(x);
    RescheduleNull(x);
    assert forall e | e in s.procs && e != s.cur :: x.procs[e].state == s.procs[e].state;
    assert forall e | e in x.procs && CanRun(x.procs[e].state) :: e != x.cur;
    assert RescheduledPart(x, Reschedule(x).s, Live);
  }

  lemma NothingInv(guarded: bool, low: bool)
    ensures Inv(Sched(guarded, low, 0, NoQueues(), map[], 0))
  {
    forall q ensures Linked(Sched(guarded, low, 0, NoQueues(), map[], 0), q) {}
  }

  // A view of queue entries, by their addresses.

  function Numbers(es: seq<Q.QueueEntry>): (ns: seq<int>)
    ensures |ns| == |es| && forall i :: 0 <= i < |es| ==> ns[i] == es[i].addr
  {
    seq(|es|, i requires 0 <= i < |es| => es[i].addr)
  }

  function Numbered(v: Q.View<Q.QueueEntry>): View { Q.View(Numbers(v.items), v.solo, Numbers(v.left)) }

  lemma NumberedPushed(v: Q.View<Q.QueueEntry>, entry: Q.QueueEntry)
    ensures Numbered(Q.Pushed(v, entry)) == Q.Pushed(Numbered(v), entry.addr)
    ensures Numbers(v.items + [entry]) == Numbers(v.items) + [entry.addr]
  {}

  lemma NumberedPopped(v: Q.View<Q.QueueEntry>)
    ensures Numbered(Q.Popped(v)) == Q.Popped(Numbered(v))
  {
    if v.items != [] {
      assert Numbers(v.items[1..]) == Numbers(v.items)[1..];
      assert Numbers([v.items[0]]) == [Numbers(v.items)[0]];
    }
  }

  /** The four queues are linked lists of the entries at the processes' addresses; the
      ghost field queues records what they show. */
  class Scheduler {
    const guarded: bool
    const low: bool
    const runQueue: Q.Queue
    const inProgress: Q.Queue
    const blocked: Q.Queue
    const keyboard: Q.Queue
    var curProc: int
    var entries: map<int, Q.QueueEntry>   // the entry at every address ever used
    var procs: map<int, Proc>
    var nxtPid: int
    ghost var queues: Queues

    ghost function State(): Sched
      reads this
    {
      Sched(guarded, low, curProc, queues, procs, nxtPid)
    }

    function List(q: QueueId): (l: Q.Queue)
      ensures l in Lists()
    {
      match q
      case RunQueue => runQueue
      case InProgress => inProgress
      case Blocked => blocked
      case Keyboard => keyboard
    }

    ghost function With(v: View, e: int): View {
      if guarded then Q.View(v.items + [e], false, []) else Q.Pushed(v, e)
    }

    ghost function Lists(): set<Q.Queue> { {runQueue, inProgress, blocked, keyboard} }

    ghost function Nodes(): set<Q.QueueEntry>
      reads this`entries
    {
      set e | e in entries :: entries[e]
    }

    /** The list of queue q is made of entries, and shows queues[q]. */
    ghost predicate ListOk(q: QueueId)
      reads this`entries, this`queues, Lists(), Nodes()
    {
      var l := List(q);
      && (forall x | x in l.items :: x in Nodes())
      && (l.head != null ==> l.head in Nodes())
      && l.Valid()
      && queues[q] == Numbered(l.Shown())
      && (guarded ==> !l.Shown().solo && l.Shown().left == [])
    }

    /** The queue an entry of address e says it is in. */
    ghost predicate EntryOk(e: int)
      requires e in entries
      reads this`entries, this`procs, Nodes()
    {
      && entries[e].addr == e
      && entries[e].queue ==
         if e !in procs || procs[e].owner == Nowhere then null else List(procs[e].owner.q)
    }

    ghost predicate Wired()
      reads this`entries, this`procs, this`queues, Lists(), Nodes()
    {
      && (forall p, q :: p != q ==> List(p) != List(q))
      && procs.Keys <= entries.Keys
      && (forall e | e in entries :: EntryOk(e))
      && forall q :: ListOk(q)
    }

    /** The same, whatever the record of the process at e says. */
    ghost predicate WiredBut(e: int)
      reads this`entries, this`procs, this`queues, Lists(), Nodes()
    {
      && (forall p, q :: p != q ==> List(p) != List(q))
      && procs.Keys <= entries.Keys
      && (forall x | x in entries && x != e :: EntryOk(x))
      && forall q :: ListOk(q)
    }

    /** Over the four queues, which are static objects and still empty. */
    constructor (guarded: bool, low: bool, runQueue: Q.Queue, inProgress: Q.Queue, blocked: Q.Queue, keyboard: Q.Queue)
      requires runQueue != inProgress && runQueue != blocked && runQueue != keyboard
      requires inProgress != blocked && inProgress != keyboard && blocked != keyboard
      requires forall l | l in {runQueue, inProgress, blocked, keyboard} :: l.Valid() && l.Shown() == Q.Emptied()
      ensures Wired() && Inv(State()) && entries == map[]
      ensures Lists() == {runQueue, inProgress, blocked, keyboard}
      ensures State() == Sched(guarded, low, 0, NoQueues(), map[], 0)
    {
      this.guarded, this.low := guarded, low;
      this.runQueue, this.inProgress, this.blocked, this.keyboard := runQueue, inProgress, blocked, keyboard;
      curProc, queues, procs, nxtPid, entries := 0, NoQueues(), map[], 0, map[];
      new;
      NothingInv(guarded, low);
      assert Lists() == {runQueue, inProgress, blocked, keyboard};
      forall q ensures ListOk(q) { assert List(q).Valid(); }
    }

    /** The length of a queue, and the entry at its head. */
    function Length(q: QueueId): nat
      reads List(q)
    {
      List(q).Length()
    }

    function First(q: QueueId): int
      reads List(q)
    {
      if List(q).Peak() == null then 0 else List(q).Peak().addr
    }

    lemma Heads(q: QueueId)
      requires Wired()
      ensures Length(q) == |queues[q].items|
      ensures queues[q].items != [] ==> First(q) == queues[q].items[0]
    {
      assert ListOk(q);
    }

    lemma NodeAt(x: Q.QueueEntry)
      requires Wired() && x in Nodes()
      ensures x.addr in entries && entries[x.addr] == x
    {
      var e :| e in entries && entries[e] == x;
      assert EntryOk(e);
    }

    /** Whether the links of queue q can take the entry at e. */
    lemma ReadyExact(q: QueueId, e: int)
      requires Wired() && e in procs
      ensures Q.Ready(List(q).Shown(), entries[e]) <==> Q.Ready(queues[q], e)
      ensures Q.Ready(queues[q], e) <==> List(q).head == null || List(q).len > 0 || List(q).head == entries[e]
      ensures Q.Ready(queues[q], e) ==> List(q).Written() <= {entries[e]} + (set x | x in List(q).items)
      ensures List(q).Written() <= Nodes() && entries[e] in Nodes()
    {
      assert EntryOk(e) && ListOk(q);
      if List(q).head != null { NodeAt(List(q).head); }
    }

    /** Writes the record of the process at e, to agree with its entry's queue field. */
    method Record(e: int, proc: Proc)
      requires WiredBut(e) && e in entries && entries[e].addr == e
      requires entries[e].queue == if proc.owner == Nowhere then null else List(proc.owner.q)
      modifies this`procs
      ensures Wired() && procs == old(procs)[e := proc]
    {
      hide List, Lists, Q.Queue.Valid, Q.Queue.Shown, Numbered;
      procs := procs[e := proc];
      forall x | x in entries ensures EntryOk(x) { assert x != e ==> old(EntryOk(x)); }
      forall p ensures ListOk(p) { assert old(ListOk(p)); }
    }

    /** What queue q needs to take the entry at e, and what it then shows. */
    lemma JoinReady(q: QueueId, e: int)
      requires Wired() && e in procs && procs[e].owner == Nowhere && Q.Ready(queues[q], e)
      ensures entries[e] in Nodes() && entries[e].addr == e && entries[e].queue == null
      ensures List(q).Valid() && List(q).Written() <= Nodes() && Q.Ready(List(q).Shown(), entries[e])
      ensures guarded ==> !List(q).Shown().solo && List(q).Shown().left == []
      ensures forall l | l in Lists() - {List(q)} :: l.Valid()
      ensures With(queues[q], e) ==
              Numbered(if guarded then Q.View(List(q).items + [entries[e]], false, [])
                       else Q.Pushed(List(q).Shown(), entries[e]))
      ensures forall x | x in List(q).items :: x in Nodes()
    {
      ReadyExact(q, e);
      assert EntryOk(e) && ListOk(q);
      NumberedPushed(List(q).Shown(), entries[e]);
      AllLists();
    }

    /** Links the entry at e to queue q, which is ready for it. */
    method Link(q: QueueId, e: int)
      requires Wired() && e in procs && procs[e].owner == Nowhere && Q.Ready(queues[q], e)
      modifies this`queues, Lists(), Nodes()
      ensures queues == old(queues)[q := With(old(queues[q]), e)]
      ensures WiredBut(e) && entries[e].addr == e && entries[e].queue == List(q)
    {
      hide List, Lists, Q.Queue.Valid, Q.Queue.Shown, Q.Queue.Written, With, Numbered, Q.Ready, Q.Pushed;
      JoinReady(q, e);
      var ok := List(q).Join(entries[e], guarded, Lists() - {List(q)}, Nodes());
      queues := queues[q := With(queues[q], e)];
      forall p ensures ListOk(p) {
        assert old(ListOk(p));
        if p != q { assert List(p) != List(q); }
      }
      forall x | x in entries && x != e ensures EntryOk(x) { assert old(EntryOk(x)); }
    }

    lemma AllLists()
      requires Wired()
      ensures forall l | l in Lists() :: l.Valid()
    {
      assert ListOk(RunQueue) && ListOk(InProgress) && ListOk(Blocked) && ListOk(Keyboard);
    }

    /** The links decide what the scheduler's view says: whether e is in a queue, and
        whether queue q is ready for it. */
    method Push(q: QueueId, e: int) returns (fate: Fate)
      requires Wired() && e in procs
      modifies this`queues, this`procs, Lists(), Nodes()
      ensures Ended(fate, State()) == Enqueue(old(State()), q, e)
      ensures entries == old(entries) && (fate != Ruined ==> Wired())
    {
      hide List, Lists, Nodes, ListOk, Q.Queue.Valid, Q.Queue.Shown, Numbered, Q.Ready, Q.Pushed;
      ReadyExact(q, e);
      assert EntryOk(e);
      var entry := entries[e];
      if entry.queue != null {
        return Fatal;
      }
      if List(q).Peak() != null && List(q).Length() == 0 && List(q).Peak() != entry {
        return Ruined;
      }
      Link(q, e);
      Record(e, procs[e].(owner := In(q)));
      return Returned;
    }

    /** What a pop of queue q finds. */
    lemma LeaveReady(q: QueueId)
      requires Wired() && AllLinked(State())
      ensures List(q).Valid() && forall l | l in Lists() - {List(q)} :: l.Valid()
      ensures forall x | x in List(q).items :: x in Nodes()
      ensures forall x | x in entries :: entries[x] in Nodes()
      ensures List(q).items == [] <==> queues[q].items == []
      ensures Numbered(Q.Popped(List(q).Shown())) == Q.Popped(queues[q])
      ensures queues[q].items != [] ==>
                && queues[q].items[0] in procs && List(q).items[0].addr == queues[q].items[0]
                && entries[queues[q].items[0]] == List(q).items[0]
      ensures guarded ==> !Q.Popped(List(q).Shown()).solo && Q.Popped(List(q).Shown()).left == []
    {
      assert ListOk(q);
      AllLists();
      NumberedPopped(List(q).Shown());
      if queues[q].items != [] {
        DequeueKeeps(State(), q);
        NodeAt(List(q).items[0]);
      }
    }

    /** When no entry but e's changes its owner field, the other entries are still right. */
    twostate lemma OthersOk(e: int)
      requires old(Wired()) && entries == old(entries) && procs == old(procs) && e in entries
      requires forall x | x in Nodes() && x != entries[e] :: x.queue == old(x.queue)
      ensures forall x | x in entries && x != e :: EntryOk(x)
    {
      hide ListOk, Lists;
      assert old(EntryOk(e));
      forall x | x in entries && x != e ensures EntryOk(x) { assert old(EntryOk(x)) && entries[x] in Nodes(); }
    }

    /** Takes the first entry off queue q. */
    method Unlink(q: QueueId) returns (e: int)
      requires Wired() && AllLinked(State()) && queues[q].items != []
      modifies this`queues, Lists(), Nodes()
      ensures e == old(queues[q].items)[0] && e in procs && queues == old(queues)[q := Q.Popped(old(queues[q]))]
      ensures WiredBut(e) && entries[e].addr == e && entries[e].queue == null
    {
      hide List, Lists, Nodes, EntryOk, Q.Queue.Valid, Q.Queue.Shown, Numbered, Q.Popped, AllLinked;
      LeaveReady(q);
      var entry := List(q).Leave(Lists() - {List(q)}, Nodes());
      e := entry.addr;
      queues := queues[q := Q.Popped(queues[q])];
      forall p ensures ListOk(p) {
        assert old(ListOk(p));
        if p != q { assert List(p) != List(q); }
      }
      OthersOk(e);
    }

    method Pop(q: QueueId) returns (e: int)
      requires Wired() && AllLinked(State())
      modifies this`queues, this`procs, Lists(), Nodes()
      ensures Wired() && entries == old(entries)
      ensures old(queues[q].items) == [] ==> e == 0 && State() == old(State())
      ensures old(queues[q].items) != [] ==>
                && e == old(queues[q].items)[0] && e in old(procs)
                && State() == Dequeue(old(State()), q)
    {
      Heads(q);
      if Length(q) == 0 {
        return 0;
      }
      e := Unlink(q);
      Record(e, procs[e].(owner := Nowhere));
    }

    /** Writes the fields of a process that no queue depends on. */
    method Write(e: int, state: ProcState, data1: int, data2: int)
      requires Wired() && e in procs
      modifies this`procs
      ensures Wired() && State() == Set(old(State()), e, state, data1, data2)
    {
      assert EntryOk(e);
      Record(e, procs[e].(state := state, data1 := data1, data2 := data2));
    }

    lemma Unlisted(entry: Q.QueueEntry)
      requires Wired() && entry.queue == null
      ensures forall p :: entry !in List(p).items
    {
      forall p ensures entry !in List(p).items { assert ListOk(p); }
    }

    /** The entry at address e, whether used before or not. */
    method Allocate(e: int) returns (entry: Q.QueueEntry)
      requires Wired() && e !in procs
      modifies this`entries
      ensures Wired() && e in entries && entry == entries[e] && entry.queue == null && entry.addr == e
      ensures old(Nodes()) <= Nodes() && fresh(Nodes() - old(Nodes()))
    {
      if e in entries {
        assert EntryOk(e);
        return entries[e];
      }
      hide List, Lists, Q.Queue.Valid, Q.Queue.Shown, Numbered;
      entry := new Q.QueueEntry(e);
      entries := entries[e := entry];
      forall x | x in old(Nodes()) ensures x in Nodes() {
        var k :| k in old(entries) && old(entries)[k] == x;
        assert entries[k] == x;
      }
      forall p ensures ListOk(p) { assert old(ListOk(p)); }
      forall x | x in entries ensures EntryOk(x) { assert x != e ==> old(EntryOk(x)); }
    }

    /** A new process at address e. */
    method Create(e: int)
      requires Wired() && e !in procs
      modifies this`entries, this`procs, this`nxtPid, Nodes()
      ensures Wired() && procs == old(procs)[e := Proc(old(nxtPid), RUNABLE, Nowhere, 0, 0)]
      ensures nxtPid == (old(nxtPid) + 1) % 0x1_0000_0000
      ensures fresh(Nodes() - old(Nodes()))
    {
      hide List, Lists, Q.Queue.Valid, Q.Queue.Shown, Numbered;
      var entry := Allocate(e);
      Unlisted(entry);
      label Allocated:
      var pid := nxtPid;
      nxtPid := (nxtPid + 1) % 0x1_0000_0000;
      entry.nxt, entry.prev := entry, entry;
      forall p ensures ListOk(p) { assert old@Allocated(ListOk(p)); }
      forall x | x in entries && x != e ensures EntryOk(x) { assert old@Allocated(EntryOk(x)); }
      Record(e, Proc(pid, RUNABLE, Nowhere, 0, 0));
    }

    /** nxtPid is an unsigned int. An entry with junk in its queue field is never pushed. */
    method Add(e: int, junk: bool) returns (fate: Fate)
      requires Wired() && e !in procs
      modifies this, Lists(), Nodes()
      ensures Ended(fate, State()) == SchedSpec.Add(old(State()), e, junk)
      ensures fresh(Nodes() - old(Nodes())) && (fate != Ruined ==> Wired())
    {
      if junk {
        return Fatal;
      }
      Create(e);
      fate := Push(RunQueue, e);
    }

    /** One turn of the loop below. */
    method UnblockOne(q: QueueId) returns (fate: Fate)
      requires Wired() && AllLinked(State()) && queues[q].items != []
      modifies this`queues, this`procs, Lists(), Nodes()
      ensures Ended(fate, State()) == SchedSpec.UnblockOne(old(State()), q)
      ensures entries == old(entries) && (fate != Ruined ==> Wired())
    {
      hide Wired;
      DequeueKeeps(State(), q);
      var entry := Pop(q);
      if entry == curProc {
        Write(entry, RUNNING, 0, 0);
        return Returned;
      }
      Write(entry, RUNABLE, 0, 0);
      fate := Push(RunQueue, entry);
    }

    /** The bound of the loop is the length at each turn, which shrinks under it. */
    method Unblock(q: QueueId) returns (fate: Fate)
      requires Wired() && Inv(State()) && q != RunQueue
      modifies this`queues, this`procs, Lists(), Nodes()
      ensures Ended(fate, State()) == SchedSpec.Unblock(old(State()), q, 0)
      ensures fate == Returned ==> queues[q].items == old(queues[q].items)[Half(|old(queues[q].items)|)..]
      ensures entries == old(entries) && (fate != Ruined ==> Wired())
    {
      hide Wired, SchedSpec.UnblockOne, Linked;
      UnblockKeeps(State(), q);
      ghost var r := SchedSpec.Unblock(State(), q, 0);
      assert r.Fine? ==> FreedPart(State(), r.s, q, Half(|Items(State(), q)|), Source);
      fate := Returned;
      var i := 0;
      Heads(q);
      while i < Length(q)
        invariant 0 <= i && AllLinked(State()) && fate == Returned
        invariant Wired() && entries == old(entries) && Length(q) == |queues[q].items|
        invariant SchedSpec.Unblock(State(), q, i) == r
        decreases |queues[q].items|
      {
        UnblockOneKeeps(State(), q);
        fate := UnblockOne(q);
        if fate != Returned {
          return;
        }
        Heads(q);
        i := i + 1;
      }
    }

    /** The first step of Reschedule, when there is a process to free. */
    method Reap()
      requires Wired() && Leaving(State()) && curProc != 0 && CurExited(State())
      modifies this`procs, this`curProc
      ensures Wired() && State() == Reaped(old(State()))
    {
      hide List, Lists, Q.Queue.Valid, Q.Queue.Shown, Numbered;
      ReapedKeeps(State());
      assert Placed(State(), curProc) || procs[curProc].owner == Nowhere;
      procs := procs - {curProc};
      curProc := 0;
      forall p ensures ListOk(p) { assert old(ListOk(p)); }
      forall x | x in entries ensures EntryOk(x) { assert old(EntryOk(x)); }
    }

    method Reschedule() returns (fate: Fate, proc: int)
      requires Wired() && Leaving(State())
      modifies this`queues, this`procs, this`curProc, Lists(), Nodes()
      ensures Ended(fate, State()) == SchedSpec.Reschedule(old(State()))
      ensures fate == Returned ==> proc == Chosen(State()) && (proc != 0 ==> proc == curProc)
      ensures Wired() && entries == old(entries) && fate != Ruined
    {
      hide Wired;
      ReapedKeeps(State());
      if (if curProc == 0 then low else procs[curProc].state == EXITED) {
        if curProc == 0 {
          return Fatal, 0;
        }
        Reap();
      }
      assert State() == Reaped(old(State()));
      Heads(RunQueue);
      if Length(RunQueue) == 0 {
        if curProc != 0 && CanRun(procs[curProc].state) {
          return Returned, curProc;
        }
        return Returned, 0;
      }
      SwitchEffect(State());
      proc := Switch();
      return Returned, proc;
    }

    /** A current process that can still run goes to the end of the run queue. */
    method Requeue()
      requires Wired() && Inv(State()) && Requeued(State()).Fine?
      modifies this`queues, this`procs, Lists(), Nodes()
      ensures State() == Requeued(old(State())).s
      ensures Wired() && entries == old(entries)
    {
      hide Wired;
      if curProc != 0 && CanRun(procs[curProc].state) {
        Write(curProc, RUNABLE, procs[curProc].data1, procs[curProc].data2);
        var fate := Push(RunQueue, curProc);
      }
    }

    /** The rest of Reschedule, when another process is waiting. */
    method Switch() returns (proc: int)
      requires Wired() && Inv(State()) && queues[RunQueue].items != [] && Requeued(State()).Fine?
      modifies this`queues, this`procs, this`curProc, Lists(), Nodes()
      ensures SchedSpec.Switch(Requeued(old(State())).s) == Fine(State())
      ensures proc == Chosen(State())
      ensures Wired() && entries == old(entries)
    {
      hide Wired;
      RequeuedKeeps(State());
      Requeue();
      SwitchKeeps(State());
      proc := TakeFirst();
    }

    /** The last step of Reschedule. */
    method TakeFirst() returns (proc: int)
      requires Wired() && AllLinked(State()) && queues[RunQueue].items != []
      modifies this`queues, this`procs, this`curProc, Lists(), Nodes()
      ensures SchedSpec.Switch(old(State())) == Fine(State()) && proc == curProc
      ensures Wired() && entries == old(entries)
    {
      hide Wired;
      DequeueKeeps(State(), RunQueue);
      proc := Pop(RunQueue);
      Write(proc, RUNNING, procs[proc].data1, procs[proc].data2);
      curProc := proc;
    }

    method BlockCurProc(q: QueueId, data1: int, data2: int) returns (fate: Fate)
      requires Wired() && curProc in procs
      modifies this`queues, this`procs, Lists(), Nodes()
      ensures Ended(fate, State()) == SchedSpec.BlockCurProc(old(State()), q, data1, data2)
      ensures entries == old(entries) && (fate != Ruined ==> Wired())
    {
      hide Wired;
      Write(curProc, BLOCKED, data1, data2);
      fate := Push(q, curProc);
    }

    /** The system calls; next is the process they load, 0 for the parent. */
    method SyscallYield() returns (fate: Fate, next: int)
      requires Wired() && Inv(State()) && curProc != 0
      modifies this`queues, this`procs, this`curProc, Lists(), Nodes()
      ensures fate == Returned && Fine(State()) == SchedSpec.Reschedule(old(State()))
      ensures next == 0 <==> forall e | e in old(procs) :: !CanRun(old(procs)[e].state)
      ensures next != 0 ==> next == curProc && next in procs && procs[next].state == RUNNING
      ensures old(queues[RunQueue].items) != [] ==> next == old(queues[RunQueue].items)[0]
      ensures Wired() && entries == old(entries)
    {
      hide Wired;
      RescheduleEffect(State());
      Loads(State());
      fate, next := Reschedule();
    }

    /** The parent's call; its next is 0 when nobody can run, and the parent goes on. */
    method SyscallRun() returns (fate: Fate, next: int)
      requires Wired() && Inv(State())
      modifies this`queues, this`procs, this`curProc, Lists(), Nodes()
      ensures Ended(fate, State()) == SchedSpec.Reschedule(old(State()))
      ensures fate == Fatal <==> old(curProc) == 0 && low
      ensures fate == Returned ==>
                && (next == 0 <==> forall e | e in old(procs) :: !CanRun(old(procs)[e].state))
                && (next != 0 ==> next == curProc && next in procs && procs[next].state == RUNNING)
                && (old(queues[RunQueue].items) != [] ==> next == old(queues[RunQueue].items)[0])
      ensures Wired() && entries == old(entries)
    {
      hide Wired;
      RescheduleEffect(State());
      if SchedSpec.Reschedule(State()).Fine? { Loads(State()); }
      fate, next := Reschedule();
    }

    method SyscallExit() returns (fate: Fate, next: int)
      requires Wired() && Inv(State()) && curProc != 0 && procs[curProc].state == RUNNING
      modifies this`queues, this`procs, this`curProc, Lists(), Nodes()
      ensures fate == Returned && Inv(State()) && procs.Keys == old(procs).Keys - {old(curProc)}
      ensures Leaving(Exited(old(State()))) && Fine(State()) == SchedSpec.Reschedule(Exited(old(State())))
      ensures next != 0 ==> next == curProc && next in procs && procs[next].state == RUNNING
      ensures old(queues[RunQueue].items) != [] ==> next == old(queues[RunQueue].items)[0]
      ensures next == 0 <==> forall e | e in old(procs) && e != old(curProc) :: !CanRun(old(procs)[e].state)
      ensures Wired() && entries == old(entries)
    {
      hide Wired;
      ExitEffect(State());
      Loads(Exited(State()));
      Write(curProc, EXITED, procs[curProc].data1, procs[curProc].data2);
      fate, next := Reschedule();
    }
  }

  class AtaDevice {
    const sched: Scheduler
    var command: seq<int>      // the block the device was told to read, if any
    var memory: map<int, int>  // the callers' buffers
    ghost var issued: seq<Request>
    ghost var done: seq<Delivery>

    ghost function Reading(): Reader
      reads this, sched
    {
      Reader(sched.State(), Disk(command, memory, issued, done))
    }

    constructor (sched: Scheduler)
      ensures this.sched == sched && Reading() == Reader(sched.State(), Disk([], map[], [], []))
    {
      this.sched := sched;
      command, memory, issued, done := [], map[], [], [];
    }

    /** Hands the first waiting reader to the idle device. */
    method Issue() returns (fate: Fate)
      requires sched.Wired() && Inv(sched.State()) && sched.queues[Blocked].items != []
      requires sched.queues[Blocked].items[0] in sched.procs
      modifies this`command, sched`queues, sched`procs, sched.Lists(), sched.Nodes()
      ensures Ended(fate, Reading()) == MoveNext(old(Reading()))
      ensures sched.entries == old(sched.entries) && (fate != Ruined ==> sched.Wired())
    {
      hide Scheduler.Wired, Spelled, Placed, Scheduler.Nodes, Scheduler.Lists;
      DequeueKeeps(sched.State(), Blocked);
      var e := sched.Pop(Blocked);
      EnqueueKeeps(sched.State(), InProgress, e);
      fate := sched.Push(InProgress, e);
      if fate == Returned {
        assert Linked(sched.State(), InProgress);
        InProcs(sched.State(), InProgress);
        sched.Heads(InProgress);
        var head := sched.First(InProgress);
        command := [sched.procs[head].data1];
      }
    }

    method ReadBlock(block: int, dest: int) returns (fate: Fate)
      requires sched.Wired() && Inv(sched.State()) && sched.curProc != 0
      modifies this, sched`queues, sched`procs, sched.Lists(), sched.Nodes()
      ensures Ended(fate, Reading()) == AtaSpec.ReadBlock(old(Reading()), block, dest)
      ensures sched.entries == old(sched.entries) && (fate != Ruined ==> sched.Wired())
    {
      hide Scheduler.Wired, Spelled, Placed, Scheduler.Nodes, Scheduler.Lists;
      BlockKeeps(sched.State(), Blocked, block, dest);
      fate := sched.BlockCurProc(Blocked, block, dest);
      if fate != Returned {
        return;
      }
      issued := issued + [Request(sched.curProc, block, dest)];
      sched.Heads(InProgress);
      if sched.Length(InProgress) == 0 {
        InProcs(sched.State(), Blocked);
        fate := Issue();
      }
    }

    /** data is the sector the device delivers, standing for its 256 words. */
    method Irq(data: int) returns (fate: Fate)
      requires sched.Wired() && Inv(sched.State())
      modifies this, sched`queues, sched`procs, sched.Lists(), sched.Nodes()
      ensures Ended(fate, Reading()) == AtaSpec.Irq(old(Reading()), data)
      ensures sched.entries == old(sched.entries) && (fate != Ruined ==> sched.Wired())
    {
      hide Scheduler.Wired, Spelled, Placed, Scheduler.Nodes, Scheduler.Lists;
      sched.Heads(InProgress);
      if sched.Length(InProgress) == 0 {
        return Fatal;
      }
      InProcs(sched.State(), InProgress);
      var head := sched.First(InProgress);
      var dest := sched.procs[head].data2;
      memory := memory[dest := data];
      UnblockKeeps(sched.State(), InProgress);
      fate := sched.Unblock(InProgress);
      if fate != Returned {
        return;
      }
      command := [];
      done := done + [Delivery(head, dest, data)];
      sched.Heads(Blocked);
      if sched.Length(Blocked) > 0 {
        InProcs(sched.State(), Blocked);
        fate := Issue();
      }
    }
  }

  class PS2 {
    const sched: Scheduler
    var buf: array<int>
    var prod: int
    var consumer: int

    ghost function Ring(): Rings.Ring
      reads this, buf
    {
      Rings.Ring(buf[..], prod, consumer)
    }

    ghost predicate Valid()
      reads this, buf
    {
      Rings.Good(Ring())
    }

    constructor (sched: Scheduler, size: nat)
      requires size >= 2
      ensures Valid() && fresh(buf) && this.sched == sched && buf.Length == size && Rings.Unread(Ring()) == []
    {
      this.sched := sched;
      buf := new int[size];
      prod, consumer := 0, 0;
    }

    method Irq(b: int) returns (fate: Fate)
      requires Valid() && sched.Wired() && Inv(sched.State())
      modifies this`prod, this`consumer, buf, sched`queues, sched`procs, sched.Lists(), sched.Nodes()
      ensures Valid() && Ring() == Rings.Put(old(Ring()), b)
      ensures sched.entries == old(sched.entries) && (fate != Ruined ==> sched.Wired())
      ensures Rings.Unread(Ring()) == Rings.Last(Rings.Unread(old(Ring())) + [b], buf.Length - 1)
      ensures Ended(fate, sched.State()) == SchedSpec.Unblock(old(sched.State()), Keyboard, 0)
    {
      hide Scheduler.Wired;
      ghost var s := sched.State();
      Receive(b);
      assert sched.State() == s;
      ghost var r := Ring();
      fate := sched.Unblock(Keyboard);
      assert Ring() == r;
    }

    /** The ring's part of the interrupt: overwrites the oldest byte when full. */
    method Receive(b: int)
      requires Valid()
      modifies this`prod, this`consumer, buf
      ensures Valid() && Ring() == Rings.Put(old(Ring()), b)
      ensures Rings.Unread(Ring()) == Rings.Last(Rings.Unread(old(Ring())) + [b], buf.Length - 1)
    {
      Rings.PutKeepsLast(Ring(), b);
      ghost var before := Ring();
      buf[prod] := b;
      prod := (prod + 1) % buf.Length;
      if prod == consumer {
        consumer := (consumer + 1) % buf.Length;
      }
      assert buf[..] == before.buf[before.prod := b];
      assert Ring() == Rings.Put(before, b);
    }

    /** One turn of GetChar's loop, with interrupts off: a byte, or the caller is
        blocked until one arrives. */
    method Turn() returns (fate: Fate, got: seq<int>)
      requires Valid() && sched.Wired() && Inv(sched.State()) && sched.curProc != 0
      modifies this`consumer, sched`queues, sched`procs, sched.Lists(), sched.Nodes()
      ensures Valid() && sched.entries == old(sched.entries) && (fate != Ruined ==> sched.Wired())
      ensures Rings.Unread(old(Ring())) != [] ==>
                && fate == Returned && sched.State() == old(sched.State())
                && got == [Rings.Unread(old(Ring()))[0]] && Rings.Unread(Ring()) == Rings.Unread(old(Ring()))[1..]
      ensures Rings.Unread(old(Ring())) == [] ==>
                && Ring() == old(Ring()) && got == []
                && Ended(fate, sched.State()) == SchedSpec.BlockCurProc(old(sched.State()), Keyboard, 0, 0)
    {
      hide Scheduler.Wired;
      Rings.GetTakesFirst(Ring());
      got := [];
      if consumer != prod {
        got := [buf[consumer]];
        consumer := (consumer + 1) % buf.Length;
        return Returned, got;
      }
      fate := sched.BlockCurProc(Keyboard, 0, 0);
    }
  }
}
