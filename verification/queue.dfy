/** The intrusive doubly linked queue of process entries, as the code links it:
    pushing onto an empty queue also executes the three lines meant for a
    non-empty one, so a lone entry points at itself and, once popped, stays
    behind in head. */
module Queues {
  class QueueEntry {
    const addr: int
    var queue: Queue?
    var nxt: QueueEntry?
    var prev: QueueEntry?

    constructor (addr: int)
      ensures this.addr == addr && queue == null && nxt == null && prev == null
    {
      this.addr := addr;
      queue, nxt, prev := null, null, null;
    }
  }

  /** What a client can know of a queue: its entries in order, whether the only
      entry points at itself, and the entry an empty queue's head still shows. */
  datatype View<E> = View(items: seq<E>, solo: bool, left: seq<E>)

  function Emptied<E>(): View<E> { View([], false, []) }

  /** Pushing e behaves as on a FIFO queue exactly in these states. */
  predicate Ready<E(==)>(v: View<E>, e: E) {
    v.left == [] || v.left == [e]
  }

  function Pushed<E>(v: View<E>, e: E): View<E> {
    View(v.items + [e], v.items == [], [])
  }

  function Popped<E>(v: View<E>): View<E> {
    if v.items == [] then v
    else View(v.items[1..], false, if v.solo then [v.items[0]] else [])
  }

  class Queue {
    var head: QueueEntry?
    var tail: QueueEntry?
    var len: nat
    ghost var items: seq<QueueEntry>

    /** head, tail, len, the links and the owner fields all spell out items. */
    ghost predicate Valid()
      reads this, items
    {
      && len == |items|
      && (forall i :: 0 <= i < |items| ==> items[i].queue == this)
      && (forall i, j :: 0 <= i < j < |items| ==> items[i] != items[j])
      && (items == [] ==> head == null || tail == head)
      && (items != [] ==>
            && head == items[0] && tail == items[|items| - 1]
            && (head.prev == null || head.prev == head)
            && (tail.nxt == null || (tail.nxt == tail && |items| == 1)))
      && forall i :: 0 <= i < |items| - 1 ==> items[i].nxt == items[i + 1] && items[i + 1].prev == items[i]
    }

    ghost function Shown(): View<QueueEntry>
      reads this, items
    {
      View(items,
           |items| == 1 && items[0].nxt == items[0],
           if items == [] && head != null then var h: QueueEntry := head; [h] else [])
    }

    /** The entry besides the pushed one whose link a push writes. */
    ghost function Written(): set<QueueEntry>
      reads this
    {
      if head == null || tail == null then {} else {tail}
    }

    constructor ()
      ensures Valid() && Shown() == Emptied()
    {
      head, tail, len, items := null, null, 0, [];
    }

    /** Refuses an entry that is in a queue. Otherwise the queue spells one more
        entry if and only if it was ready for it. */
    method Link(entry: QueueEntry) returns (ok: bool)
      requires Valid()
      modifies this, entry, Written()
      ensures ok == (old(entry.queue) == null)
      ensures !ok ==> unchanged(this) && unchanged(entry) && unchanged(old(Written()))
      ensures ok ==> items == old(items) + [entry] && entry.queue == this
      ensures ok ==> (Valid() <==> Ready(old(Shown()), entry))
      ensures ok && Valid() ==> Shown() == Pushed(old(Shown()), entry)
      ensures ok && !Valid() ==> head != null && head == old(head) && head.nxt == entry && head.queue == old(head.queue)
    {
      if entry.queue != null {
        return false;
      }
      len := len + 1;
      entry.queue := this;
      entry.nxt := null;
      if head == null {
        head, tail := entry, entry;
        head.prev := null;
      }
      tail.nxt := entry;
      entry.prev := tail;
      tail := entry;
      items := items + [entry];
      ok := true;
    }

    /** No entry of a valid queue belongs to another one. */
    lemma Apart(q: Queue)
      requires Valid() && q.Valid() && q != this
      ensures forall e | e in q.items :: e !in items && e.queue == q
    {
      forall e | e in q.items ensures e !in items && e.queue == q {
        var i :| 0 <= i < |q.items| && q.items[i] == e;
      }
    }

    /** A push that the queue was not ready for breaks exactly the queue in which
        the stale head is waiting. */
    method Push(entry: QueueEntry, ghost q: Queue) returns (ok: bool)
      requires Valid() && q.Valid() && q != this
      modifies this, entry, Written()
      ensures ok == (old(entry.queue) == null)
      ensures !ok ==> Valid() && q.Valid() && Shown() == old(Shown())
      ensures ok ==> items == old(items) + [entry]
      ensures ok ==> (Valid() <==> Ready(old(Shown()), entry))
      ensures ok && Valid() ==> Shown() == Pushed(old(Shown()), entry)
      ensures q.items == old(q.items)
      ensures ok ==> (q.Valid() <==> (Ready(old(Shown()), entry) || old(head) !in q.items))
      ensures q.Valid() ==> q.Shown() == old(q.Shown())
      ensures ok && !Valid() ==> head == old(head) && head != entry
    {
      Apart(q);
      assert entry.queue == null ==> entry !in q.items;
      ghost var stale := head;
      ghost var ready := Ready(Shown(), entry);
      assert ready && entry.queue == null ==> Written() !! (set e | e in q.items);
      ok := Link(entry);
      if ok && !ready && stale in q.items {
        var k :| 0 <= k < |q.items| && q.items[k] == stale;
        assert q.items[k].nxt == entry && entry != stale;
        assert k < |q.items| - 1 ==> q.items[k + 1] != entry;
        assert !q.Valid();
      }
    }

    /** Push with its last three lines run only when the queue was not empty. */
    method LinkGuarded(entry: QueueEntry) returns (ok: bool)
      requires Valid() && !Shown().solo && Shown().left == []
      modifies this, entry, Written()
      ensures ok == (old(entry.queue) == null)
      ensures !ok ==> unchanged(this) && unchanged(entry) && unchanged(old(Written()))
      ensures ok ==> items == old(items) + [entry] && entry.queue == this
      ensures Valid() && !Shown().solo && Shown().left == []
    {
      if entry.queue != null {
        return false;
      }
      len := len + 1;
      entry.queue := this;
      entry.nxt := null;
      if head == null {
        head, tail := entry, entry;
        head.prev := null;
      } else {
        tail.nxt := entry;
        entry.prev := tail;
        tail := entry;
      }
      items := items + [entry];
      ok := true;
    }

    /** The push as it is meant: every queue but this one stays as it was, whatever
        passed through this one before. */
    method PushGuarded(entry: QueueEntry, ghost q: Queue) returns (ok: bool)
      requires Valid() && !Shown().solo && Shown().left == []
      requires q.Valid() && q != this
      modifies this, entry, Written()
      ensures ok == (old(entry.queue) == null)
      ensures !ok ==> unchanged(this) && unchanged(entry) && unchanged(old(Written()))
      ensures ok ==> entry.queue == this
      ensures Valid() && !Shown().solo && Shown().left == []
      ensures items == if ok then old(items) + [entry] else old(items)
      ensures q.Valid() && q.Shown() == old(q.Shown())
    {
      Apart(q);
      assert entry.queue == null ==> entry !in q.items;
      assert Written() !! (set e | e in q.items);
      ok := LinkGuarded(entry);
    }

    /** Removes the first entry, if there is one. */
    method Unlink() returns (entry: QueueEntry?)
      requires Valid()
      modifies this, items
      ensures Valid() && Shown() == Popped(old(Shown()))
      ensures entry == if old(items) == [] then null else old(items)[0]
      ensures entry != null ==> entry.queue == null && entry.nxt == null
    {
      if len == 0 {
        return null;
      }
      len := len - 1;
      entry := head;
      assert len > 0 ==> items[0].nxt == items[1];
      head := head.nxt;
      if head != null {
        head.prev := null;
      }
      entry.queue := null;
      entry.nxt := null;
      items := items[1..];
    }

    /** A pop leaves every other queue as it was. */
    method Pop(ghost q: Queue) returns (entry: QueueEntry?)
      requires Valid() && q.Valid() && q != this
      modifies this, items
      ensures Valid() && Shown() == Popped(old(Shown()))
      ensures entry == if old(items) == [] then null else old(items)[0]
      ensures entry != null ==> entry.queue == null && entry.nxt == null
      ensures q.Valid() && q.Shown() == old(q.Shown())
    {
      Apart(q);
      entry := Unlink();
    }

    /** Either push onto a queue that is ready for it: no other queue and no other entry
        notices. */
    method Join(entry: QueueEntry, guarded: bool, ghost qs: set<Queue>, ghost nodes: set<QueueEntry>)
      returns (ok: bool)
      requires Valid() && (entry.queue == null ==> Ready(Shown(), entry))
      requires guarded ==> !Shown().solo && Shown().left == []
      requires forall p | p in qs :: p != this && p.Valid()
      modifies this, entry, Written()
      ensures ok == (old(entry.queue) == null)
      ensures !ok ==> unchanged(this) && unchanged(entry) && unchanged(old(Written()))
      ensures ok ==> Valid() && entry.queue == this && items == old(items) + [entry] && head == items[0]
      ensures ok ==> Shown() == if guarded then View(old(items) + [entry], false, []) else Pushed(old(Shown()), entry)
      ensures forall p | p in qs :: p.Valid() && p.Shown() == old(p.Shown()) && unchanged(p)
      ensures forall x | x in nodes && x != entry :: x.queue == old(x.queue)
    {
      forall p | p in qs && entry.queue == null ensures Written() + {entry} !! (set e | e in p.items) {
        Apart(p);
      }
      assert entry.queue == null ==> forall w | w in Written() :: w == entry || (w in items && w.queue == this);
      ghost var mine := items;
      if guarded {
        ok := LinkGuarded(entry);
      } else {
        ok := Link(entry);
      }
      hide Valid, Shown, Pushed, Ready;
      assert ok ==> forall w | w in mine :: w in items;
    }

    /** A pop, likewise. */
    method Leave(ghost qs: set<Queue>, ghost nodes: set<QueueEntry>) returns (entry: QueueEntry?)
      requires Valid() && forall p | p in qs :: p != this && p.Valid()
      modifies this, items
      ensures Valid() && Shown() == Popped(old(Shown()))
      ensures entry == if old(items) == [] then null else old(items)[0]
      ensures entry != null ==> entry.queue == null
      ensures items == if old(items) == [] then [] else old(items)[1..]
      ensures head != null ==> head == old(head) || head in items
      ensures forall p | p in qs :: p.Valid() && p.Shown() == old(p.Shown()) && unchanged(p)
      ensures forall x | x in nodes && x != entry :: x.queue == old(x.queue)
    {
      forall p | p in qs ensures (set e | e in items) !! (set e | e in p.items) {
        Apart(p);
      }
      ghost var mine := items;
      assert forall x | x in mine :: x.queue == this;
      entry := Unlink();
      assert forall x | x in mine && x != entry :: x in items;
      assert forall x | x in items :: x.queue == this;
    }

    function Peak(): (r: QueueEntry?)
      reads this
    {
      head
    }

    function Length(): nat
      reads this
    {
      len
    }
  }

  // Runs of one queue, over entry numbers.

  datatype Op = Push(e: int) | Pop

  function Apply(v: View<int>, op: Op): View<int> {
    match op
    case Push(e) => Pushed(v, e)
    case Pop => Popped(v)
  }

  function After(ops: seq<Op>): View<int> {
    if ops == [] then Emptied() else Apply(After(ops[..|ops| - 1]), ops[|ops| - 1])
  }

  /** The operations that had an effect: a Pop of an empty queue has none. */
  function Effective(ops: seq<Op>): seq<Op> {
    if ops == [] then []
    else
      var before, op := Effective(ops[..|ops| - 1]), ops[|ops| - 1];
      if op.Pop? && After(ops[..|ops| - 1]).items == [] then before else before + [op]
  }

  /** The FIFO queue the code is meant to be. */
  function Fifo(ops: seq<Op>): seq<int> {
    if ops == [] then []
    else
      var before := Fifo(ops[..|ops| - 1]);
      match ops[|ops| - 1]
      case Push(e) => before + [e]
      case Pop => if before == [] then before else before[1..]
  }

  /** a was pushed onto the empty queue and popped at once, and nothing since. */
  predicate JustPassed(ops: seq<Op>, a: int) {
    JustPassedEff(Effective(ops), a)
  }

  predicate JustPassedEff(eff: seq<Op>, a: int) {
    |eff| >= 2 && eff[|eff| - 1] == Pop && eff[|eff| - 2] == Push(a) && Fifo(eff[..|eff| - 2]) == []
  }

  lemma {:induction false} FifoOfEffective(ops: seq<Op>)
    ensures After(ops).items == Fifo(ops) == Fifo(Effective(ops))
  {
    if ops != [] {
      var init, eff := ops[..|ops| - 1], Effective(ops[..|ops| - 1]);
      FifoOfEffective(init);
      assert (eff + [ops[|ops| - 1]])[..|eff|] == eff;
    }
  }

  /** The only entry points at itself exactly when pushing it was the last effect. */
  lemma {:induction false} SoloExact(ops: seq<Op>)
    ensures var eff := Effective(ops);
            After(ops).solo <==>
            eff != [] && eff[|eff| - 1].Push? && Fifo(eff[..|eff| - 1]) == []
  {
    if ops != [] {
      var init, eff := ops[..|ops| - 1], Effective(ops[..|ops| - 1]);
      SoloExact(init);
      FifoOfEffective(init);
      assert (eff + [ops[|ops| - 1]])[..|eff|] == eff;
    }
  }

  /** A pop leaves a behind exactly when a alone was in the queue since its push. */
  lemma PopLeaves(eff: seq<Op>, a: int)
    ensures JustPassedEff(eff + [Pop], a) <==> eff != [] && eff[|eff| - 1] == Push(a) && Fifo(eff[..|eff| - 1]) == []
  {
    var all := eff + [Pop];
    assert all[|all| - 1] == Pop;
    if eff != [] {
      assert all[|all| - 2] == eff[|eff| - 1];
      assert all[..|all| - 2] == eff[..|eff| - 1];
    }
  }

  lemma SoloItems(ops: seq<Op>)
    ensures After(ops).solo ==> |After(ops).items| == 1
    ensures After(ops).items != [] ==> After(ops).left == []
  {}

  /** An emptied queue still shows a exactly when a just passed through it. */
  lemma {:induction false} LeftExact(ops: seq<Op>, a: int)
    ensures After(ops).left == [a] <==> JustPassed(ops, a)
    ensures |After(ops).left| <= 1
  {
    if ops != [] {
      var init, eff, op := ops[..|ops| - 1], Effective(ops[..|ops| - 1]), ops[|ops| - 1];
      LeftExact(init, a);
      match op
      case Push(e) =>
        assert (eff + [op])[|eff|] == op;
      case Pop =>
        if After(init).items != [] {
          FifoOfEffective(init);
          SoloExact(init);
          SoloItems(init);
          PopLeaves(eff, a);
          if After(init).solo {
            var e := eff[|eff| - 1].e;
            assert Fifo(eff) == [e];
            assert After(ops).left == [e];
          }
        }
    }
  }

  /** A push of e after ops goes wrong if and only if another entry a has just
      passed through the empty queue alone. */
  lemma ReadyExact(ops: seq<Op>, e: int)
    ensures !Ready(After(ops), e) <==> exists a :: a != e && JustPassed(ops, a)
  {
    forall a ensures After(ops).left == [a] <==> JustPassed(ops, a) {
      LeftExact(ops, a);
    }
    LeftExact(ops, e);
    if !Ready(After(ops), e) {
      var a := After(ops).left[0];
      assert After(ops).left == [a];
    }
  }

  /** A whole run works exactly as on a FIFO queue if and only if no push of it
      follows another entry that has just passed through alone. */
  lemma RunExact(ops: seq<Op>)
    ensures (forall i | 0 <= i < |ops| && ops[i].Push? :: Ready(After(ops[..i]), ops[i].e)) <==>
            (forall i, a | 0 <= i < |ops| && ops[i].Push? && JustPassed(ops[..i], a) :: a == ops[i].e)
    ensures After(ops).items == Fifo(ops)
  {
    FifoOfEffective(ops);
    forall i | 0 <= i < |ops| && ops[i].Push?
      ensures !Ready(After(ops[..i]), ops[i].e) <==> exists a :: a != ops[i].e && JustPassed(ops[..i], a)
    {
      ReadyExact(ops[..i], ops[i].e);
    }
  }

  /** Push A, Pop, Push B: the one entry in the queue is B, but its head is A. */
  method SelfLink() returns (pushed: QueueEntry, first: QueueEntry?)
    ensures first != null && first != pushed
  {
    var q := new Queue();
    var a := new QueueEntry(1);
    pushed := new QueueEntry(2);
    var ok := q.Link(a);
    assert q.Shown() == View([a], true, []);
    first := q.Unlink();
    assert q.Shown() == View([], false, [a]);
    ok := q.Link(pushed);
    first := q.Peak();
  }
}
