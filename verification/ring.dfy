/** The keyboard's ring buffer, for any size of at least two: it holds the last
    size - 1 bytes that have not been read. */
module Rings {
  datatype Ring = Ring(buf: seq<int>, prod: int, consumer: int)

  ghost predicate Good(r: Ring) {
    |r.buf| >= 2 && 0 <= r.prod < |r.buf| && 0 <= r.consumer < |r.buf|
  }

  /** BUF_INC */
  function Inc(v: int, size: nat): int
    requires size > 0
  {
    (v + 1) % size
  }

  function Put(r: Ring, b: int): Ring
    requires Good(r)
  {
    var prod := Inc(r.prod, |r.buf|);
    Ring(r.buf[r.prod := b], prod, if prod == r.consumer then Inc(r.consumer, |r.buf|) else r.consumer)
  }

  function Get(r: Ring): Ring
    requires Good(r)
  {
    r.(consumer := Inc(r.consumer, |r.buf|))
  }

  /** The place i steps after the consumer index. */
  function At(r: Ring, i: int): int {
    if r.consumer + i < |r.buf| then r.consumer + i else r.consumer + i - |r.buf|
  }

  function Count(r: Ring): int {
    if r.consumer <= r.prod then r.prod - r.consumer else r.prod - r.consumer + |r.buf|
  }

  /** The bytes between the consumer and the producer. */
  function Unread(r: Ring): seq<int>
    requires Good(r)
  {
    seq(Count(r), i requires 0 <= i < Count(r) => r.buf[At(r, i)])
  }

  function Last(s: seq<int>, n: nat): seq<int> {
    if |s| <= n then s else s[|s| - n..]
  }

  lemma IncWraps(v: int, size: nat)
    requires 0 <= v < size
    ensures Inc(v, size) == if v + 1 == size then 0 else v + 1
  {
    if v + 1 < size {
      assert (v + 1) / size == 0;
    }
  }

  /** Before any byte is dropped, the new one is the last of the unread ones. */
  lemma WriteAppends(r: Ring, b: int, i: int)
    requires Good(r) && 0 <= i <= Count(r)
    ensures 0 <= At(r, i) < |r.buf|
    ensures r.buf[r.prod := b][At(r, i)] == (Unread(r) + [b])[i]
  {}

  /** A byte pushes the oldest one out if and only if size - 1 were unread. */
  lemma PutKeepsLast(r: Ring, b: int)
    requires Good(r)
    ensures Good(Put(r, b)) && |Put(r, b).buf| == |r.buf|
    ensures Unread(Put(r, b)) == Last(Unread(r) + [b], |r.buf| - 1)
  {
    IncWraps(r.prod, |r.buf|);
    IncWraps(r.consumer, |r.buf|);
    var r', want := Put(r, b), Last(Unread(r) + [b], |r.buf| - 1);
    var dropped := if Count(r) == |r.buf| - 1 then 1 else 0;
    assert Count(r') == Count(r) + 1 - dropped == |want|;
    forall i | 0 <= i < |want| ensures Unread(r')[i] == want[i] {
      assert At(r', i) == At(r, i + dropped);
      WriteAppends(r, b, i + dropped);
    }
  }

  lemma GetTakesFirst(r: Ring)
    requires Good(r)
    ensures r.consumer != r.prod <==> Unread(r) != []
    ensures r.consumer != r.prod ==>
              && Good(Get(r)) && |Get(r).buf| == |r.buf|
              && r.buf[r.consumer] == Unread(r)[0] && Unread(Get(r)) == Unread(r)[1..]
  {
    IncWraps(r.consumer, |r.buf|);
  }

  // Runs of the producer and the consumer.

  datatype Op = Byte(b: int) | Read

  /** The ring, the bytes read from it and the bytes sent to it. */
  datatype Log = Log(ring: Ring, got: seq<int>, sent: seq<int>)

  function Step(l: Log, op: Op): Log
    requires Good(l.ring)
  {
    match op
    case Byte(b) => Log(Put(l.ring, b), l.got, l.sent + [b])
    case Read => if l.ring.consumer == l.ring.prod then l
                 else Log(Get(l.ring), l.got + [l.ring.buf[l.ring.consumer]], l.sent)
  }

  lemma StepGood(l: Log, op: Op)
    requires Good(l.ring)
    ensures Good(Step(l, op).ring) && |Step(l, op).ring.buf| == |l.ring.buf|
  {
    if op.Byte? { PutKeepsLast(l.ring, op.b); } else { GetTakesFirst(l.ring); }
  }

  function Run(l: Log, ops: seq<Op>): (r: Log)
    requires Good(l.ring)
    ensures Good(r.ring) && |r.ring.buf| == |l.ring.buf|
    decreases ops
  {
    if ops == [] then l
    else
      StepGood(l, ops[0]);
      Run(Step(l, ops[0]), ops[1..])
  }

  /** Some byte of the run arrives while size - 1 are unread. */
  ghost predicate Overflows(l: Log, ops: seq<Op>)
    requires Good(l.ring)
    decreases ops
  {
    if ops == [] then false
    else
      StepGood(l, ops[0]);
      (ops[0].Byte? && |Unread(l.ring)| == |l.ring.buf| - 1) || Overflows(Step(l, ops[0]), ops[1..])
  }

  lemma StepLog(l: Log, op: Op)
    requires Good(l.ring)
    ensures var l' := Step(l, op);
            && Good(l'.ring) && |l'.ring.buf| == |l.ring.buf|
            && |l'.sent| - |l'.got| - |Unread(l'.ring)| ==
               |l.sent| - |l.got| - |Unread(l.ring)| +
               (if op.Byte? && |Unread(l.ring)| == |l.ring.buf| - 1 then 1 else 0)
            && (l.got + Unread(l.ring) == l.sent && !(op.Byte? && |Unread(l.ring)| == |l.ring.buf| - 1) ==>
                l'.got + Unread(l'.ring) == l'.sent)
  {
    if op.Byte? {
      PutKeepsLast(l.ring, op.b);
      assert (l.got + Unread(l.ring)) + [op.b] == l.got + (Unread(l.ring) + [op.b]);
    } else {
      GetTakesFirst(l.ring);
      if l.ring.consumer != l.ring.prod {
        var u := Unread(l.ring);
        assert u == [u[0]] + u[1..];
        assert (l.got + [u[0]]) + u[1..] == l.got + u;
      }
    }
  }

  /** The reader gets every byte, once and in order, if and only if no byte ever
      finds the ring full. */
  lemma {:induction false} NothingLost(l: Log, ops: seq<Op>)
    requires Good(l.ring) && l.got + Unread(l.ring) == l.sent
    ensures var r := Run(l, ops); r.got + Unread(r.ring) == r.sent <==> !Overflows(l, ops)
    decreases ops
  {
    if ops != [] {
      StepLog(l, ops[0]);
      if ops[0].Byte? && |Unread(l.ring)| == |l.ring.buf| - 1 {
        LossStays(Step(l, ops[0]), ops[1..]);
      } else {
        NothingLost(Step(l, ops[0]), ops[1..]);
      }
    }
  }

  lemma {:induction false} LossStays(l: Log, ops: seq<Op>)
    requires Good(l.ring)
    ensures var r := Run(l, ops); |r.sent| - |r.got| - |Unread(r.ring)| >= |l.sent| - |l.got| - |Unread(l.ring)|
    decreases ops
  {
    if ops != [] {
      StepLog(l, ops[0]);
      LossStays(Step(l, ops[0]), ops[1..]);
    }
  }
}
