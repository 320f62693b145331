/** memcpy and memset: forward loops over one memory. */
module Stdlib {
  /** The memory after the first k assignments of a forward copy. */
  function Copied<T>(m: seq<T>, dst: nat, src: nat, k: nat): (r: seq<T>)
    requires dst + k <= |m| && src + k <= |m|
    ensures |r| == |m|
  {
    if k == 0 then m
    else
      var before := Copied(m, dst, src, k - 1);
      before[dst + k - 1 := before[src + k - 1]]
  }

  /** What a move of n elements means: the destination holds what the source held. */
  function Moved<T>(m: seq<T>, dst: nat, src: nat, n: nat): seq<T>
    requires dst + n <= |m| && src + n <= |m|
  {
    m[..dst] + m[src..src + n] + m[dst + n..]
  }

  /** Where element i of the destination comes from: a copy that starts inside its
      own source reads back what it has written. */
  function Origin(src: nat, dst: nat, i: nat): (o: nat)
    ensures src <= o <= src + i
    ensures src < dst ==> o < dst
  {
    if src < dst && i >= dst - src then Origin(src, dst, i - (dst - src)) else src + i
  }

  lemma {:induction false} CopiedAt<T>(m: seq<T>, dst: nat, src: nat, k: nat)
    requires dst + k <= |m| && src + k <= |m|
    ensures forall i: nat :: i < k ==> Copied(m, dst, src, k)[dst + i] == m[Origin(src, dst, i)]
    ensures forall j :: 0 <= j < |m| && !(dst <= j < dst + k) ==> Copied(m, dst, src, k)[j] == m[j]
  {
    if k > 0 {
      CopiedAt(m, dst, src, k - 1);
      var before, j := Copied(m, dst, src, k - 1), src + k - 1;
      if dst <= j < dst + k - 1 {
        assert before[dst + (j - dst)] == m[Origin(src, dst, j - dst)];
      }
      forall i: nat | i < k ensures Copied(m, dst, src, k)[dst + i] == m[Origin(src, dst, i)] {}
    }
  }

  ghost predicate Faithful<T>(m: seq<T>, dst: nat, src: nat, n: nat)
    requires dst + n <= |m| && src + n <= |m|
  {
    forall i: nat :: i < n ==> m[Origin(src, dst, i)] == m[src + i]
  }

  /** A forward copy is a move if and only if every element it reads back equals the
      one that was there. */
  lemma CopyExact<T>(m: seq<T>, dst: nat, src: nat, n: nat)
    requires dst + n <= |m| && src + n <= |m|
    ensures Copied(m, dst, src, n) == Moved(m, dst, src, n) <==> Faithful(m, dst, src, n)
  {
    CopiedAt(m, dst, src, n);
    var c, v := Copied(m, dst, src, n), Moved(m, dst, src, n);
    if Faithful(m, dst, src, n) {
      forall j | 0 <= j < |m| ensures c[j] == v[j] {
        MovedAt(m, dst, src, n, j);
        if dst <= j < dst + n {
          var i: nat := j - dst;
          assert c[dst + i] == m[Origin(src, dst, i)];
        }
      }
    } else {
      var i: nat :| i < n && m[Origin(src, dst, i)] != m[src + i];
      MovedAt(m, dst, src, n, dst + i);
      assert c[dst + i] == m[Origin(src, dst, i)];
    }
  }

  /** That is so for every content when dst precedes src or the areas do not overlap. */
  lemma CopyMoves<T>(m: seq<T>, dst: nat, src: nat, n: nat)
    requires dst + n <= |m| && src + n <= |m| && (dst <= src || src + n <= dst)
    ensures Copied(m, dst, src, n) == Moved(m, dst, src, n)
  {
    CopyExact(m, dst, src, n);
  }

  lemma MovedAt<T>(m: seq<T>, dst: nat, src: nat, n: nat, j: nat)
    requires dst + n <= |m| && src + n <= |m| && j < |m|
    ensures Moved(m, dst, src, n)[j] == if dst <= j < dst + n then m[src + (j - dst)] else m[j]
  {}

  /** The C function with both pointers into the same memory. */
  method Memcpy<T>(m: array<T>, dst: nat, src: nat, n: nat)
    requires dst + n <= m.Length && src + n <= m.Length
    modifies m
    ensures m[..] == Copied(old(m[..]), dst, src, n)
    ensures dst <= src || src + n <= dst ==> m[..] == Moved(old(m[..]), dst, src, n)
  {
    var i := 0;
    while i < n
      invariant 0 <= i <= n && m[..] == Copied(old(m[..]), dst, src, i)
    {
      ghost var before := m[..];
      m[dst + i] := m[src + i];
      assert m[..] == before[dst + i := before[src + i]];
      i := i + 1;
    }
    if dst <= src || src + n <= dst {
      CopyMoves(old(m[..]), dst, src, n);
    }
  }

  /** n elements from dst on set to c, and nothing else. */
  function SetTo<T>(m: seq<T>, dst: nat, c: T, n: nat): (r: seq<T>)
    requires dst + n <= |m|
    ensures |r| == |m| && forall j :: 0 <= j < |m| ==> r[j] == if dst <= j < dst + n then c else m[j]
  {
    m[..dst] + seq(n, _ => c) + m[dst + n..]
  }

  /** One turn of memset's loop. */
  lemma SetNext<T>(m: seq<T>, dst: nat, c: T, i: nat)
    requires dst + i < |m|
    ensures SetTo(m, dst, c, i)[dst + i := c] == SetTo(m, dst, c, i + 1)
  {}

  method Memset<T>(m: array<T>, dst: nat, c: T, n: nat)
    requires dst + n <= m.Length
    modifies m
    ensures m[..] == SetTo(old(m[..]), dst, c, n)
    ensures forall j :: 0 <= j < m.Length ==> m[j] == if dst <= j < dst + n then c else old(m[j])
  {
    var i := 0;
    while i < n
      invariant 0 <= i <= n && m[..] == SetTo(old(m[..]), dst, c, i)
    {
      SetNext(old(m[..]), dst, c, i);
      ghost var before := m[..];
      m[dst + i] := c;
      assert m[..] == before[dst + i := c];
      i := i + 1;
    }
    assert forall j :: 0 <= j < m.Length ==> m[j] == m[..][j];
  }
}
