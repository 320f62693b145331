/** Which frames the allocator hands out, and that none is lost or handed out twice. */
module FrameLaws {
  import opened Frames

  /** Frame f of region r lies past the cursor and past every touching exclude. */
  predicate Issuable(r: Region, exs: seq<Exclude>, f: int) {
    r.cursor <= 4096 * f < r.end && forall x | x in exs && Touches(r, x) :: x.end + 4096 <= 4096 * f
  }

  ghost predicate GoodTables(regs: seq<Region>, exs: seq<Exclude>) {
    (forall r :: r in regs ==> GoodRegion(r)) && (forall x :: x in exs ==> GoodExclude(x))
  }

  lemma InNumbers(lo: int, hi: int, n: int)
    ensures n in Numbers(lo, hi) <==> lo <= n < hi
  {
    if lo <= n < hi { assert Numbers(lo, hi)[n - lo] == n; }
  }

  lemma WindowExact(r: Region, exs: seq<Exclude>, f: int)
    requires GoodRegion(r) && forall x :: x in exs ==> GoodExclude(x)
    ensures f in Window(r, exs) <==> Issuable(r, exs, f)
  {
    SkipAligned(r, exs);
    InNumbers(Skip(r, exs) / 4096, r.end / 4096, f);
    if f >= 0 { SkipIsMax(r, exs, 4096 * f); }
  }

  /** The frames issued before any is reused are exactly the issuable ones. */
  lemma {:induction false} FreshExact(regs: seq<Region>, exs: seq<Exclude>, f: int)
    requires GoodTables(regs, exs)
    ensures f in Fresh(regs, exs) <==> exists i :: 0 <= i < |regs| && Issuable(regs[i], exs, f)
  {
    if regs != [] {
      WindowExact(regs[0], exs, f);
      FreshExact(regs[1..], exs, f);
      assert forall i :: 1 <= i < |regs| ==> regs[i] == regs[1..][i - 1];
      assert forall i :: 0 <= i < |regs[1..]| ==> regs[1..][i] == regs[i + 1];
    }
  }

  /** No two regions can issue the same frame. */
  ghost predicate WindowsApart(regs: seq<Region>, exs: seq<Exclude>) {
    forall i, j, f :: 0 <= i < j < |regs| && Issuable(regs[i], exs, f) ==> !Issuable(regs[j], exs, f)
  }

  lemma NoRepeatConcat(a: seq<int>, b: seq<int>)
    ensures NoRepeat(a + b) <==> NoRepeat(a) && NoRepeat(b) && forall n :: n in a ==> n !in b
  {
    var c := a + b;
    if NoRepeat(c) {
      forall i, j | 0 <= i < j < |a| ensures a[i] != a[j] { assert c[i] != c[j]; }
      forall i, j | 0 <= i < j < |b| ensures b[i] != b[j] { assert c[|a| + i] != c[|a| + j]; }
      forall i, j | 0 <= i < |a| && 0 <= j < |b| ensures a[i] != b[j] { assert c[i] != c[|a| + j]; }
    }
    if NoRepeat(a) && NoRepeat(b) && forall n :: n in a ==> n !in b {
      forall i, j | 0 <= i < j < |c| ensures c[i] != c[j] {
        if i < |a| <= j { assert c[i] in a && c[j] == b[j - |a|] && b[j - |a|] in b; }
      }
    }
  }

  /** Each frame is issued once if and only if the regions' windows do not overlap. */
  lemma {:induction false} FreshOnce(regs: seq<Region>, exs: seq<Exclude>)
    requires GoodTables(regs, exs)
    ensures NoRepeat(Fresh(regs, exs)) <==> WindowsApart(regs, exs)
  {
    if regs != [] {
      var w, rest := Window(regs[0], exs), regs[1..];
      FreshOnce(rest, exs);
      NoRepeatConcat(w, Fresh(rest, exs));
      forall f ensures (f in w <==> Issuable(regs[0], exs, f))
                       && (f in Fresh(rest, exs) <==> exists j :: 0 <= j < |rest| && Issuable(rest[j], exs, f)) {
        WindowExact(regs[0], exs, f);
        FreshExact(rest, exs, f);
      }
      ApartSplit(regs, exs);
    }
  }

  lemma ApartSplit(regs: seq<Region>, exs: seq<Exclude>)
    requires regs != []
    ensures WindowsApart(regs, exs) <==>
            && WindowsApart(regs[1..], exs)
            && forall j, f :: 0 <= j < |regs[1..]| && Issuable(regs[1..][j], exs, f) ==> !Issuable(regs[0], exs, f)
  {
    var rest := regs[1..];
    assert forall j :: 0 <= j < |rest| ==> rest[j] == regs[j + 1];
    if WindowsApart(regs, exs) {
      forall i, j, f | 0 <= i < j < |rest| && Issuable(rest[i], exs, f) ensures !Issuable(rest[j], exs, f) {
        assert Issuable(regs[i + 1], exs, f);
      }
    }
    if WindowsApart(rest, exs)
       && forall j, f :: 0 <= j < |rest| && Issuable(rest[j], exs, f) ==> !Issuable(regs[0], exs, f) {
      forall i, j, f | 0 <= i < j < |regs| && Issuable(regs[i], exs, f) ensures !Issuable(regs[j], exs, f) {
        if i > 0 { assert Issuable(rest[i - 1], exs, f); }
        assert Issuable(rest[j - 1], exs, f) <==> Issuable(regs[j], exs, f);
      }
    }
  }

  /** No issued frame overlaps an excluded range, nor frame 0. */
  lemma FreshAvoidsExcluded(regs: seq<Region>, exs: seq<Exclude>, f: int, x: Exclude)
    requires GoodTables(regs, exs) && x in exs && f in Fresh(regs, exs)
    requires forall r :: r in regs ==> 0 < r.cursor && r.start <= r.cursor
    ensures 0 < f && (4096 * f + 4096 <= x.start || x.end <= 4096 * f)
  {
    FreshExact(regs, exs, f);
    var i :| 0 <= i < |regs| && Issuable(regs[i], exs, f);
    var r := regs[i];
    assert GoodRegion(r) && GoodExclude(x);
    if !Touches(r, x) {
      assert r.end < x.start ==> 4096 * f + 4096 <= r.end;
    }
  }

  // --------------------------------------------------------------------------- runs

  datatype FrameOp = Get | Put(frame: int)

  /** The pool and the frames currently in callers' hands. */
  datatype Ledger = Ledger(pool: Pool, held: multiset<int>)

  predicate Allowed(l: Ledger, op: FrameOp) {
    op.Put? ==> op.frame in l.held && op.frame != 0
  }

  function Apply(l: Ledger, op: FrameOp): Ledger {
    match op
    case Get => Ledger(Take(l.pool), if Available(l.pool) > 0 then l.held + multiset{Next(l.pool)} else l.held)
    case Put(f) => Ledger(Give(l.pool, f), l.held - multiset{f})
  }

  function Everywhere(l: Ledger): multiset<int> {
    multiset(l.pool.unissued) + multiset(l.pool.freed) + l.held
  }

  lemma ApplyKeeps(l: Ledger, op: FrameOp)
    requires Allowed(l, op)
    ensures Everywhere(Apply(l, op)) == Everywhere(l)
  {
    match op
    case Get => GetKeeps(l);
    case Put(f) => PutKeeps(l, f);
  }

  lemma GetKeeps(l: Ledger)
    ensures Everywhere(Apply(l, Get)) == Everywhere(l)
  {
    if l.pool.unissued != [] {
      WithoutFirst(l.pool.unissued);
    } else if l.pool.freed != [] {
      WithoutLast(l.pool.freed);
    }
  }

  lemma WithoutFirst(s: seq<int>)
    requires s != []
    ensures multiset(s) == multiset(s[1..]) + multiset{s[0]}
  {
    assert s == [s[0]] + s[1..];
  }

  lemma WithoutLast(s: seq<int>)
    requires s != []
    ensures multiset(s) == multiset(s[..|s| - 1]) + multiset{s[|s| - 1]}
  {
    assert s == s[..|s| - 1] + [s[|s| - 1]];
  }

  lemma PutKeeps(l: Ledger, f: int)
    requires Allowed(l, Put(f))
    ensures Everywhere(Apply(l, Put(f))) == Everywhere(l)
  {
    assert l.held == (l.held - multiset{f}) + multiset{f};
  }

  predicate AllAllowed(l: Ledger, ops: seq<FrameOp>)
    decreases |ops|
  {
    ops == [] || (Allowed(l, ops[0]) && AllAllowed(Apply(l, ops[0]), ops[1..]))
  }

  function ApplyAll(l: Ledger, ops: seq<FrameOp>): Ledger
    decreases |ops|
  {
    if ops == [] then l else ApplyAll(Apply(l, ops[0]), ops[1..])
  }

  function Gets(ops: seq<FrameOp>): nat {
    if ops == [] then 0 else (if ops[0] == Get then 1 else 0) + Gets(ops[1..])
  }

  /** On every run of allocations and releases of held frames no frame is lost, invented
      or duplicated, and the never issued frames go out first and in order. */
  lemma {:induction false} RunConserves(l: Ledger, ops: seq<FrameOp>)
    requires AllAllowed(l, ops)
    ensures var l' := ApplyAll(l, ops);
            && Everywhere(l') == Everywhere(l)
            && l'.pool.unissued == if Gets(ops) < |l.pool.unissued| then l.pool.unissued[Gets(ops)..] else []
    decreases |ops|
  {
    if ops != [] {
      ApplyKeeps(l, ops[0]);
      RunConserves(Apply(l, ops[0]), ops[1..]);
    }
  }
}
