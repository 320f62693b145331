/** The random search of a snake for a way out, and why it ends: the low three bits
    of the generator run through all eight directions. */
module SnakeSearch {
  const NUMDIRS: int := 8

  /** rand, whose result is stored in an unsigned int. */
  function Rand(seed: int): (r: int)
    ensures 0 <= r < 0x1_0000_0000
  {
    (seed * 6364136223846793005 + 1442695040888963407) % 0x1_0000_0000
  }

  /** The 64-bit arithmetic and the 63-bit mask on the way do not show in 32 bits. */
  lemma RandWidths(seed: int)
    ensures Rand(seed) == (seed * 6364136223846793005 + 1442695040888963407)
                          % 0x1_0000_0000_0000_0000 % 0x8000_0000_0000_0000 % 0x1_0000_0000
  {
    var x := seed * 6364136223846793005 + 1442695040888963407;
    var y := x % 0x1_0000_0000_0000_0000;
    DropHigh(0x1_0000_0000 * (x / 0x1_0000_0000_0000_0000), y);
    DropHigh(0x8000_0000 * (y / 0x8000_0000_0000_0000), y % 0x8000_0000_0000_0000);
  }

  lemma DropHigh(m: int, v: int)
    ensures (0x1_0000_0000 * m + v) % 0x1_0000_0000 == v % 0x1_0000_0000
  {}

  function RandAfter(seed: int, n: nat): int {
    if n == 0 then seed else Rand(RandAfter(seed, n - 1))
  }

  /** What Rand does to the low three bits. */
  function Cycle(l: int): (r: int)
    ensures 0 <= r < 8
  {
    (5 * l + 7) % 8
  }

  function LowAfter(l: int, n: nat): int {
    if n == 0 then l else Cycle(LowAfter(l, n - 1))
  }

  lemma Drop8(m: int, v: int)
    ensures (8 * m + v) % 8 == v % 8
  {}

  lemma RandLow(seed: int)
    ensures Rand(seed) % 8 == Cycle(seed % 8)
  {
    var x := seed * 6364136223846793005 + 1442695040888963407;
    var q, r := seed / 8, seed % 8;
    Drop8(seed * 795517027980849125 + 5 * q + 180336880111120425, 5 * r + 7);
    Drop8(0x2000_0000 * (x / 0x1_0000_0000), x % 0x1_0000_0000);
  }

  lemma {:induction false} RandAfterLow(seed: int, n: nat)
    ensures RandAfter(seed, n) % 8 == LowAfter(seed % 8, n)
  {
    if n > 0 {
      RandAfterLow(seed, n - 1);
      RandLow(RandAfter(seed, n - 1));
    }
  }

  /** The eight values after l. */
  function Round(l: int): (r: seq<int>)
    ensures |r| == 8
  {
    var c1 := Cycle(l);
    var c2 := Cycle(c1);
    var c3 := Cycle(c2);
    var c4 := Cycle(c3);
    var c5 := Cycle(c4);
    var c6 := Cycle(c5);
    var c7 := Cycle(c6);
    [c1, c2, c3, c4, c5, c6, c7, Cycle(c7)]
  }

  /** The generator's single cycle of length eight. */
  lemma CycleValues()
    ensures Cycle(0) == 7 && Cycle(7) == 2 && Cycle(2) == 1 && Cycle(1) == 4
    ensures Cycle(4) == 3 && Cycle(3) == 6 && Cycle(6) == 5 && Cycle(5) == 0
  {}

  lemma Table(l: int) returns (r: seq<int>)
    requires 0 <= l < 8
    ensures r == Round(l) && |r| == 8 && r[7] == l
    ensures forall d :: d in r <==> 0 <= d < 8
    ensures forall i, j :: 0 <= i < j < 8 ==> r[i] != r[j]
  {
    CycleValues();
    match l
    case 0 => r := [7, 2, 1, 4, 3, 6, 5, 0];
    case 1 => r := [4, 3, 6, 5, 0, 7, 2, 1];
    case 2 => r := [1, 4, 3, 6, 5, 0, 7, 2];
    case 3 => r := [6, 5, 0, 7, 2, 1, 4, 3];
    case 4 => r := [3, 6, 5, 0, 7, 2, 1, 4];
    case 5 => r := [0, 7, 2, 1, 4, 3, 6, 5];
    case 6 => r := [5, 0, 7, 2, 1, 4, 3, 6];
    case _ => r := [2, 1, 4, 3, 6, 5, 0, 7];
  }

  lemma RoundStep(l: int, j: nat)
    requires 1 <= j < 8
    ensures Round(l)[j] == Cycle(Round(l)[j - 1])
  {}

  lemma {:induction false} RoundSteps(l: int, j: nat)
    requires 1 <= j <= 8
    ensures LowAfter(l, j) == Round(l)[j - 1]
  {
    if j == 1 {
      assert LowAfter(l, 0) == l;
    } else {
      RoundSteps(l, j - 1);
      RoundStep(l, j - 1);
    }
  }

  /** One round of the generator visits every direction once and ends where it began. */
  lemma OneRound(l: int)
    requires 0 <= l < 8
    ensures Round(l)[7] == l
    ensures forall j :: 1 <= j <= 8 ==> LowAfter(l, j) == Round(l)[j - 1]
    ensures forall d :: d in Round(l) <==> 0 <= d < 8
    ensures forall i, j :: 0 <= i < j < 8 ==> Round(l)[i] != Round(l)[j]
  {
    var r := Table(l);
    forall j | 1 <= j <= 8 ensures LowAfter(l, j) == r[j - 1] { RoundSteps(l, j); }
  }

  /** The direction under test after k turns of the search loop: first the snake's
      own, then those drawn from the generator whose low bits were l. */
  function Tried(own: int, l: int, k: nat): int {
    if k == 0 then own else LowAfter(l, k)
  }

  /** The directions marked as dead ends in the first k turns. */
  function Marked(own: int, l: int, k: nat): set<int> {
    set j | 0 <= j < k :: Tried(own, l, j)
  }

  /** What the loop computes before it tests the new direction. */
  predicate AllDead(own: int, l: int, k: nat) {
    forall d | 0 <= d < 8 :: d in Marked(own, l, k)
  }

  lemma MarkedRound(own: int, l: int, k: nat)
    requires 0 <= own < 8 && 0 <= l < 8 && 1 <= k <= 9
    ensures forall d :: d in Marked(own, l, k) <==> d == own || d in Round(l)[..k - 1]
  {
    OneRound(l);
    forall d ensures d in Marked(own, l, k) <==> d == own || d in Round(l)[..k - 1] {
      assert Tried(own, l, 0) == own;
      if d in Round(l)[..k - 1] {
        var j :| 0 <= j < k - 1 && Round(l)[j] == d;
        assert Tried(own, l, j + 1) == d;
      }
      if d in Marked(own, l, k) && d != own {
        var j: nat :| 0 <= j < k && Tried(own, l, j) == d;
        assert Round(l)[..k - 1][j - 1] == d;
      }
    }
  }

  /** All eight are dead after nine turns, or after eight if the snake's own
      direction is the last of the round, and never before. */
  lemma DeadExact(own: int, l: int, k: nat)
    requires 0 <= own < 8 && 0 <= l < 8 && k <= 9
    ensures AllDead(own, l, k) <==> k == 9 || (k == 8 && own == l)
  {
    OneRound(l);
    var r := Round(l);
    if k == 0 {
      assert 0 !in Marked(own, l, 0);
    } else {
      MarkedRound(own, l, k);
      if k == 9 {
        assert r[..8] == r;
      } else if k == 8 {
        if own == l {
          assert r == r[..7] + [r[7]];
          forall d | 0 <= d < 8 ensures d in Marked(own, l, k) {
            assert d in r;
          }
        } else {
          forall i | 0 <= i < 7 ensures r[..7][i] != l {}
          assert l !in Marked(own, l, 8);
        }
      } else {
        var d := if own == r[7] then r[6] else r[7];
        assert d !in r[..k - 1];
        assert d !in Marked(own, l, k);
      }
    }
  }

  /** The number of turns the loop makes from turn k on. */
  function Turns(blocked: seq<bool>, own: int, l: int, k: nat): (n: nat)
    requires |blocked| == 8 && 0 <= own < 8 && 0 <= l < 8 && k <= 9
    ensures k <= n <= 9
    decreases 9 - k
  {
    DeadExact(own, l, k);
    if TriedBlocked(blocked, own, l, k) && !AllDead(own, l, k) then Turns(blocked, own, l, k + 1) else k
  }

  predicate TriedBlocked(blocked: seq<bool>, own: int, l: int, k: nat)
    requires |blocked| == 8 && 0 <= own < 8 && 0 <= l < 8
  {
    var d := Tried(own, l, k);
    0 <= d < 8 && blocked[d]
  }

  lemma {:induction false} TurnsBlocked(blocked: seq<bool>, own: int, l: int, k: nat)
    requires |blocked| == 8 && 0 <= own < 8 && 0 <= l < 8 && k <= 9
    requires forall j | 0 <= j < k :: TriedBlocked(blocked, own, l, j)
    ensures var n := Turns(blocked, own, l, k);
            && (forall j | 0 <= j < n :: TriedBlocked(blocked, own, l, j))
            && (AllDead(own, l, n) || !TriedBlocked(blocked, own, l, n))
    decreases 9 - k
  {
    DeadExact(own, l, k);
    if TriedBlocked(blocked, own, l, k) && !AllDead(own, l, k) {
      TurnsBlocked(blocked, own, l, k + 1);
    }
  }

  lemma TriedRange(own: int, l: int, k: nat)
    requires 0 <= own < 8 && 0 <= l < 8
    ensures 0 <= Tried(own, l, k) < 8
  {}

  /** The search ends after at most nine turns. It gives up if and only if all eight
      neighbours are blocked, and otherwise stops at one that is not. */
  lemma SearchExact(blocked: seq<bool>, own: int, l: int)
    requires |blocked| == 8 && 0 <= own < 8 && 0 <= l < 8
    ensures var n := Turns(blocked, own, l, 0);
            && n <= 9
            && 0 <= Tried(own, l, n) < 8
            && (AllDead(own, l, n) <==> forall d | 0 <= d < 8 :: blocked[d])
            && (AllDead(own, l, n) ==> n == if own == l then 8 else 9)
            && (!AllDead(own, l, n) ==> !blocked[Tried(own, l, n)])
            && forall j | 0 <= j < n :: 0 <= Tried(own, l, j) < 8 && blocked[Tried(own, l, j)]
  {
    var n := Turns(blocked, own, l, 0);
    TurnsBlocked(blocked, own, l, 0);
    DeadExact(own, l, n);
    TriedRange(own, l, n);
    forall j | 0 <= j < n ensures 0 <= Tried(own, l, j) < 8 && blocked[Tried(own, l, j)] {
      assert TriedBlocked(blocked, own, l, j);
    }
    if AllDead(own, l, n) {
      forall d | 0 <= d < 8 ensures blocked[d] {
        assert d in Marked(own, l, n);
        var j: nat :| 0 <= j < n && Tried(own, l, j) == d;
        assert TriedBlocked(blocked, own, l, j);
      }
      if own == l { EightStop(blocked, own, l, 0); }
    }
  }

  /** The loop never goes past a turn at which all directions are dead. */
  lemma {:induction false} EightStop(blocked: seq<bool>, own: int, l: int, k: nat)
    requires |blocked| == 8 && 0 <= own < 8 && own == l && k <= 8
    ensures Turns(blocked, own, l, k) <= 8
    decreases 8 - k
  {
    DeadExact(own, l, k);
    if k < 8 { EightStop(blocked, own, l, k + 1); }
  }
}
