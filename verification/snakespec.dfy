/** The shared board of the snakes demonstration: what a move does to it, what
    every interleaving of moves keeps, and how a hungry snake gets to its food. */
module SnakeSpec {
  import opened SnakeSearch

  datatype Point = Point(x: int, y: int)

  /** body[0] is the head. */
  datatype Snake = Snake(dir: int, body: seq<Point>)

  datatype World = World(rows: int, cols: int, snakes: seq<Snake>, food: Point, seed: int)

  /** The directions NW, N, NE, W, E, SW, S, SE. */
  const DELTA_X: seq<int> := [-1, 0, 1, -1, 1, -1, 0, 1]
  const DELTA_Y: seq<int> := [-1, -1, -1, 0, 0, 1, 1, 1]

  /** deltaY + 1 selects the row, deltaX + 1 the column. */
  const DELTA_TO_DIR: seq<seq<int>> := [[0, 1, 2], [3, 1, 4], [5, 6, 7]]

  function Ahead(p: Point, d: int): Point
    requires 0 <= d < 8
  {
    Point(p.x + DELTA_X[d], p.y + DELTA_Y[d])
  }

  predicate OnBoard(w: World, p: Point) {
    0 <= p.x < w.cols && 0 <= p.y < w.rows
  }

  predicate Obstructed(w: World, p: Point) {
    !OnBoard(w, p) || exists i :: 0 <= i < |w.snakes| && p in w.snakes[i].body
  }

  /** Which of the eight neighbours of p are obstructed. */
  function Blocked(w: World, p: Point): (b: seq<bool>)
    ensures |b| == 8
  {
    seq(8, d requires 0 <= d < 8 => Obstructed(w, Ahead(p, d)))
  }

  /** One move of snake i that first tries direction own; a stuck snake's head stays
      while the rest of its body catches up with it. */
  function MoveFrom(w: World, i: int, own: int): World
    requires 0 <= i < |w.snakes| && w.snakes[i].body != [] && 0 <= own < 8
  {
    var s, l := w.snakes[i], w.seed % 8;
    var n := Turns(Blocked(w, s.body[0]), own, l, 0);
    TriedRange(own, l, n);
    var dir := Tried(own, l, n);
    var head := if AllDead(own, l, n) then s.body[0] else Ahead(s.body[0], dir);
    w.(snakes := w.snakes[i := Snake(dir, [head] + s.body[..|s.body| - 1])], seed := RandAfter(w.seed, n))
  }

  function Sign(n: int): int { if n > 0 then 1 else if n < 0 then -1 else 0 }

  function FoodDirection(food: Point, p: Point): (d: int)
    ensures 0 <= d < 8
  {
    DELTA_TO_DIR[Sign(food.y - p.y) + 1][Sign(food.x - p.x) + 1]
  }

  function Abs(n: int): nat { if n < 0 then -n else n }

  function Max(a: int, b: int): int { if a > b then a else b }

  /** The Chebyshev distance. */
  function Distance(p: Point, q: Point): int { Max(Abs(p.x - q.x), Abs(p.y - q.y)) }

  ghost predicate Whole(w: World, s: Snake) {
    && 0 <= s.dir < 8 && s.body != []
    && (forall p | p in s.body :: OnBoard(w, p))
    && forall k :: 0 <= k < |s.body| - 1 ==> Distance(s.body[k], s.body[k + 1]) <= 1
  }

  ghost predicate Apart(s: Snake, t: Snake) {
    forall p | p in s.body :: p !in t.body
  }

  /** Every segment is on the board, segments touch the next, no cell is shared. */
  ghost predicate BoardInv(w: World) {
    && (forall i :: 0 <= i < |w.snakes| ==> Whole(w, w.snakes[i]))
    && forall i, j :: 0 <= i < j < |w.snakes| ==> Apart(w.snakes[i], w.snakes[j])
  }

  predicate Surrounded(w: World, p: Point) {
    forall d | 0 <= d < 8 :: Obstructed(w, Ahead(p, d))
  }

  /** The search seen from p. */
  lemma SearchFrom(w: World, p: Point, own: int, l: int)
    requires 0 <= own < 8 && 0 <= l < 8
    ensures var n := Turns(Blocked(w, p), own, l, 0);
            && 0 <= Tried(own, l, n) < 8
            && (AllDead(own, l, n) <==> Surrounded(w, p))
            && (!AllDead(own, l, n) ==> !Obstructed(w, Ahead(p, Tried(own, l, n))))
            && (!Obstructed(w, Ahead(p, own)) ==> n == 0)
  {
    var blocked := Blocked(w, p);
    SearchExact(blocked, own, l);
    assert forall d | 0 <= d < 8 :: blocked[d] == Obstructed(w, Ahead(p, d));
    assert Tried(own, l, 0) == own;
    if !Obstructed(w, Ahead(p, own)) { assert !TriedBlocked(blocked, own, l, 0); }
  }

  lemma Moves(p: Point, d: int)
    requires 0 <= d < 8
    ensures Ahead(p, d) != p
  {
    assert DELTA_X[d] != 0 || DELTA_Y[d] != 0;
  }

  /** The exact outcome of a move's search: the head stays if and only if all eight
      neighbours are obstructed, and otherwise goes to a free one; the first choice
      is taken whenever it is free. */
  lemma MoveExact(w: World, i: int, own: int)
    requires 0 <= i < |w.snakes| && w.snakes[i].body != [] && 0 <= own < 8
    ensures var s, s' := w.snakes[i], MoveFrom(w, i, own).snakes[i];
            && |s'.body| == |s.body| && 0 <= s'.dir < 8 && s'.body[1..] == s.body[..|s.body| - 1]
            && (s'.body[0] == s.body[0] <==> Surrounded(w, s.body[0]))
            && (s'.body[0] != s.body[0] ==> !Obstructed(w, s'.body[0]) && s'.body[0] == Ahead(s.body[0], s'.dir))
            && (!Obstructed(w, Ahead(s.body[0], own)) ==> s'.body[0] == Ahead(s.body[0], own) && s'.dir == own)
    ensures var w' := MoveFrom(w, i, own);
            && w'.rows == w.rows && w'.cols == w.cols && w'.food == w.food && |w'.snakes| == |w.snakes|
            && forall j | 0 <= j < |w.snakes| && j != i :: w'.snakes[j] == w.snakes[j]
  {
    var s, l := w.snakes[i], w.seed % 8;
    SearchFrom(w, s.body[0], own, l);
    Moves(s.body[0], Tried(own, l, Turns(Blocked(w, s.body[0]), own, l, 0)));
    assert Tried(own, l, 0) == own;
  }

  /** The random numbers a move takes, n of them: none if its first choice is free. Each
      gives the next direction, and all but the last of those were obstructed. */
  lemma MoveDraws(w: World, i: int, own: int) returns (n: nat)
    requires 0 <= i < |w.snakes| && w.snakes[i].body != [] && 0 <= own < 8
    ensures n <= 9 && MoveFrom(w, i, own).seed == RandAfter(w.seed, n)
    ensures n == 0 <==> !Obstructed(w, Ahead(w.snakes[i].body[0], own))
    ensures MoveFrom(w, i, own).snakes[i].dir == if n == 0 then own else MoveFrom(w, i, own).seed % 8
    ensures forall j | 0 < j < n :: Obstructed(w, Ahead(w.snakes[i].body[0], RandAfter(w.seed, j) % 8))
  {
    hide SnakeSearch.Rand;
    var p, l := w.snakes[i].body[0], w.seed % 8;
    var blocked := Blocked(w, p);
    n := Turns(blocked, own, l, 0);
    SearchFrom(w, p, own, l);
    SearchExact(blocked, own, l);
    RandAfterLow(w.seed, n);
    assert Tried(own, l, 0) == own;
    forall j | 0 < j < n ensures Obstructed(w, Ahead(p, RandAfter(w.seed, j) % 8)) {
      RandAfterLow(w.seed, j);
      assert blocked[Tried(own, l, j)];
    }
    if n == 0 { NotAllDead(own, l); } else { assert blocked[Tried(own, l, 0)]; }
  }

  lemma NotAllDead(own: int, l: int)
    requires 0 <= own < 8 && 0 <= l < 8
    ensures !AllDead(own, l, 0)
  {
    DeadExact(own, l, 0);
  }

  lemma OneStep(p: Point, d: int)
    requires 0 <= d < 8
    ensures Distance(Ahead(p, d), p) == 1
  {}

  lemma MoveKeeps(w: World, i: int, own: int)
    requires BoardInv(w) && 0 <= i < |w.snakes| && 0 <= own < 8
    ensures w.snakes[i].body != []
    ensures BoardInv(MoveFrom(w, i, own))
  {
    var s := w.snakes[i];
    MoveExact(w, i, own);
    var w' := MoveFrom(w, i, own);
    var s' := w'.snakes[i];
    assert forall p | p in s'.body :: p in s.body || p == s'.body[0];
    assert forall p | p in s'.body :: p in s.body || !Obstructed(w, p);
    WholeKept(w, s, s');
    forall j | 0 <= j < |w'.snakes| ensures Whole(w', w'.snakes[j]) {
      assert Whole(w, w.snakes[j]);
    }
    forall j, k | 0 <= j < k < |w'.snakes| ensures Apart(w'.snakes[j], w'.snakes[k]) {
      assert Apart(w.snakes[j], w.snakes[k]);
      var t := w.snakes[if j == i then k else j];
      if j == i || k == i {
        forall p | p in s'.body ensures p !in t.body {}
      }
    }
  }

  lemma WholeKept(w: World, s: Snake, s': Snake)
    requires Whole(w, s) && |s'.body| == |s.body| && 0 <= s'.dir < 8
    requires s'.body[1..] == s.body[..|s.body| - 1]
    requires s'.body[0] == s.body[0] || (OnBoard(w, s'.body[0]) && s'.body[0] == Ahead(s.body[0], s'.dir))
    ensures Whole(w, s')
  {
    assert s'.body == [s'.body[0]] + s.body[..|s.body| - 1];
    OneStep(s.body[0], s'.dir);
    forall k | 0 <= k < |s'.body| - 1 ensures Distance(s'.body[k], s'.body[k + 1]) <= 1 {
      if k > 0 {
        assert s'.body[k] == s.body[k - 1] && s'.body[k + 1] == s.body[k];
      }
    }
  }

  /** The food's direction is the best there is: no other step gets closer. */
  lemma FoodStep(food: Point, p: Point, d: int)
    requires 0 <= d < 8
    ensures p != food ==> Distance(Ahead(p, FoodDirection(food, p)), food) == Distance(p, food) - 1
    ensures Distance(Ahead(p, d), food) >= Distance(p, food) - 1
    ensures p == food ==> FoodDirection(food, p) == 1
  {}
}
