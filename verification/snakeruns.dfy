/** Creating and removing snakes, whole games, and the way to the food. */
module SnakeRuns {
  import opened SnakeSpec

  function Limit(x: int, min: int, max: int): int {
    if x < min then min else if x > max then max else x
  }

  function Clamp(w: World, p: Point): Point {
    Point(Limit(p.x, 0, w.cols - 1), Limit(p.y, 0, w.rows - 1))
  }

  /** Clamping gives the cell of the board that is nearest in both directions. */
  lemma ClampNearest(w: World, p: Point, q: Point)
    requires w.rows > 0 && w.cols > 0
    ensures OnBoard(w, Clamp(w, p))
    ensures OnBoard(w, q) ==>
              Abs(Clamp(w, p).x - p.x) <= Abs(q.x - p.x) && Abs(Clamp(w, p).y - p.y) <= Abs(q.y - p.y)
  {}

  /** The body new_snake lays out backwards from p, coiled up at the walls. */
  function Coil(w: World, p: Point, dir: int, len: nat): seq<Point>
    requires 0 <= dir < 8
    decreases len
  {
    if len == 0 then []
    else [p] + Coil(w, Clamp(w, Point(p.x - DELTA_X[dir], p.y - DELTA_Y[dir])), dir, len - 1)
  }

  function Grown(w: World, y: int, x: int, len: nat, dir: int): World
    requires 0 <= dir < 8
  {
    w.(snakes := [Snake(dir, Coil(w, Clamp(w, Point(x, y)), dir, len))] + w.snakes)
  }

  function Removed(w: World, i: int): World
    requires 0 <= i < |w.snakes|
  {
    w.(snakes := w.snakes[..i] + w.snakes[i + 1..])
  }

  /** Segment k lies k steps behind p, or as far as the walls allow. */
  lemma {:induction false} CoilAt(w: World, p: Point, dir: int, len: nat, k: nat)
    requires 0 <= dir < 8 && OnBoard(w, p) && k < len
    ensures |Coil(w, p, dir, len)| == len
    ensures Coil(w, p, dir, len)[k] == Clamp(w, Point(p.x - k * DELTA_X[dir], p.y - k * DELTA_Y[dir]))
    decreases len
  {
    var next := Clamp(w, Point(p.x - DELTA_X[dir], p.y - DELTA_Y[dir]));
    if len > 1 {
      CoilAt(w, next, dir, len - 1, if k > 0 then k - 1 else 0);
      if k > 0 {
        assert Coil(w, p, dir, len)[k] == Coil(w, next, dir, len - 1)[k - 1];
        LimitSteps(p.x, DELTA_X[dir], w.cols - 1, k);
        LimitSteps(p.y, DELTA_Y[dir], w.rows - 1, k);
      }
    }
  }

  /** Clamping once on the way makes no difference. */
  lemma LimitSteps(x: int, d: int, max: int, k: int)
    requires 0 <= x <= max && -1 <= d <= 1 && k > 0
    ensures Limit(Limit(x - d, 0, max) - (k - 1) * d, 0, max) == Limit(x - k * d, 0, max)
  {
    if d == 0 {
      assert k * d == 0 && (k - 1) * d == 0;
    } else if d == 1 {
      assert k * d == k && (k - 1) * d == k - 1;
    } else {
      assert k * d == -k && (k - 1) * d == -(k - 1);
    }
  }

  lemma {:induction false} CoilWhole(w: World, p: Point, dir: int, len: nat)
    requires 0 <= dir < 8 && OnBoard(w, p) && len > 0
    ensures Whole(w, Snake(dir, Coil(w, p, dir, len))) && Coil(w, p, dir, len)[0] == p
    decreases len
  {
    var next := Clamp(w, Point(p.x - DELTA_X[dir], p.y - DELTA_Y[dir]));
    var body := Coil(w, p, dir, len);
    if len > 1 {
      CoilWhole(w, next, dir, len - 1);
      var rest := Coil(w, next, dir, len - 1);
      assert body == [p] + rest;
      forall k | 0 <= k < |body| - 1 ensures Distance(body[k], body[k + 1]) <= 1 {
        if k > 0 { assert body[k] == rest[k - 1] && body[k + 1] == rest[k]; }
      }
    }
  }

  /** A snake put on any board is whole wherever it is put, and leaves the board in
      order if and only if none of its cells was taken. */
  lemma GrownExact(w: World, y: int, x: int, len: nat, dir: int)
    requires BoardInv(w) && 0 <= dir < 8 && len > 0 && w.rows > 0 && w.cols > 0
    ensures var w', s := Grown(w, y, x, len, dir), Grown(w, y, x, len, dir).snakes[0];
            && Whole(w', s) && |s.body| == len && s.body[0] == Clamp(w, Point(x, y)) && s.dir == dir
            && w'.snakes[1..] == w.snakes && w'.rows == w.rows && w'.cols == w.cols
            && (BoardInv(w') <==> forall i | 0 <= i < |w.snakes| :: Apart(s, w.snakes[i]))
  {
    var w' := Grown(w, y, x, len, dir);
    var s := w'.snakes[0];
    CoilWhole(w, Clamp(w, Point(x, y)), dir, len);
    CoilAt(w, Clamp(w, Point(x, y)), dir, len, 0);
    assert Whole(w', s);
    if forall i | 0 <= i < |w.snakes| :: Apart(s, w.snakes[i]) {
      forall i | 0 <= i < |w'.snakes| ensures Whole(w', w'.snakes[i]) {
        if i > 0 { assert Whole(w, w.snakes[i - 1]); }
      }
      forall i, j | 0 <= i < j < |w'.snakes| ensures Apart(w'.snakes[i], w'.snakes[j]) {
        if i > 0 { assert Apart(w.snakes[i - 1], w.snakes[j - 1]); }
      }
    }
    if BoardInv(w') {
      forall i | 0 <= i < |w.snakes| ensures Apart(s, w.snakes[i]) {
        assert Apart(w'.snakes[0], w'.snakes[i + 1]);
      }
    }
  }

  lemma RemovedKeeps(w: World, i: int)
    requires BoardInv(w) && 0 <= i < |w.snakes|
    ensures BoardInv(Removed(w, i)) && |Removed(w, i).snakes| == |w.snakes| - 1
    ensures forall j | 0 <= j < |w.snakes| && j != i ::
              Removed(w, i).snakes[if j < i then j else j - 1] == w.snakes[j]
  {
    var w' := Removed(w, i);
    forall k | 0 <= k < |w'.snakes| ensures Whole(w', w'.snakes[k]) {
      assert Whole(w, w.snakes[if k < i then k else k + 1]);
    }
    forall j, k | 0 <= j < k < |w'.snakes| ensures Apart(w'.snakes[j], w'.snakes[k]) {
      assert Apart(w.snakes[if j < i then j else j + 1], w.snakes[if k < i then k else k + 1]);
    }
  }

  // Games: any interleaving of the snakes' turns.

  datatype Op =
    | Wander(i: int)
    | Hunt(i: int)
    | Feed(p: Point, seed: int)
    | Enter(y: int, x: int, len: nat, dir: int)
    | Leave(i: int)

  predicate Present(w: World, i: int) {
    0 <= i < |w.snakes| && w.snakes[i].body != [] && 0 <= w.snakes[i].dir < 8
  }

  ghost predicate Enabled(w: World, op: Op) {
    match op
    case Wander(i) => Present(w, i)
    case Hunt(i) => Present(w, i)
    case Feed(p, seed) => !Obstructed(w, p)
    case Enter(y, x, len, dir) =>
      && 0 <= dir < 8 && len > 0 && w.rows > 0 && w.cols > 0
      && forall i | 0 <= i < |w.snakes| :: Apart(Grown(w, y, x, len, dir).snakes[0], w.snakes[i])
    case Leave(i) => 0 <= i < |w.snakes|
  }

  function Step(w: World, op: Op): World
    requires Enabled(w, op)
  {
    match op
    case Wander(i) => MoveFrom(w, i, w.snakes[i].dir)
    case Hunt(i) => MoveFrom(w, i, FoodDirection(w.food, w.snakes[i].body[0]))
    case Feed(p, seed) => w.(food := p, seed := seed)
    case Enter(y, x, len, dir) => Grown(w, y, x, len, dir)
    case Leave(i) => Removed(w, i)
  }

  ghost predicate Reaches(w: World, ops: seq<Op>, w': World)
    decreases ops
  {
    if ops == [] then w' == w
    else Enabled(w, ops[0]) && Reaches(Step(w, ops[0]), ops[1..], w')
  }

  lemma FeedKeeps(w: World, p: Point, seed: int)
    requires BoardInv(w)
    ensures BoardInv(w.(food := p, seed := seed))
  {
    var w' := w.(food := p, seed := seed);
    forall i | 0 <= i < |w'.snakes| ensures Whole(w', w'.snakes[i]) { assert Whole(w, w.snakes[i]); }
  }

  lemma StepKeeps(w: World, op: Op)
    requires BoardInv(w) && Enabled(w, op)
    ensures BoardInv(Step(w, op))
  {
    match op
    case Wander(i) => MoveKeeps(w, i, w.snakes[i].dir);
    case Hunt(i) => MoveKeeps(w, i, FoodDirection(w.food, w.snakes[i].body[0]));
    case Feed(p, seed) => FeedKeeps(w, p, seed);
    case Enter(y, x, len, dir) => GrownExact(w, y, x, len, dir);
    case Leave(i) => RemovedKeeps(w, i);
  }

  /** Every game keeps the board in order. */
  lemma {:induction false} GameKeeps(w: World, ops: seq<Op>, w': World)
    requires BoardInv(w) && Reaches(w, ops, w')
    ensures BoardInv(w')
    decreases ops
  {
    if ops != [] {
      StepKeeps(w, ops[0]);
      GameKeeps(Step(w, ops[0]), ops[1..], w');
    }
  }

  predicate Stays(op: Op) { !op.Enter? && !op.Leave? }

  /** However they move, snakes keep their places in the list and their lengths. */
  lemma {:induction false} LengthsKept(w: World, ops: seq<Op>, w': World, i: nat)
    requires BoardInv(w) && Reaches(w, ops, w') && i < |w.snakes| && forall op | op in ops :: Stays(op)
    ensures |w'.snakes| == |w.snakes| && |w'.snakes[i].body| == |w.snakes[i].body|
    decreases ops
  {
    if ops != [] {
      StepKeeps(w, ops[0]);
      assert Stays(ops[0]);
      match ops[0] {
        case Wander(j) => MoveExact(w, j, w.snakes[j].dir);
        case Hunt(j) => MoveExact(w, j, FoodDirection(w.food, w.snakes[j].body[0]));
        case Feed(p, seed) =>
      }
      LengthsKept(Step(w, ops[0]), ops[1..], w', i);
    }
  }

  /** Only moves, and snake i hunts with its first choice free each time. */
  ghost predicate Unhindered(w: World, ops: seq<Op>, i: int)
    decreases ops
  {
    ops == [] ||
    (&& Enabled(w, ops[0]) && Unhindered(Step(w, ops[0]), ops[1..], i)
     && match ops[0]
        case Wander(j) => j != i
        case Hunt(j) =>
          j == i ==> !Obstructed(w, Ahead(w.snakes[i].body[0], FoodDirection(w.food, w.snakes[i].body[0])))
        case _ => false)
  }

  function Hunts(ops: seq<Op>, i: int): nat {
    if ops == [] then 0 else (if ops[0] == Hunt(i) then 1 else 0) + Hunts(ops[1..], i)
  }

  /** Whatever the other snakes do meanwhile, each unhindered move of a hungry snake
      brings it one closer, so it has its head on the food after exactly as many
      moves as the food was away, and not before. */
  lemma {:induction false} ReachesFood(w: World, ops: seq<Op>, w': World, i: int)
    requires Present(w, i) && Reaches(w, ops, w') && Unhindered(w, ops, i)
    requires Hunts(ops, i) <= Distance(w.snakes[i].body[0], w.food)
    ensures Present(w', i) && w'.food == w.food
    ensures Distance(w'.snakes[i].body[0], w.food) == Distance(w.snakes[i].body[0], w.food) - Hunts(ops, i)
    ensures w'.snakes[i].body[0] == w.food <==> Hunts(ops, i) == Distance(w.snakes[i].body[0], w.food)
    decreases ops
  {
    if ops != [] {
      var head := w.snakes[i].body[0];
      match ops[0] {
        case Wander(j) => MoveExact(w, j, w.snakes[j].dir);
        case Hunt(j) =>
          MoveExact(w, j, FoodDirection(w.food, w.snakes[j].body[0]));
          FoodStep(w.food, head, 0);
      }
      ReachesFood(Step(w, ops[0]), ops[1..], w', i);
    }
  }

  // The game as setup_snakes starts it.

  datatype Start = Start(y: int, x: int, dir: int)

  const STARTS: seq<Start> :=
    [Start(8, 30, 4), Start(10, 30, 4), Start(12, 30, 4),
     Start(8, 50, 3), Start(10, 50, 3), Start(12, 50, 3), Start(4, 40, 6)]

  /** The board after setup_snakes has made the first k snakes. */
  function Setup(rows: int, cols: int, len: nat, k: nat): World
    requires k <= 7
  {
    if k == 0 then World(rows, cols, [], Point(-1, -1), 1)
    else
      var t := STARTS[k - 1];
      Grown(Setup(rows, cols, len, k - 1), t.y, t.x, len, t.dir)
  }

  /** The cells of the i-th snake. */
  ghost predicate Placed(s: Snake, i: int)
    requires 0 <= i < 7
  {
    forall p | p in s.body :: Lane(p, i)
  }

  predicate Lane(p: Point, i: int)
    requires 0 <= i < 7
  {
    if i == 6 then p.x == 40 && 0 <= p.y <= 4
    else p.y == STARTS[i].y && if i < 3 then 21 <= p.x <= 30 else 50 <= p.x <= 59
  }

  lemma StartLane(w: World, i: int, k: int)
    requires 0 <= i < 7 && w.rows == 25 && w.cols == 80 && 0 <= k < 10
    ensures Lane(Clamp(w, Point(STARTS[i].x - k * DELTA_X[STARTS[i].dir], STARTS[i].y - k * DELTA_Y[STARTS[i].dir])), i)
    ensures OnBoard(w, Point(STARTS[i].x, STARTS[i].y))
    ensures Clamp(w, Point(STARTS[i].x, STARTS[i].y)) == Point(STARTS[i].x, STARTS[i].y)
  {}

  lemma StartPlaced(w: World, i: int, len: nat)
    requires 0 <= i < 7 && w.rows == 25 && w.cols == 80 && 0 < len <= 10
    ensures Placed(Grown(w, STARTS[i].y, STARTS[i].x, len, STARTS[i].dir).snakes[0], i)
  {
    var t := STARTS[i];
    var p0 := Point(t.x, t.y);
    StartLane(w, i, 0);
    var body := Coil(w, p0, t.dir, len);
    CoilAt(w, p0, t.dir, len, 0);
    forall p | p in body ensures Lane(p, i) {
      var k :| 0 <= k < |body| && body[k] == p;
      CoilAt(w, p0, t.dir, len, k);
      StartLane(w, i, k);
    }
  }

  /** The k snakes that setup_snakes has made so far, the latest first. */
  ghost predicate Ready(w: World, k: int) {
    && 0 <= k <= 7 && BoardInv(w) && |w.snakes| == k && w.rows == 25 && w.cols == 80
    && forall i :: 0 <= i < k ==> Placed(w.snakes[i], k - 1 - i)
  }

  lemma LanesApart(p: Point, i: int, j: int)
    requires 0 <= j < i < 7
    ensures !(Lane(p, i) && Lane(p, j))
  {}

  lemma PlacedApart(s: Snake, i: int, t: Snake, j: int)
    requires 0 <= j < i < 7 && Placed(s, i) && Placed(t, j)
    ensures Apart(s, t)
  {
    forall p | p in s.body ensures p !in t.body {
      LanesApart(p, i, j);
    }
  }

  lemma OneMore(w: World, k: int, len: nat)
    requires Ready(w, k) && k < 7 && 0 < len <= 10
    ensures Ready(Grown(w, STARTS[k].y, STARTS[k].x, len, STARTS[k].dir), k + 1)
  {
    var w' := Grown(w, STARTS[k].y, STARTS[k].x, len, STARTS[k].dir);
    GrownExact(w, STARTS[k].y, STARTS[k].x, len, STARTS[k].dir);
    StartPlaced(w, k, len);
    var s := w'.snakes[0];
    forall i | 0 <= i < |w.snakes| ensures Apart(s, w.snakes[i]) {
      PlacedApart(s, k, w.snakes[i], k - 1 - i);
    }
    assert BoardInv(w');
    forall i | 0 <= i < k + 1 ensures Placed(w'.snakes[i], k - i) {
      if i > 0 { assert Placed(w.snakes[i - 1], k - 1 - (i - 1)); }
    }
  }

  /** On the 25 by 80 screen the seven snakes of the demonstration do not touch. */
  lemma {:induction false} SetupInv(len: nat, k: nat)
    requires k <= 7 && 0 < len <= 10
    ensures Ready(Setup(25, 80, len, k), k)
  {
    if k > 0 {
      SetupInv(len, k - 1);
      OneMore(Setup(25, 80, len, k - 1), k - 1, len);
    }
  }
}
