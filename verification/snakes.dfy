/** The snakes as the program moves them: bodies updated in place, a linked list of
    all the snakes, the search loop with its array of dead ends. */
module Snakes {
  import opened SnakeSearch
  import opened SnakeSpec
  import opened SnakeRuns

  class SnakeNode {
    var dir: int
    const body: array<Point>
    var others: SnakeNode?

    constructor (dir: int, body: array<Point>)
      ensures this.dir == dir && this.body == body && others == null
    {
      this.dir, this.body, others := dir, body, null;
    }
  }

  class Arena {
    const rows: int
    const cols: int
    var allsnakes: SnakeNode?
    var food: Point
    var seed: int
    ghost var chain: seq<SnakeNode>       // the linked list
    ghost var bodies: set<array<Point>>   // its arrays
    ghost var snakes: seq<Snake>          // its contents

    ghost predicate Node(i: nat)
      requires i < |chain| && i < |snakes|
      reads this, chain, bodies
    {
      && chain[i].others == (if i + 1 < |chain| then chain[i + 1] else null)
      && chain[i].body in bodies && chain[i].body.Length > 0
      && chain[i].dir == snakes[i].dir && 0 <= snakes[i].dir < 8
      && chain[i].body[..] == snakes[i].body
    }

    ghost predicate Valid()
      reads this, chain, bodies
    {
      && allsnakes == (if chain == [] then null else chain[0])
      && |snakes| == |chain|
      && (forall i :: 0 <= i < |chain| ==> Node(i))
      && (forall i, j :: 0 <= i < j < |chain| ==> chain[i] != chain[j])
      && (forall i, j :: 0 <= i < j < |chain| ==> chain[i].body != chain[j].body)
    }

    ghost function View(): World
      reads this
    {
      World(rows, cols, snakes, food, seed)
    }

    constructor (rows: int, cols: int)
      ensures Valid() && View() == World(rows, cols, [], Point(-1, -1), 1) && chain == [] && bodies == {}
    {
      this.rows, this.cols := rows, cols;
      allsnakes, food, seed := null, Point(-1, -1), 1;
      chain, bodies, snakes := [], {}, [];
    }

    /** Looks at every segment of every snake on the list. */
    method Obstruct(p: Point) returns (ret: bool)
      requires Valid()
      ensures ret <==> !(0 <= p.x < cols && 0 <= p.y < rows)
                       || exists i :: 0 <= i < |chain| && p in chain[i].body[..]
      ensures ret == Obstructed(View(), p)
    {
      forall i | 0 <= i < |chain| ensures chain[i].body[..] == snakes[i].body { assert Node(i); }
      if p.x >= cols || p.x < 0 || p.y >= rows || p.y < 0 {
        return true;
      }
      ret := false;
      var s := allsnakes;
      ghost var i := 0;
      while s != null && !ret
        invariant 0 <= i <= |chain|
        invariant s == (if i < |chain| then chain[i] else null)
        invariant ret ==> Obstructed(View(), p)
        invariant !ret ==> forall k :: 0 <= k < i ==> p !in snakes[k].body
        decreases |chain| - i, !ret
      {
        assert Node(i);
        var j := 0;
        while j < s.body.Length
          invariant 0 <= j <= s.body.Length && !ret && p !in s.body[..j]
        {
          if p == s.body[j] {
            ret := true;
            assert s.body[j] in s.body[..];
            break;
          }
          j := j + 1;
        }
        if !ret { assert s.body[..j] == s.body[..]; }
        s := s.others;
        i := i + 1;
      }
    }

    method Rand() returns (r: int)
      modifies this`seed
      ensures r == seed && Drawn(old(seed), 1, seed)
    {
      ghost var seed0 := seed;
      seed := SnakeSearch.Rand(seed);
      assert RandAfter(seed0, 1) == SnakeSearch.Rand(RandAfter(seed0, 0));
      return seed;
    }

    /** Slides every segment to the place of the one before it. */
    static method Shift(s: SnakeNode, newhead: Point)
      requires s.body.Length > 0
      modifies s.body
      ensures s.body[..] == [newhead] + old(s.body[..s.body.Length - 1])
    {
      var i := s.body.Length - 1;
      while i != 0
        invariant 0 <= i < s.body.Length
        invariant s.body[..i + 1] == old(s.body[..i + 1])
        invariant s.body[i + 1..] == old(s.body[i..s.body.Length - 1])
      {
        s.body[i] := s.body[i - 1];
        i := i - 1;
      }
      s.body[0] := newhead;
    }

    /** Draws the next direction to try, for the k-th snake. */
    method Redirect(s: SnakeNode, ghost k: nat)
      requires Valid() && k < |chain| && s == chain[k]
      modifies this`seed, this`snakes, s`dir
      ensures Valid() && Drawn(old(seed), 1, seed) && s.dir == seed % 8
      ensures snakes == old(snakes)[k := Snake(s.dir, old(snakes)[k].body)]
    {
      assert Node(k);
      var r := Rand();
      s.dir := r % NUMDIRS;
      snakes := snakes[k := Snake(s.dir, snakes[k].body)];
      forall i | 0 <= i < |chain| ensures Node(i) {
        assert old(Node(i));
      }
    }

    static method Exhausted(deadends: seq<bool>) returns (alldead: bool)
      requires |deadends| == 8
      ensures alldead <==> forall d | 0 <= d < 8 :: deadends[d]
    {
      alldead := true;
      var i := 0;
      while i < NUMDIRS
        invariant 0 <= i <= 8
        invariant alldead <==> forall d | 0 <= d < i :: deadends[d]
      {
        if !deadends[i] {
          alldead := false;
        }
        i := i + 1;
      }
    }

    /** One turn of the search loop: the next direction, where it leads, and whether
        all directions are marked by now. */
    method Turn(s: SnakeNode, ghost k: nat, ghost w: World, deadends: seq<bool>)
      returns (newhead: Point, alldead: bool, ob: bool)
      requires Valid() && k < |chain| && s == chain[k] && Node(k) && |deadends| == 8
      requires k < |w.snakes| && View() == w.(snakes := w.snakes[k := Snake(s.dir, w.snakes[k].body)], seed := seed)
      modifies this`seed, this`snakes, s`dir
      ensures Valid() && Drawn(old(seed), 1, seed) && s.dir == seed % 8
      ensures View() == w.(snakes := w.snakes[k := Snake(s.dir, w.snakes[k].body)], seed := seed)
      ensures newhead == Ahead(s.body[0], s.dir) && ob == Obstructed(w, newhead)
      ensures alldead <==> forall d | 0 <= d < 8 :: deadends[d]
    {
      hide Drawn;
      Redirect(s, k);
      newhead := Ahead(s.body[0], s.dir);
      alldead := Exhausted(deadends);
      ob := Obstruct(newhead);
      SameObstructed(w, View(), k, newhead);
    }

    /** The search loop: newhead is where the snake goes, or its own head. */
    method Search(s: SnakeNode, ghost k: nat) returns (newhead: Point)
      requires Valid() && k < |chain| && s == chain[k] && Node(k)
      modifies this`seed, this`snakes, s`dir
      ensures Valid() && snakes == old(snakes)[k := Snake(s.dir, old(snakes)[k].body)]
      ensures s.body.Length > 0
      ensures var own, l := old(s.dir), old(seed) % 8;
              var n := Turns(Blocked(old(View()), s.body[0]), own, l, 0);
              && s.dir == Tried(own, l, n) && Drawn(old(seed), n, seed)
              && newhead == if AllDead(own, l, n) then s.body[0] else Ahead(s.body[0], s.dir)
    {
      hide Drawn;
      assert Node(k);
      ghost var own, seed0, l, w, n := s.dir, seed, seed % 8, View(), 0;
      var head := s.body[0];
      ghost var blocked := Blocked(w, head);
      var deadends := [false, false, false, false, false, false, false, false];
      var alldead := false;
      newhead := Ahead(head, s.dir);
      var ob := Obstruct(newhead);
      DeadExact(own, l, 0);
      DrawnNone(seed0);
      while ob && !alldead
        invariant Valid() && n <= 9
        invariant View() == w.(snakes := w.snakes[k := Snake(s.dir, w.snakes[k].body)], seed := seed)
        invariant Tracks(own, l, n, s.dir, deadends, alldead) && Drawn(seed0, n, seed)
        invariant newhead == Ahead(head, s.dir) && ob == Obstructed(w, newhead)
        invariant Turns(blocked, own, l, n) == Turns(blocked, own, l, 0)
        decreases 9 - n
      {
        assert Node(k);
        DeadExact(own, l, n);
        deadends := deadends[s.dir := true];
        ghost var dir, before := s.dir, seed;
        newhead, alldead, ob := Turn(s, k, w, deadends);
        DrawnNext(seed0, n, before, seed);
        TracksNext(own, l, n, dir, deadends, alldead);
        n := n + 1;
      }
      if alldead {
        newhead := head;
      }
    }

    /** Moves the k-th snake's body under its new head. */
    method Advance(s: SnakeNode, newhead: Point, ghost k: nat)
      requires Valid() && k < |chain| && s == chain[k] && Node(k)
      modifies this`snakes, s.body
      ensures Valid()
      ensures snakes == old(snakes)[k := Snake(s.dir, [newhead] + old(snakes)[k].body[..|old(snakes)[k].body| - 1])]
    {
      assert s.body[..s.body.Length - 1] == snakes[k].body[..|snakes[k].body| - 1];
      Shift(s, newhead);
      snakes := snakes[k := Snake(s.dir, [newhead] + snakes[k].body[..|snakes[k].body| - 1])];
      forall i | 0 <= i < |chain| ensures Node(i) {
        assert old(Node(i));
        assert i != k ==> chain[i].body != s.body;
      }
    }

    method MoveSnake(s: SnakeNode, ghost k: nat)
      requires Valid() && k < |chain| && s == chain[k] && Node(k)
      modifies this`seed, this`snakes, s`dir, s.body
      ensures Valid() && View() == MoveFrom(old(View()), k, old(snakes)[k].dir)
    {
      var newhead := Search(s, k);
      ghost var n := Turns(Blocked(old(View()), old(s.body[0])), old(s.dir), old(seed) % 8, 0);
      assert Node(k);
      Advance(s, newhead, k);
    }

    /** Turns the k-th snake towards the food. */
    method Aim(s: SnakeNode, ghost k: nat)
      requires Valid() && k < |chain| && s == chain[k] && Node(k)
      modifies this`snakes, s`dir
      ensures Valid() && Node(k)
      ensures snakes ==
              old(snakes)[k := Snake(SnakeSpec.FoodDirection(food, old(snakes)[k].body[0]), old(snakes)[k].body)]
    {
      s.dir := FoodDirection(s.body[0].x, s.body[0].y);
      snakes := snakes[k := Snake(s.dir, snakes[k].body)];
      forall i | 0 <= i < |chain| ensures Node(i) { assert old(Node(i)); }
    }

    /** After taking aim a hungry snake moves by the same search as any other. */
    method MoveHungrySnake(s: SnakeNode, ghost k: nat)
      requires Valid() && k < |chain| && s == chain[k] && Node(k)
      modifies this`seed, this`snakes, s`dir, s.body
      ensures Valid() && View() == MoveFrom(old(View()), k, SnakeSpec.FoodDirection(food, old(snakes)[k].body[0]))
    {
      Aim(s, k);
      SameMove(old(View()), View(), k);
      MoveSnake(s, k);
    }

    function FoodDirection(x: int, y: int): (d: int)
      reads this
      ensures d == SnakeSpec.FoodDirection(food, Point(x, y))
    {
      var dx := if food.x > x then 1 else if food.x < x then -1 else 0;
      var dy := if food.y > y then 1 else if food.y < y then -1 else 0;
      DELTA_TO_DIR[dy + 1][dx + 1]
    }

    /** Lays a body of len segments out backwards from its head, at y and x. */
    method Lay(y: int, x: int, len: nat, dir: int) returns (body: array<Point>)
      requires 0 <= dir < 8
      ensures fresh(body) && body[..] == Coil(View(), Point(x, y), dir, len)
    {
      body := new Point[len];
      var y', x' := y, x;
      ghost var w := View();
      ghost var coil := Coil(w, Point(x, y), dir, len);
      var i := 0;
      CoilLength(w, Point(x, y), dir, len);
      while i < len
        invariant 0 <= i <= len
        invariant coil == body[..i] + Coil(w, Point(x', y'), dir, len - i)
      {
        ghost var rest := Coil(w, Point(x', y'), dir, len - i);
        body[i] := Point(x', y');
        x' := x' - DELTA_X[dir];
        y' := y' - DELTA_Y[dir];
        y' := Limit(y', 0, rows - 1);
        x' := Limit(x', 0, cols - 1);
        assert rest == [body[i]] + Coil(w, Point(x', y'), dir, len - (i + 1));
        assert body[..i + 1] == body[..i] + [body[i]];
        i := i + 1;
      }
      assert body[..] == body[..i];
    }

    /** Clamps the head to the screen and puts the new snake first on the list. */
    method NewSnake(y: int, x: int, len: nat, dir: int) returns (s: SnakeNode)
      requires Valid() && 0 <= dir < 8 && len > 0
      modifies this`allsnakes, this`chain, this`bodies, this`snakes
      ensures Valid() && fresh(s) && fresh(s.body) && chain == [s] + old(chain)
      ensures View() == Grown(old(View()), y, x, len, dir)
    {
      var body := Lay(Limit(y, 0, rows - 1), Limit(x, 0, cols - 1), len, dir);
      CoilLength(View(), Clamp(View(), Point(x, y)), dir, len);
      s := new SnakeNode(dir, body);
      s.others := allsnakes;
      allsnakes := s;
      chain, bodies, snakes := [s] + chain, bodies + {body}, [Snake(dir, body[..])] + snakes;
      forall j | 0 <= j < |chain| ensures Node(j) {
        if j > 0 { assert old(Node(j - 1)); }
      }
    }

    /** Takes the k-th snake off the list. */
    method FreeSnake(s: SnakeNode, ghost k: nat)
      requires Valid() && k < |chain| && s == chain[k] && Node(k)
      modifies this`allsnakes, this`chain, this`snakes, chain
      ensures Valid() && chain == old(chain)[..k] + old(chain)[k + 1..]
      ensures View() == Removed(old(View()), k)
    {
      if s == allsnakes {
        assert k == 0;
        allsnakes := allsnakes.others;
      } else {
        Unhook(s, k);
      }
      forall i | 0 <= i < |chain| && i != k ensures NodeBut(i, k) { assert old(Node(i)); }
      Forget(k);
    }

    /** The i-th snake, when the k-th has been taken off the list. */
    ghost predicate NodeBut(i: nat, k: nat)
      requires i < |chain| && i < |snakes|
      reads this, chain, bodies
    {
      && chain[i].others ==
         (var j := if i + 1 == k then i + 2 else i + 1; if j < |chain| then chain[j] else null)
      && chain[i].body in bodies && chain[i].body.Length > 0
      && chain[i].dir == snakes[i].dir && 0 <= snakes[i].dir < 8
      && chain[i].body[..] == snakes[i].body
    }

    ghost method Forget(k: nat)
      requires k < |chain| == |snakes| && forall i | 0 <= i < |chain| && i != k :: NodeBut(i, k)
      requires forall i, j :: 0 <= i < j < |chain| ==> chain[i] != chain[j] && chain[i].body != chain[j].body
      requires allsnakes == (var j := if k == 0 then 1 else 0; if j < |chain| then chain[j] else null)
      modifies this`chain, this`snakes
      ensures Valid() && chain == old(chain)[..k] + old(chain)[k + 1..]
      ensures snakes == old(snakes)[..k] + old(snakes)[k + 1..]
    {
      chain, snakes := chain[..k] + chain[k + 1..], snakes[..k] + snakes[k + 1..];
      forall i | 0 <= i < |chain| ensures Node(i) {
        assert old(NodeBut(if i < k then i else i + 1, k));
      }
    }

    /** Finds the snake before the k-th and lets it skip that one. */
    method Unhook(s: SnakeNode, ghost k: nat)
      requires Valid() && 0 < k < |chain| && s == chain[k]
      modifies chain
      ensures chain[k - 1].others == (if k + 1 < |chain| then chain[k + 1] else null)
      ensures forall i | 0 <= i < |chain| ::
                && chain[i].dir == old(chain[i].dir)
                && (i != k - 1 ==> chain[i].others == old(chain[i].others))
    {
      var sp := allsnakes;
      ghost var i := 0;
      assert Node(0) && Node(k);
      while s != sp.others
        invariant 0 <= i < k && sp == chain[i] && Node(i)
        decreases k - i
      {
        assert Node(i + 1);
        sp := sp.others;
        i := i + 1;
      }
      assert i == k - 1;
      sp.others := sp.others.others;
    }
  }

  /** Only a direction differs. */
  lemma SameObstructed(w: World, w': World, k: nat, p: Point)
    requires k < |w.snakes| == |w'.snakes| && w'.rows == w.rows && w'.cols == w.cols
    requires w'.snakes == w.snakes[k := Snake(w'.snakes[k].dir, w.snakes[k].body)]
    ensures Obstructed(w', p) == Obstructed(w, p)
  {
    assert forall i :: 0 <= i < |w.snakes| ==> w'.snakes[i].body == w.snakes[i].body;
  }

  lemma SameBlocked(w: World, w': World, k: nat, p: Point)
    requires k < |w.snakes| == |w'.snakes| && w'.rows == w.rows && w'.cols == w.cols
    requires w'.snakes == w.snakes[k := Snake(w'.snakes[k].dir, w.snakes[k].body)]
    ensures Blocked(w', p) == Blocked(w, p)
  {
    forall d | 0 <= d < 8 ensures Blocked(w', p)[d] == Blocked(w, p)[d] {
      SameObstructed(w, w', k, Ahead(p, d));
    }
  }

  /** A move depends on the direction it is given, not on the snake's own. */
  lemma SameMove(w: World, w': World, k: nat)
    requires k < |w.snakes| == |w'.snakes| && w.snakes[k].body != [] && 0 <= w'.snakes[k].dir < 8
    requires w' == w.(snakes := w.snakes[k := Snake(w'.snakes[k].dir, w.snakes[k].body)])
    ensures MoveFrom(w', k, w'.snakes[k].dir) == MoveFrom(w, k, w'.snakes[k].dir)
  {
    SameBlocked(w, w', k, w.snakes[k].body[0]);
  }

  lemma {:induction false} CoilLength(w: World, p: Point, dir: int, len: nat)
    requires 0 <= dir < 8
    ensures |Coil(w, p, dir, len)| == len
    decreases len
  {
    if len > 0 { CoilLength(w, Clamp(w, Point(p.x - DELTA_X[dir], p.y - DELTA_Y[dir])), dir, len - 1); }
  }

  /** seed is what rand makes of seed0 in n calls. */
  ghost predicate Drawn(seed0: int, n: nat, seed: int) {
    seed == RandAfter(seed0, n)
  }

  lemma DrawnNone(seed: int)
    ensures Drawn(seed, 0, seed)
  {}

  lemma DrawnNext(seed0: int, n: nat, seed: int, next: int)
    requires Drawn(seed0, n, seed) && Drawn(seed, 1, next)
    ensures Drawn(seed0, n + 1, next) && next % 8 == LowAfter(seed0 % 8, n + 1)
  {
    assert RandAfter(seed, 1) == SnakeSearch.Rand(RandAfter(seed, 0));
    RandAfterLow(seed0, n + 1);
  }

  /** The loop's variables after n turns; l is the low bits of the first seed. */
  ghost predicate Tracks(own: int, l: int, n: nat, dir: int, deadends: seq<bool>, alldead: bool) {
    && 0 <= own < 8 && dir == Tried(own, l, n) && 0 <= dir < 8
    && |deadends| == 8 && (forall d | 0 <= d < 8 :: deadends[d] <==> d in Marked(own, l, n))
    && alldead == AllDead(own, l, n)
  }

  lemma TracksNext(own: int, l: int, n: nat, dir: int, deadends: seq<bool>, alldead: bool)
    requires |deadends| == 8 && 0 <= dir < 8 && dir == Tried(own, l, n) && 0 <= own < 8
    requires forall d | 0 <= d < 8 :: deadends[d] <==> d in Marked(own, l, n) || d == dir
    requires alldead <==> forall d | 0 <= d < 8 :: deadends[d]
    ensures Tracks(own, l, n + 1, LowAfter(l, n + 1), deadends, alldead)
  {
    MarkedNext(own, l, n + 1);
    var m := Marked(own, l, n + 1);
    assert forall d | 0 <= d < 8 :: deadends[d] <==> d in m;
  }

  /** One more turn marks the direction it leaves. */
  lemma MarkedNext(own: int, l: int, n: nat)
    requires n > 0
    ensures forall d :: d in Marked(own, l, n) <==> d in Marked(own, l, n - 1) || d == Tried(own, l, n - 1)
  {
    forall d ensures d in Marked(own, l, n) <==> d in Marked(own, l, n - 1) || d == Tried(own, l, n - 1) {
      if d in Marked(own, l, n) {
        var j: nat :| 0 <= j < n && Tried(own, l, j) == d;
      }
    }
  }
}
