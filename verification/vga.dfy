/** The text screen as a window on an unbounded log of 80-column rows. */
module Vga {
  import Stdlib

  const ROWS: nat := 25
  const COLS: nat := 80
  const SIZE: nat := 2000
  const BACKSPACE: char := '\U{8}'

  /** The characters of the 25 rows, and the place of the next one. */
  datatype Console = Console(screen: seq<char>, pos: nat)

  /** Every row opened so far, one after the other, and the writing position. */
  datatype Log = Log(cells: seq<char>, at: nat)

  function Blank(n: nat): seq<char> { seq(n, i => ' ') }

  // The log: what printing means.

  function Opened(l: Log): Log { l.(cells := l.cells + Blank(COLS)) }

  /** Opens rows until the writing position is on one. */
  function Reach(l: Log): Log
    decreases l.at - |l.cells|
  {
    if l.at < |l.cells| then l else Reach(Opened(l))
  }

  /** '\n' goes to the start of the next row, '\r' to the start of this one. */
  function Write(l: Log, c: char): (r: Log)
  {
    if c == '\n' then Reach(l.(at := l.at + (COLS - l.at % COLS)))
    else if c == '\r' then l.(at := l.at - l.at % COLS)
    else
      var r := Reach(l);
      if l.at < |r.cells| then Log(r.cells[l.at := c], l.at + 1) else r
  }

  // The console: what the code does.

  function Scrolled(c: Console): Console
    requires |c.screen| == SIZE
  {
    if c.pos < SIZE then c
    else Console(c.screen[COLS..] + Blank(COLS), COLS * (ROWS - 1))
  }

  function Printed(k: Console, c: char): Console
    requires |k.screen| == SIZE && k.pos <= SIZE
  {
    if c == '\n' then Scrolled(k.(pos := k.pos + (COLS - k.pos % COLS)))
    else if c == '\r' then k.(pos := k.pos - k.pos % COLS)
    else
      var k' := Scrolled(k);
      Console(k'.screen[k'.pos := c], k'.pos + 1)
  }

  /** The screen shows the last 25 rows of the log, and writes where the log does. */
  ghost predicate Shows(k: Console, l: Log) {
    && |k.screen| == SIZE && k.pos <= SIZE
    && SIZE <= |l.cells| && |l.cells| % COLS == 0
    && k.screen == l.cells[|l.cells| - SIZE..]
    && l.at == |l.cells| - SIZE + k.pos
  }

  lemma OpenedShows(k: Console, l: Log)
    requires Shows(k, l) && k.pos == SIZE
    ensures Shows(Scrolled(k), Opened(l)) && Scrolled(k).pos == COLS * (ROWS - 1)
    ensures Reach(l) == Opened(l)
  {
    var l' := Opened(l);
    assert l'.cells[|l'.cells| - SIZE..] == l.cells[|l.cells| - SIZE..][COLS..] + Blank(COLS);
  }

  lemma ColumnOf(k: Console, l: Log)
    requires Shows(k, l)
    ensures k.pos % COLS == l.at % COLS
  {
    var rows := |l.cells| / COLS;
    assert l.at == COLS * (rows - ROWS) + k.pos;
  }

  /** The last cell of the screen has just been written, and there is something to
      see below the first row. */
  predicate Brimful(k: Console)
    requires |k.screen| == SIZE
  {
    k.pos == SIZE && k.screen[COLS..] != Blank(SIZE - COLS)
  }

  /** Scrolling by one row or by two makes no difference only to blank rows. */
  lemma TwoRows(s: seq<char>)
    requires |s| == SIZE
    ensures s[COLS..] + Blank(COLS) == s[2 * COLS..] + Blank(2 * COLS) <==> s[COLS..] == Blank(SIZE - COLS)
  {
    var one, two := s[COLS..] + Blank(COLS), s[2 * COLS..] + Blank(2 * COLS);
    if one == two {
      forall i | COLS <= i < SIZE ensures s[i] == ' ' {
        BlankFrom(s, i);
      }
      assert s[COLS..] == Blank(SIZE - COLS);
    }
    if s[COLS..] == Blank(SIZE - COLS) {
      forall i | 0 <= i < SIZE ensures one[i] == two[i] {
        if i < SIZE - COLS { assert s[COLS..][i] == ' '; }
        if i < SIZE - 2 * COLS { assert s[COLS..][i + COLS] == ' '; }
      }
    }
  }

  lemma BlankFrom(s: seq<char>, i: int)
    requires |s| == SIZE && COLS <= i < SIZE
    requires s[COLS..] + Blank(COLS) == s[2 * COLS..] + Blank(2 * COLS)
    ensures s[i] == ' '
    decreases SIZE - i
  {
    var one, two := s[COLS..] + Blank(COLS), s[2 * COLS..] + Blank(2 * COLS);
    assert one[i - COLS] == s[i] && one[i - COLS] == two[i - COLS];
    if i + COLS < SIZE {
      assert two[i - COLS] == s[i + COLS];
      BlankFrom(s, i + COLS);
    }
  }

  lemma NewlineFits(k: Console, l: Log)
    requires Shows(k, l) && k.pos < SIZE
    ensures Shows(Printed(k, '\n'), Write(l, '\n'))
  {
    ColumnOf(k, l);
    var k1, l1 := k.(pos := k.pos + (COLS - k.pos % COLS)), l.(at := l.at + (COLS - l.at % COLS));
    assert Shows(k1, l1);
    if k1.pos == SIZE { OpenedShows(k1, l1); }
  }

  lemma TwoOpened(k: Console, l: Log)
    requires Shows(k, l) && k.pos == SIZE
    ensures Write(l, '\n') == Log(l.cells + Blank(2 * COLS), |l.cells| + COLS)
    ensures (l.cells + Blank(2 * COLS))[|l.cells| + 2 * COLS - SIZE..] == k.screen[2 * COLS..] + Blank(2 * COLS)
  {
    ColumnOf(k, l);
    var l1 := l.(at := |l.cells| + COLS);
    assert Reach(l1) == Reach(Opened(l1)) == Reach(Opened(Opened(l1))) == Opened(Opened(l1));
    assert Blank(COLS) + Blank(COLS) == Blank(2 * COLS);
    assert Opened(Opened(l1)).cells == l.cells + Blank(2 * COLS);
  }

  /** A newline right after the last cell makes the log open two rows, but the
      screen scrolls by one. */
  lemma NewlineShows(k: Console, l: Log)
    requires Shows(k, l)
    ensures Shows(Printed(k, '\n'), Write(l, '\n')) <==> !Brimful(k)
  {
    if k.pos < SIZE {
      NewlineFits(k, l);
    } else {
      TwoOpened(k, l);
      TwoRows(k.screen);
    }
  }

  lemma PrintShows(k: Console, l: Log, c: char)
    requires Shows(k, l)
    ensures Shows(Printed(k, c), Write(l, c)) <==> !(c == '\n' && Brimful(k))
  {
    ColumnOf(k, l);
    if c == '\n' {
      NewlineShows(k, l);
    } else if c != '\r' {
      if k.pos == SIZE { OpenedShows(k, l); }
      var k1, l1 := Scrolled(k), Reach(l);
      assert Shows(k1, l1) && k1.pos < SIZE;
      var l2 := Write(l, c);
      assert l2.cells[|l2.cells| - SIZE..] == l1.cells[|l1.cells| - SIZE..][k1.pos := c];
    }
  }

  // Streams.

  function Cleared(): Console { Console(Blank(SIZE), 0) }

  function NewLog(): Log { Log(Blank(SIZE), 0) }

  function PrintedAll(cs: seq<char>): (k: Console)
    ensures |k.screen| == SIZE && k.pos <= SIZE
  {
    if cs == [] then Cleared() else Printed(PrintedAll(cs[..|cs| - 1]), cs[|cs| - 1])
  }

  function WriteAll(cs: seq<char>): Log {
    if cs == [] then NewLog() else Write(WriteAll(cs[..|cs| - 1]), cs[|cs| - 1])
  }

  /** The first k characters leave the screen brimful and a newline follows. */
  predicate Swallows(cs: seq<char>, k: nat)
    requires k < |cs|
  {
    cs[k] == '\n' && Brimful(PrintedAll(cs[..k]))
  }

  lemma {:induction false} ShowsPrefix(cs: seq<char>)
    requires forall k | 0 <= k < |cs| :: !Swallows(cs, k)
    ensures Shows(PrintedAll(cs), WriteAll(cs))
  {
    if cs == [] {
      assert Blank(SIZE)[0..] == Blank(SIZE);
    } else {
      var init := cs[..|cs| - 1];
      forall k | 0 <= k < |init| ensures !Swallows(init, k) {
        assert init[..k] == cs[..k];
        assert !Swallows(cs, k);
      }
      ShowsPrefix(init);
      assert !Swallows(cs, |cs| - 1);
      PrintShows(PrintedAll(init), WriteAll(init), cs[|cs| - 1]);
    }
  }

  /** The screen is a window on the log all along the stream if and only if no
      newline comes right after the last cell, unless there is nothing to see. */
  lemma ScreenIsWindow(cs: seq<char>)
    ensures (forall k | 0 <= k <= |cs| :: Shows(PrintedAll(cs[..k]), WriteAll(cs[..k])))
            <==> forall k | 0 <= k < |cs| :: !Swallows(cs, k)
  {
    if k0 :| 0 <= k0 < |cs| && Swallows(cs, k0) {
      assert cs[..k0 + 1][..k0] == cs[..k0];
      if Shows(PrintedAll(cs[..k0]), WriteAll(cs[..k0])) {
        PrintShows(PrintedAll(cs[..k0]), WriteAll(cs[..k0]), cs[k0]);
        assert !Shows(PrintedAll(cs[..k0 + 1]), WriteAll(cs[..k0 + 1]));
      }
    } else {
      forall k | 0 <= k <= |cs| ensures Shows(PrintedAll(cs[..k]), WriteAll(cs[..k])) {
        forall j | 0 <= j < k ensures !Swallows(cs[..k], j) {
          assert cs[..k][..j] == cs[..j];
          assert !Swallows(cs, j);
        }
        ShowsPrefix(cs[..k]);
      }
    }
  }

  class VgaConsole {
    const screen: array<char>
    var pos: nat

    ghost predicate Valid()
      reads this
    {
      screen.Length == SIZE && pos <= SIZE
    }

    ghost function State(): Console
      reads this, screen
    {
      Console(screen[..], pos)
    }

    constructor ()
      ensures Valid() && fresh(screen)
    {
      screen := new char[SIZE];
      pos := 0;
    }

    method Scroll() returns (scrolled: bool)
      requires screen.Length == SIZE
      modifies this, screen
      ensures State() == Scrolled(old(State())) && scrolled == (old(pos) >= SIZE)
    {
      if pos < COLS * ROWS {
        return false;
      }
      ghost var before := screen[..];
      Stdlib.Memcpy(screen, 0, COLS, COLS * (ROWS - 1));
      ghost var moved := screen[..];
      pos := COLS * (ROWS - 1);
      FrontMoved(before);
      ClearRow(pos);
      assert moved[pos + COLS..] == [];
      assert screen[..] == before[COLS..] + Blank(COLS) + [];
      return true;
    }

    /** Moving everything one row up. */
    static lemma FrontMoved(m: seq<char>)
      requires |m| == SIZE
      ensures Stdlib.Moved(m, 0, COLS, COLS * (ROWS - 1))[..COLS * (ROWS - 1)] == m[COLS..]
    {
      var n := COLS * (ROWS - 1);
      assert Stdlib.Moved(m, 0, COLS, n) == m[COLS..COLS + n] + m[n..];
    }

    /** The loop at the end of Scroll. */
    method ClearRow(from: nat)
      requires from + COLS <= screen.Length
      modifies screen
      ensures screen[..] == old(screen[..from]) + Blank(COLS) + old(screen[from + COLS..])
    {
      var i := from;
      while i < from + COLS
        invariant from <= i <= from + COLS
        invariant forall j :: 0 <= j < screen.Length ==>
                    screen[j] == if from <= j < i then ' ' else old(screen[j])
      {
        screen[i] := ' ';
        i := i + 1;
      }
    }

    method PrintChar(c: char)
      requires Valid() && c != BACKSPACE && c != '\t'
      modifies this, screen
      ensures Valid() && State() == Printed(old(State()), c)
    {
      if c == '\n' {
        pos := pos + (COLS - pos % COLS);
        var _ := Scroll();
      } else if c == '\r' {
        pos := pos - pos % COLS;
      } else {
        var _ := Scroll();
        screen[pos] := c;
        pos := pos + 1;
      }
    }

    method Clear()
      requires Valid()
      modifies this, screen
      ensures Valid() && State() == Cleared()
    {
      var i := 0;
      while i < ROWS * COLS
        invariant 0 <= i <= SIZE && screen[..i] == Blank(i)
      {
        screen[i] := ' ';
        assert screen[..i + 1] == screen[..i] + [' '];
        i := i + 1;
      }
      assert screen[..] == screen[..i];
      pos := 0;
    }

    /** Printing a stream on a cleared screen. */
    method PrintAll(cs: seq<char>)
      requires Valid() && forall i :: 0 <= i < |cs| ==> cs[i] != BACKSPACE && cs[i] != '\t'
      modifies this, screen
      ensures Valid() && State() == PrintedAll(cs)
    {
      Clear();
      var i := 0;
      while i < |cs|
        invariant 0 <= i <= |cs| && Valid() && State() == PrintedAll(cs[..i])
      {
        PrintChar(cs[i]);
        assert cs[..i + 1][..i] == cs[..i];
        i := i + 1;
      }
      assert cs[..i] == cs;
    }
  }
}
