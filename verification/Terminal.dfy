/** The character-cell terminal that the curses library drives: its screen, its
    cursor, its scrolling region, and what each capability string does to them.

    The interpreter is deliberately pessimistic.  A motion that leaves the screen
    makes the cursor position unknown, a command whose effect on the screen depends
    on an unknown cursor makes the whole terminal `Garbled`, and setting the
    scrolling region leaves the cursor unknown.  One thing is taken for granted, as
    the library does: rows that scroll in, and a screen that is cleared, are plain
    blanks in standout mode too.  Before it clears to the end of a line the library
    leaves standout, so that this is not taken for granted there. */
module Terminal {

  /** One character position.  `standout` is the only attribute bit the library sets. */
  datatype Cell = Cell(ch: char, standout: bool)

  const BLANK := Cell(' ', false)

  const HARDTABS := 8

  datatype Cmd =
    | Home | LowerLeft | Return | LineFeed | Left | Up | Tab | Right
    | Put(ch: char)
    | Goto(y: int, x: int)
    | SetRegion(first: int, end: int)
    | ScrollUp(n: int) | ScrollDown(n: int)
    | DeleteLines(n: int) | InsertLines(n: int)
    | ClearEol | ClearScreen | StandoutOn | StandoutOff | Underline

  datatype Position = At(y: int, x: int) | Unknown

  /** `crlf`: a line feed also returns the cursor to column 0.
      `wraps`: printing in the last column may move the cursor to the next line.
      `mishaps` counts what the library takes no notice of: the line feeds that met the
      cursor on the last line of the region, and the command that garbled the terminal. */
  datatype Term =
    | Garbled(mishaps: nat)
    | Term(rows: seq<seq<Cell>>, cols: nat, pos: Position,
           first: int, end: int, standout: bool, crlf: bool, wraps: bool, mishaps: nat)

  ghost predicate Sound(t: Term) {
    && t.Term?
    && 0 < |t.rows| && 0 < t.cols
    && (forall r :: 0 <= r < |t.rows| ==> |t.rows[r]| == t.cols)
    && 0 <= t.first < t.end <= |t.rows|
    && (t.pos.At? ==> 0 <= t.pos.y < |t.rows| && 0 <= t.pos.x < t.cols)
  }

  function BlankRow(cols: nat): (r: seq<Cell>)
    ensures |r| == cols
  {
    seq(cols, _ => BLANK)
  }

  /** Rows [lo, hi) move up by n, blank rows enter at the bottom of the range. */
  function ShiftUp(rows: seq<seq<Cell>>, cols: nat, lo: int, hi: int, n: int): (r: seq<seq<Cell>>)
    requires 0 <= lo <= hi <= |rows| && 0 <= n
    ensures |r| == |rows|
  {
    seq(|rows|, i requires 0 <= i < |rows| =>
      if i < lo || hi <= i then rows[i]
      else if i + n < hi then rows[i + n]
      else BlankRow(cols))
  }

  /** Rows [lo, hi) move down by n, blank rows enter at the top of the range. */
  function ShiftDown(rows: seq<seq<Cell>>, cols: nat, lo: int, hi: int, n: int): (r: seq<seq<Cell>>)
    requires 0 <= lo <= hi <= |rows| && 0 <= n
    ensures |r| == |rows|
  {
    seq(|rows|, i requires 0 <= i < |rows| =>
      if i < lo || hi <= i then rows[i]
      else if lo <= i - n then rows[i - n]
      else BlankRow(cols))
  }

  function MoveTo(t: Term, y: int, x: int): Term
    requires t.Term?
  {
    if 0 <= y < |t.rows| && 0 <= x < t.cols then t.(pos := At(y, x)) else t.(pos := Unknown)
  }

  /** A command that only moves the cursor, relative to where it is. */
  function MoveBy(t: Term, dy: int, dx: int): Term
    requires t.Term?
  {
    if t.pos.Unknown? then t else MoveTo(t, t.pos.y + dy, t.pos.x + dx)
  }

  function Print(t: Term, ch: char): Term
    requires t.Term?
  {
    if t.pos.Unknown? || !(0 <= t.pos.y < |t.rows|) || !(0 <= t.pos.x < |t.rows[t.pos.y]|) then Garbled(t.mishaps + 1)
    else
      var row := t.rows[t.pos.y][t.pos.x := Cell(ch, t.standout)];
      var t' := t.(rows := t.rows[t.pos.y := row]);
      if t.pos.x + 1 < t.cols then t'.(pos := At(t.pos.y, t.pos.x + 1))
      else if !t.wraps then t'
      else if t.pos.y + 1 < |t.rows| && t.pos.y + 1 != t.end then t'.(pos := Unknown)
      else Garbled(t.mishaps + 1)
  }

  /** Clearing is only relied on outside standout mode. */
  function EraseLine(t: Term): Term
    requires t.Term?
  {
    if t.pos.Unknown? || t.standout || !(0 <= t.pos.y < |t.rows|) || !(0 <= t.pos.x < |t.rows[t.pos.y]|) then Garbled(t.mishaps + 1)
    else
      var row := t.rows[t.pos.y];
      t.(rows := t.rows[t.pos.y := row[..t.pos.x] + BlankRow(|row| - t.pos.x)])
  }

  function Feed(t: Term): Term
    requires t.Term?
  {
    if t.pos.Unknown? || !(0 <= t.first < t.end <= |t.rows|) then Garbled(t.mishaps + 1)
    else
      var x := if t.crlf then 0 else t.pos.x;
      if t.pos.y + 1 == t.end then
        t.(rows := ShiftUp(t.rows, t.cols, t.first, t.end, 1), pos := At(t.pos.y, x), mishaps := t.mishaps + 1)
      else if t.pos.y + 1 < |t.rows| then t.(pos := At(t.pos.y + 1, x))
      else t.(pos := At(t.pos.y, x))
  }

  function Exec(t: Term, c: Cmd): Term {
    if t.Garbled? then t else
    match c
    case Home => MoveTo(t, 0, 0)
    case LowerLeft => MoveTo(t, |t.rows| - 1, 0)
    case Return => if t.pos.Unknown? then t else t.(pos := At(t.pos.y, 0))
    case LineFeed => Feed(t)
    case Left => MoveBy(t, 0, -1)
    case Up => MoveBy(t, -1, 0)
    case Tab => if t.pos.Unknown? then t else MoveBy(t, 0, HARDTABS - t.pos.x % HARDTABS)
    case Right => MoveBy(t, 0, 1)
    case Put(ch) => Print(t, ch)
    case Goto(y, x) => MoveTo(t, y, x)
    case SetRegion(first, end) =>
      if 0 <= first < end <= |t.rows| then t.(first := first, end := end, pos := Unknown) else Garbled(t.mishaps + 1)
    case ScrollUp(n) =>
      // The region scrolls only when the cursor is on its last line.
      if t.pos.At? && t.pos.y == t.end - 1 && 0 <= n && 0 <= t.first < t.end <= |t.rows|
      then t.(rows := ShiftUp(t.rows, t.cols, t.first, t.end, n)) else Garbled(t.mishaps + 1)
    case ScrollDown(n) =>
      if t.pos.At? && t.pos.y == t.first && 0 <= n && 0 <= t.first < t.end <= |t.rows|
      then t.(rows := ShiftDown(t.rows, t.cols, t.first, t.end, n)) else Garbled(t.mishaps + 1)
    case DeleteLines(n) =>
      if t.pos.At? && t.first <= t.pos.y < t.end && 0 <= n && 0 <= t.first && t.end <= |t.rows|
      then t.(rows := ShiftUp(t.rows, t.cols, t.pos.y, t.end, n)) else Garbled(t.mishaps + 1)
    case InsertLines(n) =>
      if t.pos.At? && t.first <= t.pos.y < t.end && 0 <= n && 0 <= t.first && t.end <= |t.rows|
      then t.(rows := ShiftDown(t.rows, t.cols, t.pos.y, t.end, n)) else Garbled(t.mishaps + 1)
    case ClearEol => EraseLine(t)
    case ClearScreen => t.(rows := seq(|t.rows|, _ => BlankRow(t.cols)), pos := if |t.rows| > 0 && t.cols > 0 then At(0, 0) else Unknown)
    case StandoutOn => t.(standout := true)
    case StandoutOff => t.(standout := false)
    case Underline =>
      if t.pos.At? && 0 <= t.pos.y < |t.rows| && 0 <= t.pos.x < |t.rows[t.pos.y]|
      then Print(t.(standout := true), t.rows[t.pos.y][t.pos.x].ch) else Garbled(t.mishaps + 1)
  }

  function Run(t: Term, cs: seq<Cmd>): Term
    decreases |cs|
  {
    if cs == [] then t else Run(Exec(t, cs[0]), cs[1..])
  }

  lemma {:induction false} RunConcat(t: Term, a: seq<Cmd>, b: seq<Cmd>)
    ensures Run(t, a + b) == Run(Run(t, a), b)
    decreases |a|
  {
    if a == [] {
      assert a + b == b;
    } else {
      assert (a + b)[0] == a[0] && (a + b)[1..] == a[1..] + b;
      RunConcat(Exec(t, a[0]), a[1..], b);
    }
  }

  lemma RunOne(t: Term, c: Cmd)
    ensures Run(t, [c]) == Exec(t, c)
  {
    assert [c][1..] == [];
  }

  /** A mishap is not undone. */
  lemma {:induction false} MishapsStay(t: Term, cs: seq<Cmd>)
    ensures Run(t, cs).mishaps >= t.mishaps
    decreases |cs|
  {
    hide Exec;
    if cs != [] {
      MishapsKept(t, cs[0]);
      MishapsStay(Exec(t, cs[0]), cs[1..]);
    }
  }

  lemma MishapsKept(t: Term, c: Cmd)
    ensures Exec(t, c).mishaps >= t.mishaps
  {
  }

  function Repeat(c: Cmd, n: nat): (r: seq<Cmd>)
    ensures |r| == n
  {
    seq(n, _ => c)
  }

  lemma RepeatStep(c: Cmd, n: nat)
    requires 0 < n
    ensures Repeat(c, n) == [c] + Repeat(c, n - 1)
    ensures Repeat(c, n) == Repeat(c, n - 1) + [c]
  {
  }

  lemma RepeatSplit(c: Cmd, m: nat, n: nat)
    ensures Repeat(c, m + n) == Repeat(c, m) + Repeat(c, n)
  {
  }

  /** Shifting one line at a time, n times over, is shifting by n. */
  lemma ShiftUpCompose(rows: seq<seq<Cell>>, cols: nat, lo: int, hi: int, a: nat, b: nat)
    requires 0 <= lo <= hi <= |rows|
    ensures ShiftUp(ShiftUp(rows, cols, lo, hi, a), cols, lo, hi, b) == ShiftUp(rows, cols, lo, hi, a + b)
  {
  }

  lemma ShiftDownCompose(rows: seq<seq<Cell>>, cols: nat, lo: int, hi: int, a: nat, b: nat)
    requires 0 <= lo <= hi <= |rows|
    ensures ShiftDown(ShiftDown(rows, cols, lo, hi, a), cols, lo, hi, b) == ShiftDown(rows, cols, lo, hi, a + b)
  {
  }
}
