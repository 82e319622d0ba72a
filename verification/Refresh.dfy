/** Refreshing the screen (Libcurses/refresh.c): bringing curscr, and with it the
    terminal, into agreement with a full-screen window. */
module Refresh {
  import opened Options
  import opened Terminal
  import opened CursorPlan
  import opened CursorMotion
  import opened Scroll
  import opened WindowText
  import opened Windows
  import opened Quickch

  /** The capabilities refresh.c consults beyond cursor motion and scrolling: the length
      of CE, whether SO, SE and UC exist, and MS. */
  datatype PaintCaps = PaintCaps(ce: Option<nat>, so: bool, se: bool, uc: bool, ms: bool)

  /** The bottom right corner, which is never painted because the screen could scroll. */
  predicate Corner(maxy: int, maxx: int, y: int, x: int) {
    y == maxy - 1 && x == maxx - 1
  }

  /** From `from` up to `upto` the line shows the new cells (the corner of the last line
      aside); elsewhere each cell shows what it did or what the new line does. */
  ghost predicate Painted(new': seq<Cell>, lastLine: bool, was: Line, now: Line, from: int, upto: int) {
    && now == was.(cells := now.cells) && |now.cells| == |was.cells| == |new'|
    && (forall x :: from <= x < upto && 0 <= x < |new'| && !(lastLine && x == |new'| - 1) ==> now.cells[x] == new'[x])
    && (forall x :: 0 <= x < |new'| ==> now.cells[x] == was.cells[x] || now.cells[x] == new'[x])
  }

  /** Rows the output steps down before line wy: one, if the line above was run off. */
  function Below(win: seq<Line>, wy: int): int
    requires 0 <= wy < |win|
  {
    if wy > 0 && win[wy - 1].pastEol then 1 else 0
  }

  /** Nothing is in standout. */
  ghost predicate Unlit(rows: seq<seq<Cell>>) {
    forall y, x :: 0 <= y < |rows| && 0 <= x < |rows[y]| ==> !rows[y][x].standout
  }

  /** Some cell of columns from to last is not what curscr shows. */
  ghost predicate Differs(new': seq<Cell>, was: seq<Cell>, from: int, last: int) {
    exists x :: from <= x <= last && 0 <= x < |new'| && x < |was| && new'[x] != was[x]
  }

  /** Makech has something to paint on a dirty line. */
  ghost predicate NeedsPaint(l: Line, was: seq<Cell>) {
    l.force || Differs(l.cells, was, l.firstch, l.lastch)
  }

  /** What makech has to do on a line: the cells to show, the cells shown, the interval, and
      the length of CE. */
  datatype Job = Job(cells: seq<Cell>, row: seq<Cell>, force: bool, from: int, lch: int, lastLine: bool, ce: Option<nat>)

  /** Column x is to be painted. */
  ghost predicate Wanted(j: Job, x: int) {
    && 0 <= j.from <= x <= j.lch < |j.cells| == |j.row|
    && (j.force || j.cells[x] != j.row[x])
  }

  ghost predicate BlankFrom(cells: seq<Cell>, x: int) {
    forall i :: x <= i < |cells| && 0 <= i ==> cells[i] == BLANK
  }

  /** The last column from `from` to x that is not blank, or the one before `from`. */
  function LastInk(row: seq<Cell>, from: int, x: int): int
    requires 0 <= from && x < |row|
    decreases x - from
  {
    if x < from then from - 1 else if row[x] != BLANK then x else LastInk(row, from, x - 1)
  }

  /** The last column that is not blank, or 0. */
  function LineEnd(cells: seq<Cell>): int {
    if LastInk(cells, 0, |cells| - 1) < 0 then 0 else LastInk(cells, 0, |cells| - 1)
  }

  /** Whether clearing to the end of the line is worth a CE string of length ce.  The original
      compares a signed difference with an unsigned length. */
  predicate WorthClearing(ce: nat, clsp: int, nlsp: int, lastLine: bool) {
    ((clsp - nlsp < 0 || clsp - nlsp >= ce) && 0 <= clsp) || lastLine
  }

  /** From column x on there are only blanks to show, and clearing them is worth it. */
  ghost predicate Clears(j: Job, x: int)
    requires 0 <= x
  {
    j.ce.Some? && BlankFrom(j.cells, x)
    && WorthClearing(j.ce.value, LastInk(j.row, x, |j.row| - 1), LineEnd(j.cells), j.lastLine)
  }

  /** The first column from x on that is to be painted and behind which there are only blanks
      to show. */
  ghost function BlankPoint(j: Job, x: int): (b: int)
    ensures b >= x
    decreases j.lch - x
  {
    if x > j.lch || (Wanted(j, x) && BlankFrom(j.cells, x)) then x else BlankPoint(j, x + 1)
  }

  ghost function LastWanted(j: Job, x: int): (w: int)
    ensures w == -1 || 0 <= w <= x
    decreases x
  {
    if x < 0 then -1 else if Wanted(j, x) then x else LastWanted(j, x - 1)
  }

  /** The column the output is left in behind column x, short of the margin. */
  function Behind(j: Job, x: int): int {
    if x + 1 < |j.cells| then x + 1 else |j.cells| - 1
  }

  /** The column in which the output ends, painting from column x on, if ce says whether
      clearing is still thought of. */
  ghost function EndFrom(j: Job, ce: bool, x: int): int
    requires 0 <= x
  {
    var b := BlankPoint(j, x);
    if ce && b <= j.lch && Clears(j, b) then b else Behind(j, LastWanted(j, j.lch))
  }

  function JobOf(l: Line, row: seq<Cell>, lastLine: bool, ce: Option<nat>): Job {
    Job(l.cells, row, l.force, if l.firstch < 0 then 0 else l.firstch, l.lastch, lastLine, ce)
  }

  /** The column in which the output ends on a line that is painted. */
  ghost function EndColumn(l: Line, row: seq<Cell>, lastLine: bool, ce: Option<nat>): int {
    var j := JobOf(l, row, lastLine, ce);
    EndFrom(j, ce.Some?, j.from)
  }

  /** The hashes of the dirty lines brought up to date. */
  function Rehashed(w: seq<Line>, hashOf: seq<Cell> -> int): (r: seq<Line>)
    ensures |r| == |w|
  {
    seq(|w|, y requires 0 <= y < |w| => if w[y].dirty then w[y].(hash := hashOf(w[y].cells)) else w[y])
  }

  function AllTouched(w: seq<Line>, maxx: int): (r: seq<Line>)
    ensures |r| == |w|
  {
    seq(|w|, y requires 0 <= y < |w| => Touched(w[y], 0, maxx - 1, false))
  }

  /** curscr's lines as far as they are looked at, after a clear: blank, with the old hashes. */
  function Erased(cl: seq<Line>, cols: nat): (r: seq<Line>)
    ensures |r| == |cl|
  {
    seq(|cl|, y requires 0 <= y < |cl| => cl[y].(cells := BlankRow(cols)))
  }

  function DirtyCount(w: seq<Line>): nat {
    if w == [] then 0
    else DirtyCount(w[..|w| - 1]) + if w[|w| - 1].dirty || w[|w| - 1].force then 1 else 0
  }

  /** The row the output is on before the turn of line wy, from row r0 at the start: each
      dirty line takes it to its own row if it is painted, and down if the line above was
      run off. */
  ghost function OutRow(win: seq<Line>, rows: seq<seq<Cell>>, r0: int, wy: int): int
    requires 0 <= wy <= |win| == |rows|
    decreases wy
  {
    if wy == 0 then r0
    else
      var r := OutRow(win, rows, r0, wy - 1);
      if !win[wy - 1].dirty then r
      else if NeedsPaint(win[wy - 1], rows[wy - 1]) then wy - 1
      else r + Below(win, wy - 1)
  }

  /** The column it is in then, from column c0: where a line that is painted ends, the start
      of a row that was only stepped down to. */
  ghost function OutCol(win: seq<Line>, rows: seq<seq<Cell>>, c0: int, ce: Option<nat>, wy: int): int
    requires 0 <= wy <= |win| == |rows|
    decreases wy
  {
    if wy == 0 then c0
    else if win[wy - 1].dirty && NeedsPaint(win[wy - 1], rows[wy - 1]) then
      EndColumn(win[wy - 1], rows[wy - 1], wy == |win|, ce)
    else if win[wy - 1].dirty && Below(win, wy - 1) > 0 then 0
    else OutCol(win, rows, c0, ce, wy - 1)
  }

  /** At the turn of line wy the output steps below the last row. */
  ghost predicate StepsOff(win: seq<Line>, rows: seq<seq<Cell>>, r0: int, wy: int)
    requires 0 <= wy < |win| == |rows|
  {
    win[wy].dirty && OutRow(win, rows, r0, wy) + Below(win, wy) >= |win|
  }

  /** It never does. */
  ghost predicate StaysOnScreen(win: seq<Line>, rows: seq<seq<Cell>>, r0: int)
    requires |win| == |rows|
  {
    forall wy :: 0 <= wy < |win| ==> !StepsOff(win, rows, r0, wy)
  }

  /** The lines of the window and of curscr, curscr's cursor, whether a clear is asked for, and
      whether the terminal is in standout. */
  datatype Snapshot = Snapshot(win: seq<Line>, cur: seq<Line>, cury: int, curx: int, clear: bool, standout: bool)

  // ---------- where painting a line ends ----------

  lemma {:induction false} InkLooksAhead(a: seq<Cell>, b: seq<Cell>, from: int, x: int)
    requires 0 <= from && x < |a| == |b| && forall i :: from <= i < |a| ==> a[i] == b[i]
    ensures LastInk(a, from, x) == LastInk(b, from, x)
    decreases x - from
  {
    if x >= from { InkLooksAhead(a, b, from, x - 1); }
  }

  lemma {:induction false} LastInkMeans(row: seq<Cell>, from: int, x: int)
    requires 0 <= from && x < |row|
    ensures var r := LastInk(row, from, x);
      (x >= from - 1 ==> from - 1 <= r <= x) && (r >= from ==> row[r] != BLANK)
      && forall i :: r < i <= x && from <= i ==> row[i] == BLANK
    decreases x - from
  {
    if x >= from { LastInkMeans(row, from, x - 1); }
  }

  lemma LineEndMeans(cells: seq<Cell>)
    requires cells != []
    ensures 0 <= LineEnd(cells) < |cells|
    ensures forall i :: LineEnd(cells) < i < |cells| ==> cells[i] == BLANK
    ensures LineEnd(cells) > 0 ==> cells[LineEnd(cells)] != BLANK
  {
    LastInkMeans(cells, 0, |cells| - 1);
    hide LastInk;
  }

  /** The test of makech for a blank rest of the line. */
  lemma BlanksBehind(cells: seq<Cell>, x: int)
    requires 0 <= x < |cells|
    ensures BlankFrom(cells, x) <==> x >= LineEnd(cells) && cells[x] == BLANK
  {
    LineEndMeans(cells);
    hide LineEnd;
  }

  /** A column that is painted. */
  lemma EndStep(j: Job, ce: bool, x: int)
    requires Wanted(j, x)
    ensures EndFrom(j, ce, x) ==
      if ce && Clears(j, x) then x else EndFrom(j, ce && !BlankFrom(j.cells, x), x + 1)
    ensures x == |j.cells| - 1 ==> EndFrom(j, false, x + 1) == EndFrom(j, true, x + 1) == x
  {
    if x == |j.cells| - 1 { assert LastWanted(j, j.lch) == x; }
  }

  /** Columns that are not painted. */
  lemma EndSkipsOne(j: Job, ce: bool, x: int)
    requires 0 <= x <= j.lch && !Wanted(j, x)
    ensures EndFrom(j, ce, x + 1) == EndFrom(j, ce, x) && LastWanted(j, x) == LastWanted(j, x - 1)
  {
    hide Clears, Wanted;
  }

  lemma {:induction false} EndSkips(j: Job, ce: bool, x: int, y: int)
    requires 0 <= x <= y <= j.lch + 1 && forall i :: x <= i < y ==> !Wanted(j, i)
    ensures EndFrom(j, ce, y) == EndFrom(j, ce, x) && LastWanted(j, y - 1) == LastWanted(j, x - 1)
    decreases y - x
  {
    hide Clears, Wanted;
    if x < y { EndSkips(j, ce, x, y - 1); EndSkipsOne(j, ce, y - 1); }
  }

  lemma JobIsDone(l: Line, row: seq<Cell>, lastLine: bool, ce: Option<nat>)
    requires 0 <= l.firstch
    ensures NeedsPaint(l, row) <==> l.force || Differs(l.cells, row, l.firstch, l.lastch)
    ensures EndColumn(l, row, lastLine, ce) == EndFrom(JobOf(l, row, lastLine, ce), ce.Some?, l.firstch)
  {
  }

  lemma WantedIsLast(j: Job, x: int)
    requires 0 <= x && Wanted(j, x)
    ensures LastWanted(j, x) == x
  {
  }

  lemma EndAtLast(j: Job, ce: bool)
    requires 0 <= j.lch + 1
    ensures EndFrom(j, ce, j.lch + 1) == Behind(j, LastWanted(j, j.lch))
  {
  }

  /** What the mixed comparison comes to where makech makes it: the cells that a clear would
      blank behind the new line's end are at least as many as CE is long. */
  lemma ClearingIsWorth(j: Job, x: int)
    requires Wanted(j, x) && BlankFrom(j.cells, x) && j.ce.Some?
    ensures Clears(j, x) <==> j.lastLine || LastInk(j.row, x, |j.row| - 1) - LineEnd(j.cells) >= j.ce.value
  {
    LineEndMeans(j.cells);
    LastInkMeans(j.row, x, |j.row| - 1);
    hide LineEnd, LastInk;
  }

  lemma {:induction false} LastWantedIs(j: Job, w: int, x: int)
    requires 0 <= w <= x && Wanted(j, w) && forall i :: w < i <= x ==> !Wanted(j, i)
    ensures LastWanted(j, x) == w
    decreases x
  {
    if w < x { LastWantedIs(j, w, x - 1); }
  }

  lemma {:induction false} BlankPointIs(j: Job, x: int, b: int)
    requires 0 <= x <= b <= j.lch + 1 && (b <= j.lch ==> Wanted(j, b) && BlankFrom(j.cells, b))
    requires forall i :: x <= i < b && Wanted(j, i) ==> !BlankFrom(j.cells, i)
    ensures BlankPoint(j, x) == b
    decreases b - x
  {
    if x < b { BlankPointIs(j, x + 1, b); }
    hide BlankFrom;
  }

  /** Where painting a line ends, if w is the last column that is painted: behind it; but if
      only blanks are left to show from column b on, and clearing them is worth it, at b. */
  lemma EndColumnMeans(l: Line, row: seq<Cell>, lastLine: bool, ce: Option<nat>, w: int, b: int)
    requires var j := JobOf(l, row, lastLine, ce);
      && Wanted(j, w) && (forall i :: w < i <= l.lastch ==> !Wanted(j, i)) && 0 <= l.firstch <= b <= l.lastch + 1
      && (b <= l.lastch ==> Wanted(j, b) && BlankFrom(l.cells, b))
      && forall i :: l.firstch <= i < b && Wanted(j, i) ==> !BlankFrom(l.cells, i)
    ensures EndColumn(l, row, lastLine, ce) ==
      if b <= l.lastch && ce.Some? && (lastLine || LastInk(row, b, |row| - 1) - LineEnd(l.cells) >= ce.value) then b
      else if w + 1 < |row| then w + 1 else w
  {
    var j := JobOf(l, row, lastLine, ce);
    LastWantedIs(j, w, j.lch);
    BlankPointIs(j, j.from, b);
    if b <= l.lastch && ce.Some? { ClearingIsWorth(j, b); }
    hide LastWanted, BlankPoint, Clears, BlankFrom, LineEnd, LastInk;
  }

  lemma PaintedNothing(new': seq<Cell>, lastLine: bool, was: Line, from: int)
    requires |was.cells| == |new'|
    ensures Painted(new', lastLine, was, was, from, from)
  {
  }

  lemma PaintedCell(new': seq<Cell>, lastLine: bool, was: Line, now: Line, from: int, x: int)
    requires Painted(new', lastLine, was, now, from, x) && 0 <= x < |new'|
    ensures Painted(new', lastLine, was, now.(cells := now.cells[x := new'[x]]), from, x + 1)
    ensures lastLine && x == |new'| - 1 ==> Painted(new', lastLine, was, now, from, x + 1)
    ensures now.cells[x] == new'[x] ==> Painted(new', lastLine, was, now, from, x + 1)
  {
  }

  lemma PaintedClear(new': seq<Cell>, lastLine: bool, was: Line, now: Line, from: int, x: int, nlsp: int)
    requires Painted(new', lastLine, was, now, from, x) && 0 <= x < |new'|
    requires nlsp <= x && new'[x] == BLANK && forall i :: nlsp < i < |new'| && 0 <= i ==> new'[i] == BLANK
    ensures var r := now.(cells := ClearFrom(now.cells, x));
      Painted(new', lastLine, was, r, from, x) && Painted(new', lastLine, was, r, from, |new'|)
  {
  }

  class Screen {
    const c: Caps
    const k: ScrollCaps
    const p: PaintCaps
    const win: Window
    const cur: Window
    const mover: Mover
    const hashOf: seq<Cell> -> int
    /** The terminal before anything was sent. */
    ghost const start: Terminal.Term
    /** curscr's cursor, and the running output position of a refresh. */
    var cury: int
    var curx: int
    var ly: int
    var lx: int

    ghost predicate Valid()
      reads this, win, win.lines, cur, cur.lines
    {
      && win != cur && win.lines != cur.lines && mover.c == c
      && win.Valid() && cur.Valid() && Addressable(c) && c.ca
      && win.maxy == cur.maxy == c.lines && win.maxx == cur.maxx == c.cols
      && 0 <= cury && 0 <= curx < c.cols && 0 <= ly && 0 <= lx < c.cols
    }

    ghost function T(): Terminal.Term
      reads mover
    {
      Run(start, mover.out)
    }

    /** Terminals whose scrolling region is the whole screen, where the last column wraps and
        NC is absent. */
    ghost predicate Tame() {
      Matches(c, start) && start.wraps && start.first == 0 && start.end == c.lines && !c.nc
    }

    /** Terminals for which "the terminal shows curscr" is claimed. */
    ghost predicate Drivable() {
      Tame() && c.am
    }

    /** Standout can be shown and left, and the cursor can move over it. */
    ghost predicate Accents() {
      c.nd.Some? && p.so && p.se && !p.uc
    }

    /** That can be done, or there is nothing in standout anywhere. */
    ghost predicate Sayable()
      reads win`lines, win.lines, cur, cur.lines
    {
      SayableOf(RowsOf(win.lines[..]), RowsOf(cur.lines[..]), cur.standout)
    }

    ghost predicate SayableOf(w: seq<seq<Cell>>, rows: seq<seq<Cell>>, standout: bool) {
      Accents() || (!standout && Unlit(w) && Unlit(rows))
    }

    /** The terminal shows exactly what curscr says it shows, and nothing has gone astray. */
    ghost predicate Shown()
      reads mover, cur, cur.lines
    {
      && Matches(c, T()) && T().wraps && T().first == 0 && T().end == c.lines
      && T().rows == RowsOf(cur.lines[..]) && T().standout == cur.standout && !WentAstray()
    }

    /** It does, and the terminal can show what there is. */
    ghost predicate InStep()
      reads mover, win`lines, win.lines, cur, cur.lines
    {
      Shown() && Sayable()
    }

    /** Something was sent that curscr knows nothing of: a line feed met the cursor on the
        last row and scrolled the screen, or a command had no effect that can be relied on. */
    ghost predicate WentAstray()
      reads mover
    {
      T().mishaps > start.mishaps
    }

    /** The terminal shows curscr moved up by a line. */
    ghost predicate ScrolledAway()
      reads mover, cur, cur.lines
    {
      T().Term? && 0 <= c.cols && |cur.lines[..]| == c.lines && T().rows == ShiftUp(RowsOf(cur.lines[..]), c.cols, 0, c.lines, 1)
    }

    /** The cursor is where the library believes it, or, in the last column of another row
        than the last, will be addressed absolutely. */
    ghost predicate CursorAt(y: int, x: int)
      reads mover
    {
      CursorAt'(T(), y, x)
    }

    ghost predicate Agree(y: int, x: int)
      requires 0 <= y < win.lines.Length && y < cur.lines.Length
      requires 0 <= x < |win.lines[y].cells| && x < |cur.lines[y].cells|
      reads win`lines, cur`lines, win.lines, cur.lines
    {
      win.lines[y].cells[x] == cur.lines[y].cells[x]
    }

    /** Every cell where window and curscr differ, the corner aside, is marked dirty. */
    ghost predicate DirtySound()
      requires Valid()
      reads this, win, win.lines, cur, cur.lines
    {
      forall y, x | 0 <= y < win.maxy && 0 <= x < win.maxx
        :: Corner(win.maxy, win.maxx, y, x) || Covers(win.lines[y], x) || Agree(y, x)
    }

    ghost predicate Refreshed()
      requires Valid()
      reads this, win, win.lines, cur, cur.lines
    {
      forall y, x | 0 <= y < win.maxy && 0 <= x < win.maxx
        :: Corner(win.maxy, win.maxx, y, x) || Agree(y, x)
    }

    /** The screen as initscr sets it up: two blank full-size windows, and a request to
        clear the terminal on the first refresh. */
    constructor (c: Caps, k: ScrollCaps, p: PaintCaps, hashOf: seq<Cell> -> int, ghost start: Terminal.Term)
      requires Addressable(c) && c.ca && 0 < c.lines && 0 < c.cols
      ensures Valid() && DirtySound() && cur.clearOk
      ensures this.c == c && this.k == k && this.p == p && this.start == start && mover.out == []
      ensures fresh({win, cur, mover}) && fresh(win.lines) && fresh(cur.lines)
      ensures State() == Editing(BlankText(c), false, false, false) && !win.clearOk && Unforced(win.lines[..])
      ensures Tame() && !start.standout ==> Synchronized()
      ensures Sayable()
    {
      this.c, this.k, this.p, this.hashOf, this.start := c, k, p, hashOf, start;
      cury, curx, ly, lx := 0, 0, 0, 0;
      var curscr := new Window(c.lines, c.cols);
      curscr.clearOk := true;
      cur := curscr;
      win := new Window(c.lines, c.cols);
      mover := new Mover(c);
      new;
      assert win.View() == BlankText(c);
    }

    // ---------- output ----------

    method Send(cmd: Cmd)
      modifies mover`out
      ensures T() == Exec(old(T()), cmd) && mover.out == old(mover.out) + [cmd]
      ensures T().mishaps >= old(T().mishaps)
    {
      RunConcat(start, mover.out, [cmd]);
      RunOne(Run(start, mover.out), cmd);
      MishapsKept(T(), cmd);
      mover.out := mover.out + [cmd];
    }

    /** Moves the cursor, leaving standout mode if the terminal must. */
    method Domvcur(oy: int, ox: int, ny: int, nx: int)
      requires Valid() && 0 <= ox && 0 <= nx
      modifies mover, cur`standout
      ensures Valid() && cur.standout == (old(cur.standout) && p.ms)
      ensures mover.out == old(mover.out) + (if old(cur.standout) && !p.ms then [StandoutOff] else [])
                           + Travel(c, Refresh(RowsOf(cur.lines[..]), cur.standout), oy, ox, ny, nx)
      ensures T().mishaps >= old(T().mishaps)
      ensures Drivable() && old(InStep() && CursorAt(oy, ox)) && OnScreen(c, ny, nx) ==>
        InStep() && T().pos == At(ny, nx)
      ensures Drivable() && old(InStep() && CursorAt(oy, ox)) && oy == c.lines - 1 && ny == c.lines && nx == 0 ==>
        WentAstray() && ScrolledAway()
    {
      hide Run, Exec, Travel, RowsOf, Drivable, InStep, CursorAt, WentAstray, ScrolledAway;
      LeaveMode();
      StepNow(oy, ox);
      ghost var t := T();
      ghost var out := mover.out;
      var v := Refresh(RowsOf(cur.lines[..]), cur.standout);
      mover.Mvcur(oy, ox, ny, nx, v);
      OutputAdds(out, Travel(c, v, oy, ox, ny, nx));
      if Drivable() && old(InStep() && CursorAt(oy, ox)) && OnScreen(c, ny, nx) {
        MotionKeepsStep(v, t, out, oy, ox, ny, nx);
      }
      if Drivable() && old(InStep() && CursorAt(oy, ox)) && oy == c.lines - 1 && ny == c.lines && nx == 0 {
        MotionLeavesScreen(v, t, out, ox);
      }
    }

    /** A move below the screen from its last row scrolls it, and curscr knows nothing of it. */
    lemma MotionLeavesScreen(v: View, t: Terminal.Term, out: seq<Cmd>, ox: int)
      requires Valid() && Drivable()
      requires t == Run(start, out) && mover.out == out + Travel(c, v, c.lines - 1, ox, c.lines, 0)
      requires Shown'(t, cur.lines[..]) && CursorAt'(t, c.lines - 1, ox)
      ensures WentAstray() && ScrolledAway()
    {
      hide Run, Exec, Travel, RowsOf;
      RunConcat(start, out, Travel(c, v, c.lines - 1, ox, c.lines, 0));
      BelowTheScreenScrolls(c, v, t, ox);
      MishapsStay(start, out);
    }

    /** Only a blank screen does not show that. */
    lemma ScrolledAwayShows()
      requires Valid() && ScrolledAway()
      ensures T().rows == RowsOf(cur.lines[..]) <==> forall y :: 0 <= y < c.lines ==> cur.lines[y].cells == BlankRow(c.cols)
    {
      var rows := RowsOf(cur.lines[..]);
      assert forall y :: 0 <= y < c.lines ==> rows[y] == cur.lines[y].cells;
      ScrollShowsUnlessBlank(rows, c.cols);
    }

    lemma OutputAdds(out: seq<Cmd>, cs: seq<Cmd>)
      requires mover.out == out + cs
      ensures T() == Run(Run(start, out), cs) && T().mishaps >= Run(start, out).mishaps
    {
      RunConcat(start, out, cs);
      MishapsStay(Run(start, out), cs);
    }

    lemma StepNow(y: int, x: int)
      ensures Shown() ==> Shown'(T(), cur.lines[..])
      ensures InStep() ==> Shown() && Sayable()
      ensures CursorAt(y, x) ==> CursorAt'(T(), y, x)
    {
    }

    /** Standout is left before a move unless moving in standout is safe. */
    method LeaveMode()
      requires Valid()
      modifies mover`out, cur`standout
      ensures Valid() && cur.standout == (old(cur.standout) && p.ms)
      ensures mover.out == old(mover.out) + if old(cur.standout) && !p.ms then [StandoutOff] else []
      ensures T().mishaps >= old(T().mishaps)
      ensures forall y, x :: Drivable() && old(InStep() && CursorAt(y, x)) ==> InStep() && CursorAt(y, x)
    {
      hide Run, Exec, RowsOf;
      if cur.standout && !p.ms {
        Send(StandoutOff);
        cur.standout := false;
        LeaveStandout(old(T()));
      }
    }

    /** A move from where the terminal is changes nothing but the cursor. */
    lemma MotionKeepsStep(v: View, t: Terminal.Term, out: seq<Cmd>, oy: int, ox: int, ny: int, nx: int)
      requires Valid() && Drivable() && Sayable() && OnScreen(c, ny, nx) && 0 <= ox && 0 <= nx
      requires v == Refresh(RowsOf(cur.lines[..]), cur.standout)
      requires t == Run(start, out) && mover.out == out + Travel(c, v, oy, ox, ny, nx)
      requires Shown'(t, cur.lines[..]) && CursorAt'(t, oy, ox)
      ensures InStep() && T().pos == At(ny, nx)
    {
      hide Run, Exec, Travel, RowsOf;
      RunConcat(start, out, Travel(c, v, oy, ox, ny, nx));
      TravelOnScreen(c, v, oy, ox, ny, nx);
      MotionKeepsScreenIff(c, v, t, oy, ox, ny, nx);
    }

    // ---------- painting one line ----------

    /** What brings the terminal into standout or out of it, where that can be done. */
    function ModeCmds(was: bool, standout: bool): seq<Cmd> {
      if was == standout || !p.se || (standout && !p.so) then [] else if standout then [StandoutOn] else [StandoutOff]
    }

    /** Enters or leaves standout mode for the next character. */
    method SetMode(standout: bool)
      requires Valid()
      modifies mover`out, cur`standout
      ensures Valid() && mover.out == old(mover.out) + ModeCmds(old(cur.standout), standout)
      ensures cur.standout == if p.se && (standout ==> p.so) then standout else old(cur.standout)
      ensures T().mishaps >= old(T().mishaps)
      ensures Drivable() && (standout ==> Accents()) && old(InStep()) ==>
        InStep() && cur.standout == standout && T().pos == old(T().pos)
      ensures forall y, x :: Drivable() && (standout ==> Accents()) && old(Writing(y, x)) ==>
        Writing(y, x) && cur.standout == standout
    {
      hide Run, RowsOf, Tame, Unlit;
      if standout {
        if !cur.standout && p.so && p.se {
          Send(StandoutOn);
          cur.standout := true;
        }
      } else if cur.standout && p.se {
        Send(StandoutOff);
        cur.standout := false;
      }
    }

    /** The next character may be printed at column x of line wy, or, past the last
        column, the next move will use absolute addressing. */
    ghost predicate Writing(wy: int, x: int)
      reads mover, win`lines, win.lines, cur, cur.lines
    {
      InStep() && CursorAt(wy, if x < c.cols then x else c.cols - 1) && (x < c.cols ==> T().pos == At(wy, x))
    }

    lemma WritingMeans(wy: int, x: int)
      requires Valid() && 0 <= wy < win.maxy && 0 <= x
      ensures InStep() && T().pos == At(wy, x) && x < c.cols ==> Writing(wy, x)
      ensures Writing(wy, x) ==> InStep() && CursorAt(wy, if x < c.cols then x else c.cols - 1)
    {
    }

    /** A row of curscr that is painted from the window, or cleared. */
    lemma SayableRow(rows: seq<seq<Cell>>, y: int, row: seq<Cell>)
      requires Valid() && 0 <= y < win.maxy == |rows| && |row| == |rows[y]| == win.maxx
      requires SayableOf(RowsOf(win.lines[..]), rows, cur.standout)
      requires forall x :: 0 <= x < |row| ==> row[x] in [rows[y][x], win.lines[y].cells[x], BLANK]
      ensures SayableOf(RowsOf(win.lines[..]), rows[y := row], cur.standout)
    {
      var w := RowsOf(win.lines[..]);
      assert w[y] == win.lines[y].cells;
    }

    lemma WritesToTheMargin(wy: int)
      requires 0 < c.cols
      ensures Writing(wy, c.cols - 1) ==> Writing(wy, c.cols)
    {
    }

    lemma CellIsSayable(wy: int, wx: int)
      requires Valid() && 0 <= wy < win.maxy && 0 <= wx < win.maxx
      ensures Sayable() && win.lines[wy].cells[wx].standout ==> Accents()
      ensures Writing(wy, wx) && win.lines[wy].cells[wx].standout ==> Accents()
    {
      assert RowsOf(win.lines[..])[wy] == win.lines[wy].cells;
    }

    /** Prints one character of the window and stores it in curscr. */
    method WriteCell(wy: int, x: int)
      requires Valid() && 0 <= wy < win.maxy && 0 <= x < win.maxx
      modifies mover`out, cur.lines
      ensures Valid() && mover.out == old(mover.out) + [Put(win.lines[wy].cells[x].ch)]
      ensures T().mishaps >= old(T().mishaps)
      ensures cur.lines[..] == old(cur.lines[..])[wy :=
        old(cur.lines[wy]).(cells := old(cur.lines[wy].cells)[x := win.lines[wy].cells[x]])]
      ensures (old(Writing(wy, x)) && cur.standout == win.lines[wy].cells[x].standout && !Corner(c.lines, c.cols, wy, x))
        ==> Writing(wy, x + 1)
    {
      hide Run, Exec;
      ghost var was := cur.lines[..];
      var l := cur.lines[wy];
      var cell := win.lines[wy].cells[x];
      cur.lines[wy] := l.(cells := l.cells[x := cell]);
      Send(Put(cell.ch));
      RowsOfUpdate(was, wy, cur.lines[wy]);
      if old(Writing(wy, x)) && cur.standout == cell.standout && !Corner(win.maxy, win.maxx, wy, x) {
        PutShows(c, old(T()), wy, x, cell);
        SayableRow(RowsOf(was), wy, cur.lines[wy].cells);
      }
    }

    /** The last column of curscr's line that is not blank, from column x on. */
    method LastNonBlank(wy: int, x: int) returns (clsp: int)
      requires Valid() && 0 <= wy < win.maxy && 0 <= x < win.maxx
      ensures x - 1 <= clsp < win.maxx && clsp == LastInk(cur.lines[wy].cells, x, win.maxx - 1)
      ensures forall i :: clsp < i < win.maxx ==> cur.lines[wy].cells[i] == BLANK
    {
      clsp := win.maxx - 1;
      while cur.lines[wy].cells[clsp].ch == ' ' && !cur.lines[wy].cells[clsp].standout
        invariant x <= clsp < win.maxx && LastInk(cur.lines[wy].cells, x, win.maxx - 1) == LastInk(cur.lines[wy].cells, x, clsp)
        invariant forall i :: clsp < i < win.maxx ==> cur.lines[wy].cells[i] == BLANK
        decreases clsp
      {
        clsp := clsp - 1;
        if clsp < x {
          break;
        }
      }
    }

    static method BlankUpTo(was: seq<Cell>, wx: int, clsp: int) returns (cells: seq<Cell>)
      requires 0 <= wx && wx - 1 <= clsp < |was|
      requires forall i :: clsp < i < |was| ==> was[i] == BLANK
      ensures cells == ClearFrom(was, wx)
    {
      cells := was;
      var x := wx;
      while x <= clsp
        invariant wx <= x <= clsp + 1 && |cells| == |was|
        invariant forall i :: 0 <= i < |was| ==> cells[i] == if wx <= i < x then BLANK else was[i]
      {
        cells := cells[x := BLANK];
        x := x + 1;
      }
    }

    /** Takes the terminal out of standout. */
    method SetModeOff()
      requires Valid()
      modifies mover`out, cur`standout
      ensures Valid() && mover.out == old(mover.out) + if old(cur.standout) then [StandoutOff] else []
      ensures T().mishaps >= old(T().mishaps)
      ensures !cur.standout
      ensures Drivable() && old(InStep()) ==> InStep() && T().pos == old(T().pos)
      ensures forall y, x :: Drivable() && old(InStep() && CursorAt(y, x)) ==> CursorAt(y, x)
      ensures forall y, x :: Drivable() && old(Writing(y, x)) ==> Writing(y, x)
    {
      hide Run;
      if cur.standout {
        Send(StandoutOff);
        cur.standout := false;
      }
    }

    /** Clears the rest of the terminal's line and of curscr's. */
    method ClearRest(wy: int, wx: int, clsp: int)
      requires Valid() && 0 <= wy < win.maxy && 0 <= wx < win.maxx && wx - 1 <= clsp < win.maxx
      requires forall i :: clsp < i < win.maxx ==> cur.lines[wy].cells[i] == BLANK
      modifies mover`out, cur`standout, cur.lines
      ensures Valid() && !cur.standout
      ensures mover.out == old(mover.out) + (if old(cur.standout) then [StandoutOff] else []) + [ClearEol]
      ensures T().mishaps >= old(T().mishaps)
      ensures forall y :: 0 <= y < win.maxy && y != wy ==> cur.lines[y] == old(cur.lines[y])
      ensures cur.lines[wy] == old(cur.lines[wy]).(cells := ClearFrom(old(cur.lines[wy].cells), wx))
      ensures Drivable() && old(Writing(wy, wx)) ==> Writing(wy, wx)
    {
      hide Run, Exec, RowsOf, InStep, CursorAt, T, Shown', Drivable;
      SetModeOff();
      StepNow(wy, wx);
      ghost var t, was := T(), cur.lines[..];
      Send(ClearEol);
      var l := cur.lines[wy];
      var cells := BlankUpTo(l.cells, wx, clsp);
      cur.lines[wy] := l.(cells := cells);
      if Drivable() && old(Writing(wy, wx)) {
        ClearKeepsStep(t, was, wy, wx);
      }
    }

    lemma ClearKeepsStep(t: Terminal.Term, was: seq<Line>, wy: int, wx: int)
      requires Valid() && 0 <= wy < win.maxy == |was| && 0 <= wx < win.maxx && |was[wy].cells| == win.maxx
      requires Shown'(t, was) && !cur.standout && t.pos == At(wy, wx) && T() == Exec(t, ClearEol)
      requires SayableOf(RowsOf(win.lines[..]), RowsOf(was), false)
      requires cur.lines[..] == was[wy := was[wy].(cells := ClearFrom(was[wy].cells, wx))]
      ensures Writing(wy, wx)
    {
      hide Run, Exec, RowsOf;
      RowsOfUpdate(was, wy, cur.lines[wy]);
      SayableRow(RowsOf(was), wy, cur.lines[wy].cells);
      ClearEolShows(c, t, wy, wx);
    }

    /** The terminal is not left in standout, unless it can move in it. */
    ghost predicate Resting()
      reads cur`standout
    {
      cur.standout ==> p.ms
    }

    /** Underlines the character just printed. */
    method UnderlineLast()
      modifies mover`out
      ensures mover.out == old(mover.out) + [Left, Underline] && T().mishaps >= old(T().mishaps)
    {
      hide Run;
      Send(Left);
      Send(Underline);
      assert mover.out == old(mover.out) + [Left, Underline];
    }

    /** The standout and output steps for one character; on a terminal with UC, standout is
        underlined.  In the corner of a window that may scroll the painting stops, with the
        character left unpainted. */
    method PaintCell(wy: int, wx: int) returns (done: bool)
      requires Valid() && 0 <= wy < win.maxy && 0 <= wx < win.maxx
      modifies mover`out, cur`standout, cur.lines, this`ly, this`lx
      ensures Valid()
      ensures T().mishaps >= old(T().mishaps)
      ensures forall y :: 0 <= y < win.maxy && y != wy ==> cur.lines[y] == old(cur.lines[y])
      ensures cur.lines[wy] == if Corner(win.maxy, win.maxx, wy, wx) then old(cur.lines[wy]) else
        old(cur.lines[wy]).(cells := old(cur.lines[wy].cells)[wx := win.lines[wy].cells[wx]])
      ensures done == (Corner(win.maxy, win.maxx, wy, wx) && win.scrollOk)
      ensures done ==> Resting()
      ensures done || mover.out == old(mover.out) + ModeCmds(old(cur.standout), win.lines[wy].cells[wx].standout)
                                   + (if Corner(win.maxy, win.maxx, wy, wx) then [] else [Put(win.lines[wy].cells[wx].ch)])
                                   + (if p.uc && win.lines[wy].cells[wx].standout then [Left, Underline] else [])
      ensures if done then ly == wy && lx == wx == win.maxx - 1 else ly == old(ly) && lx == old(lx)
      ensures Drivable() && old(Writing(wy, wx)) ==> Writing(wy, wx + 1)
    {
      hide RowsOf, T, SayableOf, Tame, ModeCmds, InStep, CursorAt, Writing;
      CellIsSayable(wy, wx);
      var cell := win.lines[wy].cells[wx];
      done := false;
      SetMode(cell.standout);
      WritesToTheMargin(wy);
      if wx + 1 >= win.maxx && wy == win.maxy - 1 && win.scrollOk {
        if cur.standout && !p.ms {
          SetModeOff();
          WritesToTheMargin(wy);
        }
        ly, lx := win.maxy - 1, win.maxx - 1;
        return true;
      }
      if wx + 1 < win.maxx || wy < win.maxy - 1 {
        WriteCell(wy, wx);
      }
      if p.uc && cell.standout {
        UnderlineLast();
      }
    }

    /** The last column of the window's line that is not blank, or 0. */
    method WindowLastNonBlank(wy: int) returns (nlsp: int)
      requires Valid() && 0 <= wy < win.maxy
      ensures nlsp == LineEnd(win.lines[wy].cells)
    {
      nlsp := win.maxx - 1;
      while win.lines[wy].cells[nlsp].ch == ' ' && !win.lines[wy].cells[nlsp].standout
        invariant 0 <= nlsp < win.maxx
        invariant LastInk(win.lines[wy].cells, 0, win.maxx - 1) == LastInk(win.lines[wy].cells, 0, nlsp)
        decreases nlsp
      {
        if nlsp <= 0 {
          break;
        }
        nlsp := nlsp - 1;
      }
    }

    /** Clears the rest of the line instead of printing blanks, if that is worth it. */
    method TryClear(wy: int, wx: int, nlsp: int) returns (done: bool)
      requires Valid() && 0 <= wy < win.maxy && 0 <= wx < win.maxx && p.ce.Some?
      modifies mover`out, cur`standout, cur.lines
      ensures Valid()
      ensures done <==> WorthClearing(p.ce.value, old(LastInk(cur.lines[wy].cells, wx, win.maxx - 1)), nlsp, wy == c.lines - 1)
      ensures T().mishaps >= old(T().mishaps)
      ensures !done ==> cur.lines[..] == old(cur.lines[..]) && cur.standout == old(cur.standout) && mover.out == old(mover.out)
      ensures done ==> Resting()
      ensures forall y :: 0 <= y < win.maxy && y != wy ==> cur.lines[y] == old(cur.lines[y])
      ensures done ==> cur.lines[wy] == old(cur.lines[wy]).(cells := ClearFrom(old(cur.lines[wy].cells), wx))
      ensures Drivable() && old(Writing(wy, wx)) ==> Writing(wy, wx)
    {
      var clsp := LastNonBlank(wy, wx);
      done := WorthClearing(p.ce.value, clsp, nlsp, wy == c.lines - 1);
      if done {
        ClearRest(wy, wx, clsp);
      }
    }

    /** Job j is being done on line wy, from column x on. */
    ghost predicate Doing(j: Job, wy: int, x: int)
      requires Valid() && 0 <= wy < win.maxy
      reads this, win, win.lines, cur, cur.lines
    {
      && j.cells == win.lines[wy].cells && |j.row| == win.maxx
      && 0 <= j.from <= x <= win.maxx && j.lch < win.maxx && j.lastLine == (wy == c.lines - 1) && j.ce == p.ce
      && forall i :: x <= i < win.maxx ==> cur.lines[wy].cells[i] == j.row[i]
    }

    /** One turn of the inner loop: clear the rest of the line, or print one character. */
    method PaintStep(wy: int, x: int, nlsp: int, ce0: bool, ghost was: Line, ghost from: int, ghost j: Job)
      returns (wx: int, ce: bool, done: bool)
      requires Valid() && 0 <= wy < win.maxy && 0 <= from <= x < win.maxx
      requires ce0 ==> p.ce.Some? && nlsp == LineEnd(win.lines[wy].cells)
      requires Painted(win.lines[wy].cells, c.lines - 1 == wy, was, cur.lines[wy], from, x)
      requires Doing(j, wy, x) && Wanted(j, x)
      modifies mover`out, cur`standout, cur.lines, this`ly, this`lx
      ensures Valid() && (ce ==> ce0) && (!done ==> Doing(j, wy, wx)) && (done ==> Resting())
      ensures EndFrom(j, ce0, x) == if done then lx else EndFrom(j, ce, wx)
      ensures T().mishaps >= old(T().mishaps)
      ensures forall y :: 0 <= y < win.maxy && y != wy ==> cur.lines[y] == old(cur.lines[y])
      ensures if done then x <= wx <= x + 1 && 0 <= lx < win.maxx && (ly == wy || ly == old(ly))
                           && Painted(win.lines[wy].cells, c.lines - 1 == wy, was, cur.lines[wy], from, win.maxx)
              else wx == x + 1 && ly == old(ly) && lx == old(lx)
      ensures Painted(win.lines[wy].cells, c.lines - 1 == wy, was, cur.lines[wy], from, wx)
      ensures Drivable() && old(Writing(wy, x)) ==> if done then InStep() && CursorAt(wy, lx) else Writing(wy, wx)
    {
      hide InStep, CursorAt, Drivable, T, Painted, ClearFrom, LineEnd, LastInk, EndFrom, WorthClearing, Wanted, BlankFrom, Behind;
      wx, ce, done := x, ce0, false;
      InkLooksAhead(cur.lines[wy].cells, j.row, x, win.maxx - 1);
      EndStep(j, ce0, x);
      LineEndMeans(j.cells);
      BlanksBehind(j.cells, x);
      if ce && wx >= nlsp && win.lines[wy].cells[wx] == BLANK {
        PaintedClear(win.lines[wy].cells, c.lines - 1 == wy, was, cur.lines[wy], from, wx, nlsp);
        done := TryClear(wy, wx, nlsp);
        if done {
          lx := wx;
          return;
        }
        ce := false;
      }
      PaintedCell(win.lines[wy].cells, c.lines - 1 == wy, was, cur.lines[wy], from, wx);
      done := PaintCell(wy, wx);
      wx := wx + 1;
    }

    /** Paints from column wx0 until a column that need not change, or to the last changed
        column, or, when the rest of the line is blank, by clearing it. */
    method PaintRun(wy: int, wx0: int, lch: int, force: bool, nlsp: int, ce0: bool, ghost j: Job)
      returns (wx: int, ce: bool, done: bool)
      requires Valid() && 0 <= wy < win.maxy && 0 <= wx0 <= lch < win.maxx && ly == wy && lx == wx0
      requires force || win.lines[wy].cells[wx0] != cur.lines[wy].cells[wx0]
      requires ce0 ==> p.ce.Some? && nlsp == LineEnd(win.lines[wy].cells)
      requires Doing(j, wy, wx0) && j.force == force && j.lch == lch
      modifies mover`out, cur`standout, cur.lines, this`ly, this`lx
      ensures Valid() && wx0 <= wx <= win.maxx && (ce ==> ce0) && (done ==> Resting())
      ensures if done then lx == EndFrom(j, ce0, wx0)
              else Doing(j, wy, wx) && Wanted(j, wx - 1) && EndFrom(j, ce, wx) == EndFrom(j, ce0, wx0)
      ensures T().mishaps >= old(T().mishaps)
      ensures forall y :: 0 <= y < win.maxy && y != wy ==> cur.lines[y] == old(cur.lines[y])
      ensures if done then ly == wy && 0 <= lx < win.maxx
                           && Painted(win.lines[wy].cells, c.lines - 1 == wy, old(cur.lines[wy]), cur.lines[wy], wx0, win.maxx)
              else wx0 < wx <= lch + 1 && ly == wy && lx == wx0
      ensures Painted(win.lines[wy].cells, c.lines - 1 == wy, old(cur.lines[wy]), cur.lines[wy], wx0, wx)
      ensures Drivable() && old(Writing(wy, wx0)) ==>
        if done then InStep() && CursorAt(ly, lx) else Writing(wy, wx)
    {
      hide InStep, CursorAt, Drivable, T, Painted, Writing, LineEnd, EndFrom;
      ghost var was := cur.lines[wy];
      PaintedNothing(win.lines[wy].cells, c.lines - 1 == wy, was, wx0);
      wx, ce, done := PaintStep(wy, wx0, nlsp, ce0, was, wx0, j);
      while !done && wx <= lch && (force || win.lines[wy].cells[wx] != cur.lines[wy].cells[wx])
        invariant wx0 <= wx <= lch + 1 && Valid() && (ce ==> ce0) && ly == wy && 0 <= lx < win.maxx && (done ==> Resting())
        invariant T().mishaps >= old(T().mishaps)
        invariant !done ==> wx0 < wx && lx == wx0 && Doing(j, wy, wx) && Wanted(j, wx - 1)
        invariant EndFrom(j, ce0, wx0) == if done then lx else EndFrom(j, ce, wx)
        invariant forall y :: 0 <= y < win.maxy && y != wy ==> cur.lines[y] == old(cur.lines[y])
        invariant Painted(win.lines[wy].cells, c.lines - 1 == wy, was, cur.lines[wy], wx0, wx)
        invariant done ==> Painted(win.lines[wy].cells, c.lines - 1 == wy, was, cur.lines[wy], wx0, win.maxx)
        invariant Drivable() && old(Writing(wy, wx0)) ==>
          if done then InStep() && CursorAt(ly, lx) else Writing(wy, wx)
        decreases !done, lch + 1 - wx
      {
        wx, ce, done := PaintStep(wy, wx, nlsp, ce, was, wx0, j);
      }
    }

    /** Brings the terminal to the next changed cell and paints a run of cells. */
    method PaintFrom(wy: int, wx0: int, lch: int, force: bool, nlsp: int, ce0: bool, ghost j: Job)
      returns (wx: int, ce: bool, done: bool)
      requires Valid() && 0 <= wy < win.maxy && 0 <= wx0 <= lch < win.maxx
      requires force || win.lines[wy].cells[wx0] != cur.lines[wy].cells[wx0]
      requires ce0 ==> p.ce.Some? && nlsp == LineEnd(win.lines[wy].cells)
      requires Doing(j, wy, wx0) && j.force == force && j.lch == lch
      modifies mover, cur`standout, cur.lines, this`ly, this`lx
      ensures Valid() && wx0 <= wx <= win.maxx && (ce ==> ce0) && ly == wy && (!done ==> wx0 < wx <= lch + 1)
      ensures done ==> Resting()
      ensures if done then lx == EndFrom(j, ce0, wx0)
              else Doing(j, wy, wx) && Wanted(j, wx - 1) && EndFrom(j, ce, wx) == EndFrom(j, ce0, wx0) && lx == Behind(j, wx - 1)
      ensures T().mishaps >= old(T().mishaps)
      ensures forall y :: 0 <= y < win.maxy && y != wy ==> cur.lines[y] == old(cur.lines[y])
      ensures Painted(win.lines[wy].cells, c.lines - 1 == wy, old(cur.lines[wy]), cur.lines[wy], wx0, if done then win.maxx else wx)
      ensures Drivable() && old(InStep() && CursorAt(ly, lx)) ==> InStep() && CursorAt(ly, lx)
    {
      hide Painted, T, Run, EndFrom, LineEnd, Wanted, Travel, RowsOf, Addressable, InStep, CursorAt, Writing;
      Domvcur(ly, lx, wy, wx0);
      ly, lx := wy, wx0;
      WritingMeans(wy, wx0);
      wx, ce, done := PaintRun(wy, wx0, lch, force, nlsp, ce0, j);
      if !done {
        WritingMeans(wy, wx);
        if wx >= c.cols && c.am {
          lx := c.cols - 1;
        } else if wx >= win.maxx {
          Domvcur(ly, wx, ly, win.maxx - 1);
          lx := win.maxx - 1;
        } else {
          lx := wx;
        }
      }
    }

    method SkipEqual(wy: int, from: int, lch: int) returns (wx: int)
      requires Valid() && 0 <= wy < win.maxy && 0 <= from <= lch < win.maxx && Agree(wy, from)
      ensures from < wx <= lch + 1
      ensures forall x :: from <= x < wx ==> cur.lines[wy].cells[x] == win.lines[wy].cells[x]
    {
      wx := from;
      while wx <= lch && win.lines[wy].cells[wx] == cur.lines[wy].cells[wx]
        invariant from <= wx <= lch + 1
        invariant forall x :: from <= x < wx ==> cur.lines[wy].cells[x] == win.lines[wy].cells[x]
      {
        wx := wx + 1;
      }
    }

    lemma StartsDoing(j: Job, wy: int)
      requires Valid() && 0 <= wy < win.maxy && 0 <= j.from <= j.lch < win.maxx
      requires j.cells == win.lines[wy].cells && j.row == cur.lines[wy].cells && j.lastLine == (wy == c.lines - 1) && j.ce == p.ce
      ensures Doing(j, wy, j.from) && !Differs(j.cells, j.row, j.from, j.from - 1)
    {
    }

    lemma PaintsHere(j: Job, wy: int, x: int)
      requires Valid() && 0 <= wy < win.maxy && Doing(j, wy, x) && x <= j.lch
      requires j.force || win.lines[wy].cells[x] != cur.lines[wy].cells[x]
      ensures j.force || Differs(j.cells, j.row, j.from, j.lch)
    {
    }

    lemma SkipsOn(j: Job, wy: int, ce: bool, x: int, y: int)
      requires Valid() && 0 <= wy < win.maxy && Doing(j, wy, x) && x <= y <= j.lch + 1 && !j.force
      requires forall i :: x <= i < y ==> cur.lines[wy].cells[i] == win.lines[wy].cells[i]
      ensures Doing(j, wy, y) && EndFrom(j, ce, y) == EndFrom(j, ce, x) && LastWanted(j, y - 1) == LastWanted(j, x - 1)
      ensures !Differs(j.cells, j.row, j.from, x - 1) ==> !Differs(j.cells, j.row, j.from, y - 1)
    {
      EndSkips(j, ce, x, y);
    }

    /** The outer loop of makech: skips equal cells, paints the others.  The output is then
        on this row exactly if there was something to paint, in the column in which the job
        ends. */
    method PaintLine(wy: int, wx0: int, lch: int, force: bool, nlsp: int, ce0: bool)
      requires Valid() && 0 <= wy < win.maxy && 0 <= wx0 <= lch < win.maxx
      requires ce0 == p.ce.Some? && (ce0 ==> nlsp == LineEnd(win.lines[wy].cells))
      modifies mover, cur`standout, cur.lines, this`ly, this`lx
      ensures Valid() && Resting()
      ensures var j := Job(win.lines[wy].cells, old(cur.lines[wy].cells), force, wx0, lch, wy == c.lines - 1, p.ce);
        if force || Differs(win.lines[wy].cells, old(cur.lines[wy].cells), wx0, lch) then ly == wy && lx == EndFrom(j, ce0, wx0)
        else ly == old(ly) && lx == old(lx)
      ensures T().mishaps >= old(T().mishaps)
      ensures forall y :: 0 <= y < win.maxy && y != wy ==> cur.lines[y] == old(cur.lines[y])
      ensures Painted(win.lines[wy].cells, c.lines - 1 == wy, old(cur.lines[wy]), cur.lines[wy], wx0, lch + 1)
      ensures Drivable() && old(InStep() && CursorAt(ly, lx)) ==> InStep() && CursorAt(ly, lx)
    {
      hide Painted, InStep, CursorAt, Drivable, T, EndFrom, LineEnd, LastWanted, Behind, Doing, Wanted, Differs, Addressable;
      var wx, ce := wx0, ce0;
      ghost var new', last := win.lines[wy].cells, c.lines - 1 == wy;
      ghost var was := cur.lines[wy];
      ghost var j := Job(new', was.cells, force, wx0, lch, last, p.ce);
      ghost var painted := false;
      PaintedNothing(new', last, was, wx0);
      StartsDoing(j, wy);
      while wx <= lch
        invariant wx0 <= wx <= lch + 1 && Valid() && (ce ==> ce0)
        invariant Doing(j, wy, wx) && EndFrom(j, ce, wx) == EndFrom(j, ce0, wx0)
        invariant if painted then ly == wy && (force || Differs(new', was.cells, wx0, lch)) && lx == Behind(j, LastWanted(j, wx - 1))
                  else ly == old(ly) && lx == old(lx) && cur.lines[wy] == was && !Differs(new', was.cells, wx0, wx - 1)
                       && (force ==> wx == wx0)
        invariant T().mishaps >= old(T().mishaps)
        invariant forall y :: 0 <= y < win.maxy && y != wy ==> cur.lines[y] == old(cur.lines[y])
        invariant Painted(new', last, was, cur.lines[wy], wx0, wx)
        invariant Drivable() && old(InStep() && CursorAt(ly, lx)) ==> InStep() && CursorAt(ly, lx)
        decreases lch + 1 - wx
      {
        if !force && win.lines[wy].cells[wx] == cur.lines[wy].cells[wx] {
          ghost var from := wx;
          wx := SkipEqual(wy, wx, lch);
          PaintedSkip(new', last, was, cur.lines[wy], wx0, from, wx);
          SkipsOn(j, wy, ce, from, wx);
        } else {
          ghost var mid, from := cur.lines[wy], wx;
          painted := true;
          var done;
          PaintsHere(j, wy, wx);
          wx, ce, done := PaintFrom(wy, wx, lch, force, nlsp, ce, j);
          if done {
            PaintedTrans(new', last, was, mid, cur.lines[wy], wx0, from, win.maxx, lch + 1);
            return;
          }
          PaintedTrans(new', last, was, mid, cur.lines[wy], wx0, from, wx, wx);
          WantedIsLast(j, wx - 1);
        }
      }
      EndAtLast(j, ce);
      SetModeOff();
    }

    /** After a line that was run off, the output position goes to the start of the row
        below the one it is on, whatever row that is. */
    method StepDown(wy: int)
      requires Valid() && 0 <= wy < win.maxy
      modifies mover, cur`standout, this`ly, this`lx
      ensures Valid() && T().mishaps >= old(T().mishaps)
      ensures ly == old(ly) + Below(win.lines[..], wy) && lx == if Below(win.lines[..], wy) > 0 then 0 else old(lx)
      ensures Drivable() && old(InStep() && CursorAt(ly, lx)) ==>
        if ly < c.lines then InStep() && CursorAt(ly, lx) else WentAstray() && ScrolledAway()
    {
      hide Drivable, T, WentAstray, ScrolledAway;
      if wy > 0 && win.lines[wy - 1].pastEol {
        Domvcur(ly, lx, ly + 1, 0);
        ly := ly + 1;
        lx := 0;
      }
    }

    /** The part of makech behind the step down: paints what is marked.  The output ends on
        this row if anything had to be painted. */
    method PaintMarked(wy: int)
      requires Valid() && 0 <= wy < win.maxy && win.lines[wy].dirty
      modifies mover, cur`standout, cur.lines, win.lines, this`ly, this`lx
      ensures Valid() && Resting() && T().mishaps >= old(T().mishaps)
      ensures win.lines[..] == old(win.lines[..])[wy := old(win.lines[wy]).(force := false)]
      ensures forall y :: 0 <= y < win.maxy && y != wy ==> cur.lines[y] == old(cur.lines[y])
      ensures forall x | 0 <= x < win.maxx && (old(Covers(win.lines[wy], x)) || old(Agree(wy, x)))
        :: Corner(c.lines, c.cols, wy, x) || Agree(wy, x)
      ensures if old(NeedsPaint(win.lines[wy], cur.lines[wy].cells))
              then ly == wy && lx == old(EndColumn(win.lines[wy], cur.lines[wy].cells, wy == c.lines - 1, p.ce))
              else ly == old(ly) && lx == old(lx)
      ensures Drivable() && old(InStep() && CursorAt(ly, lx)) ==> InStep() && CursorAt(ly, lx)
    {
      hide InStep, CursorAt, Drivable, T, Painted, EndFrom, LineEnd, NeedsPaint, Differs, EndColumn, Addressable;
      var wx := win.lines[wy].firstch;
      if wx < 0 {
        wx := 0;
      } else if wx >= win.maxx {
        return;
      }
      var lch := win.lines[wy].lastch;
      var edge := win.maxx - 1;
      if lch < 0 {
        return;
      } else if lch > edge {
        lch := edge;
      }
      var force := win.lines[wy].force;
      DropForce(wy);
      var nlsp := 0;
      if p.ce.Some? {
        nlsp := WindowLastNonBlank(wy);
      }
      if force {
        GotoOutput();
      }
      ghost var was := cur.lines[wy];
      JobIsDone(win.lines[wy].(force := force), was.cells, wy == c.lines - 1, p.ce);
      PaintLine(wy, wx, lch, force, nlsp, p.ce.Some?);
      PaintedAgrees(win.lines[wy].cells, c.lines - 1 == wy, was, cur.lines[wy], wx, lch + 1);
    }

    /** Makes the changed part of one line appear on the screen.  The output steps down
        below a line that was run off, and ends on this row if anything had to be painted. */
    method Makech(wy: int)
      requires Valid() && 0 <= wy < win.maxy && win.lines[wy].dirty
      modifies mover, cur`standout, cur.lines, win.lines, this`ly, this`lx
      ensures Valid() && Resting() && T().mishaps >= old(T().mishaps)
      ensures win.lines[..] == old(win.lines[..])[wy := old(win.lines[wy]).(force := false)]
      ensures forall y :: 0 <= y < win.maxy && y != wy ==> cur.lines[y] == old(cur.lines[y])
      ensures forall x | 0 <= x < win.maxx && (old(Covers(win.lines[wy], x)) || old(Agree(wy, x)))
        :: Corner(c.lines, c.cols, wy, x) || Agree(wy, x)
      ensures ly == if old(NeedsPaint(win.lines[wy], cur.lines[wy].cells)) then wy
                    else old(ly) + old(Below(win.lines[..], wy))
      ensures lx == if old(NeedsPaint(win.lines[wy], cur.lines[wy].cells))
                    then old(EndColumn(win.lines[wy], cur.lines[wy].cells, wy == c.lines - 1, p.ce))
                    else if old(Below(win.lines[..], wy)) > 0 then 0 else old(lx)
      ensures Drivable() && old(InStep() && CursorAt(ly, lx)) ==>
        if old(ly + Below(win.lines[..], wy)) < c.lines then InStep() && CursorAt(ly, lx) else WentAstray()
    {
      hide InStep, CursorAt, Drivable, T, ScrolledAway, NeedsPaint, EndColumn, Addressable;
      StepDown(wy);
      PaintMarked(wy);
    }

    method DropForce(wy: int)
      requires Valid() && 0 <= wy < win.maxy
      modifies win.lines
      ensures Valid() && win.lines[..] == old(win.lines[..])[wy := old(win.lines[wy]).(force := false)]
      ensures old(InStep()) ==> InStep()
    {
      hide T;
      win.lines[wy] := win.lines[wy].(force := false);
      assert RowsOf(win.lines[..]) == old(RowsOf(win.lines[..]));
    }

    /** Addresses the terminal to the position it is believed to be at. */
    method GotoOutput()
      requires Valid()
      modifies mover`out
      ensures Valid()
      ensures T().mishaps >= old(T().mishaps)
      ensures old(InStep() && CursorAt(ly, lx)) ==> InStep() && CursorAt(ly, lx)
    {
      hide Run;
      Send(Goto(ly, lx));
    }

    // ---------- quick change ----------

    /** What quickch may do to the window's lines: it neither edits them nor moves the
        run-off marks, and it cleans only lines that curscr already shows. */
    twostate predicate SameText()
      reads win, win.lines
    {
      && RowsOf(win.lines[..]) == old(RowsOf(win.lines[..])) && EolOf(win.lines[..]) == old(EolOf(win.lines[..]))
    }

    /** Cleans the lines at the top that are unchanged; returns the first that is not. */
    method TrimTop() returns (top: int)
      requires Valid()
      modifies win.lines
      ensures Valid() && SameText() && 0 <= top <= win.maxy
      ensures top == FirstChanged(old(win.lines[..]), cur.lines[..], 0)
      ensures forall y :: 0 <= y < win.maxy ==> win.lines[y] == if y < top then old(win.lines[y]).(dirty := false) else old(win.lines[y])
    {
      hide RowsOf, EolOf;
      top := 0;
      ghost var w := win.lines[..];
      while top < win.maxy
        invariant 0 <= top <= win.maxy && Valid()
        invariant FirstChanged(w, cur.lines[..], 0) == FirstChanged(w, cur.lines[..], top)
        invariant forall y :: 0 <= y < top ==>
          win.lines[y] == w[y].(dirty := false) && !w[y].force
        invariant forall y :: top <= y < win.maxy ==> win.lines[y] == w[y]
      {
        if !SameLine(win.lines[top], cur.lines[top]) {
          break;
        }
        win.lines[top] := win.lines[top].(dirty := false);
        top := top + 1;
      }
      SameRows(w, win.lines[..]);
    }

    /** The same from the bottom. */
    method TrimBottom() returns (bot: int)
      requires Valid()
      modifies win.lines
      ensures Valid() && SameText() && -1 <= bot < win.maxy
      ensures bot == LastChanged(old(win.lines[..]), cur.lines[..], win.maxy - 1)
      ensures forall y :: 0 <= y < win.maxy ==> win.lines[y] == if y > bot then old(win.lines[y]).(dirty := false) else old(win.lines[y])
    {
      hide RowsOf, EolOf, LastChanged;
      bot := win.maxy - 1;
      ghost var w := win.lines[..];
      while bot >= 0
        invariant -1 <= bot < win.maxy && Valid()
        invariant LastChanged(w, cur.lines[..], win.maxy - 1) == LastChanged(w, cur.lines[..], bot)
        invariant forall y :: bot < y < win.maxy ==>
          win.lines[y] == w[y].(dirty := false) && !w[y].force
        invariant forall y :: 0 <= y <= bot ==> win.lines[y] == w[y]
      {
        LastStep(w, cur.lines[..], bot);
        if !SameLine(win.lines[bot], cur.lines[bot]) {
          break;
        }
        win.lines[bot] := win.lines[bot].(dirty := false);
        bot := bot - 1;
      }
      if bot < 0 { LastStep(w, cur.lines[..], bot); }
      SameRows(w, win.lines[..]);
    }

    /** Rotates curscr so that the block found in it lines up with the window's. */
    method AlignBlock(top: int, bot: int, startw: int, starts: int, bsize: int)
      requires Valid() && 0 <= top <= bot < win.maxy && 0 <= bsize
      requires top <= startw <= bot - bsize && top <= starts <= bot - bsize
      requires Block(win.lines[..], cur.lines[..], startw, starts, bsize)
      modifies win.lines, cur.lines
      ensures Valid() && SameText()
      ensures old(DirtySound()) ==> DirtySound()
      ensures forall y :: 0 <= y < win.maxy && !(top <= y <= bot) ==> cur.lines[y] == old(cur.lines[y])
      ensures forall y | top <= y <= bot
        :: cur.lines[y].cells == RotatedCells(old(cur.lines[..]), top, bot - top + 1, startw - starts, y - top, cur.maxx)
      ensures var q := Aligned(old(win.lines[..]), old(cur.lines[..]), top, bot, bsize, startw, starts, win.maxx);
        win.lines[..] == q.win && RowsOf(cur.lines[..]) == q.rows
    {
      hide RotatedCells, SameLine, RowsOf, EolOf, Movable, Marked;
      ghost var was, winWas := cur.lines[..], win.lines[..];
      var n := startw - starts;
      var blankHash := hashOf(BlankRow(win.maxx));
      BlockStays(was, winWas, top, bot, startw, starts, bsize);
      Rotate(win, cur, top, bot, startw, startw + bsize, n, blankHash);
      MarkedText(winWas, win.lines[..], top, bot, startw, startw + bsize, win.maxx);
      BlockAligned(was, winWas, cur.lines[..], top, bot, startw, starts, bsize, cur.maxx);
      AlignedSound(was, winWas, cur.lines[..], win.lines[..], top, bot, startw, startw + bsize, win.maxx);
      AlignedLines(was, winWas, cur.lines[..], win.lines[..], top, bot, bsize, startw, starts, win.maxx);
    }

    /** Cleans the unchanged lines at the top and at the bottom. */
    method TrimBoth() returns (top: int, bot: int)
      requires Valid()
      modifies win.lines
      ensures Valid() && SameText() && (old(DirtySound()) ==> DirtySound())
      ensures 0 <= top <= win.maxy && -1 <= bot < win.maxy
      ensures top == FirstChanged(old(win.lines[..]), cur.lines[..], 0)
      ensures bot == LastChanged(old(win.lines[..]), cur.lines[..], win.maxy - 1)
      ensures win.lines[..] == Trimmed(old(win.lines[..]), top, bot)
    {
      hide FirstChanged, LastChanged, SameLine;
      ghost var w := win.lines[..];
      top := TrimTop();
      assert win.lines[..] == Trimmed(w, top, |w|);
      TrimmedTwice(w, cur.lines[..], top);
      bot := TrimBottom();
      TrimmedShown(w, cur.lines[..]);
    }

    /** The scroll that goes with a quick change does what it should. */
    ghost predicate MoveWorks(l: Lines, standout: bool)
      requires 0 < c.cols
    {
      l.move.Some? ==>
        var m := l.move.value;
        m.starts > m.startw ==> ScrollWorks(c, k, Refresh(l.rows, standout), m.top, m.bot, m.starts - m.startw)
    }

    /** The motions of that scroll pass over nothing that they would wipe. */
    ghost predicate MoveRetraces(l: Lines)
      reads this`cury, cur`standout
    {
      l.move.Some? && l.move.value.startw != l.move.value.starts ==> Retraces(l.rows)
    }

    /** There is ND, or nothing in standout in the cursor's row. */
    ghost predicate Retraces(rows: seq<seq<Cell>>)
      reads this`cury, cur`standout
    {
      c.nd.Some? || (!cur.standout && 0 <= cury < |rows| && forall x :: 0 <= x < |rows[cury]| ==> !rows[cury][x].standout)
    }

    lemma NoMoveWorks(l: Lines, standout: bool)
      requires 0 < c.cols && l.move.None?
      ensures MoveWorks(l, standout)
    {
    }

    lemma ThisMoveWorks(l: Lines, top: int, bot: int, startw: int, starts: int)
      requires 0 < c.cols && l.move == Some(BlockMove(top, bot, startw, starts)) && l.rows == RowsOf(cur.lines[..])
      ensures MoveRetraces(l) && startw != starts ==> Retraces(RowsOf(cur.lines[..]))
      ensures MoveWorks(l, cur.standout) <==>
        (starts > startw ==> ScrollWorks(c, k, Refresh(RowsOf(cur.lines[..]), cur.standout), top, bot, starts - startw))
    {
    }

    /** Moves a block that was found, in curscr and on the screen. */
    method MoveBlock(top: int, bot: int, startw: int, starts: int, bsize: int)
      requires Valid() && !NoQuickChange(c, k) && 0 <= top <= bot < win.maxy && 0 <= bsize
      requires top <= startw <= bot - bsize && top <= starts <= bot - bsize
      requires Block(win.lines[..], cur.lines[..], startw, starts, bsize)
      modifies win.lines, cur.lines, mover
      ensures Valid() && SameText()
      ensures old(DirtySound()) ==> DirtySound()
      ensures var q := Aligned(old(win.lines[..]), old(cur.lines[..]), top, bot, bsize, startw, starts, win.maxx);
        win.lines[..] == q.win && RowsOf(cur.lines[..]) == q.rows
      ensures T().mishaps >= old(T().mishaps)
      ensures var q := Aligned(old(win.lines[..]), old(cur.lines[..]), top, bot, bsize, startw, starts, win.maxx);
        Tame() && old(Shown() && CursorAt(cury, curx)) && old(MoveRetraces(q)) ==>
        if old(MoveWorks(q, cur.standout))
        then Shown() && CursorAt(cury, curx) else WentAstray()
    {
      hide MoveWorks, MoveRetraces, Retraces, WentAstray, Tame, RowsOf, EolOf, T, RotatedCells, Aligned, Shown, CursorAt, Shown', CursorAt', Block, Covers;
      ghost var q := Aligned(win.lines[..], cur.lines[..], top, bot, bsize, startw, starts, win.maxx);
      ghost var was := cur.lines[..];
      StepNow(cury, curx);
      AlignBlock(top, bot, startw, starts, bsize);
      ThisMoveWorks(q, top, bot, startw, starts);
      if startw != starts {
        ScrollScreen(was, top, bot, startw, starts);
      } else {
        RotationRows(was, cur.lines[..], top, bot, 0, cur.maxx);
        StepKept(was, cury, curx);
      }
    }

    /** Looks for a block of lines that only moved, and moves it on the screen too. */
    method Quickch()
      requires Valid() && !NoQuickChange(c, k)
      modifies win.lines, cur.lines, mover
      ensures Valid() && SameText()
      ensures old(DirtySound()) ==> DirtySound()
      ensures var q := Quick(old(win.lines[..]), old(cur.lines[..]), win.maxx);
        win.lines[..] == q.win && RowsOf(cur.lines[..]) == q.rows
      ensures T().mishaps >= old(T().mishaps)
      ensures var q := Quick(old(win.lines[..]), old(cur.lines[..]), win.maxx);
        Tame() && old(Shown() && CursorAt(cury, curx)) && old(MoveRetraces(q)) ==>
        if old(MoveWorks(q, cur.standout)) then Shown() && CursorAt(cury, curx) else WentAstray()
    {
      hide MoveWorks, MoveRetraces, Retraces, WentAstray, Tame, RowsOf, EolOf, T, FirstChanged, LastChanged, Search, Aligned, Trimmed,
        Shown, CursorAt, Block, Covers, LineOk, Agree, Addressable;
      ghost var q := Quick(win.lines[..], cur.lines[..], win.maxx);
      if q.move.None? { NoMoveWorks(q, cur.standout); }
      var thresh := win.maxy / 4;
      var top, bot := TrimBoth();
      if top > bot {
        // Every line is unchanged, and the search for a block is over at once.
        return;
      }
      var bsize, startw, starts := FindBlock(win.lines, cur.lines, top, bot, thresh);
      if bsize < thresh {
        return;
      }
      // The adjustments of bot and top to the block have no effect: it lies between them.
      MoveBlock(top, bot, startw, starts, bsize);
    }

    lemma StepKept(was: seq<Line>, y: int, x: int)
      requires RowsOf(cur.lines[..]) == RowsOf(was)
      ensures Shown'(T(), was) ==> Shown()
      ensures CursorAt'(T(), y, x) ==> CursorAt(y, x)
    {
    }

    /** Sends the scroll that matches the rotation of curscr. */
    method ScrollScreen(ghost was: seq<Line>, top: int, bot: int, startw: int, starts: int)
      requires Valid() && !NoQuickChange(c, k) && 0 <= top <= bot < win.maxy && startw != starts
      requires startw - starts <= bot - top && starts - startw <= bot - top
      requires |was| == win.maxy && forall y :: 0 <= y < win.maxy ==> |was[y].cells| == win.maxx
      requires forall y :: 0 <= y < win.maxy && !(top <= y <= bot) ==> cur.lines[y] == was[y]
      requires forall y | top <= y <= bot
        :: cur.lines[y].cells == RotatedCells(was, top, bot - top + 1, startw - starts, y - top, cur.maxx)
      modifies mover
      ensures Valid() && T().mishaps >= old(T().mishaps)
      ensures Tame() && CursorAt'(old(T()), cury, curx) && Shown'(old(T()), was) && Retraces(RowsOf(cur.lines[..])) ==>
        if starts > startw ==> ScrollWorks(c, k, Refresh(RowsOf(cur.lines[..]), cur.standout), top, bot, starts - startw)
        then Shown() && CursorAt(cury, curx) else WentAstray()
    {
      hide Run, UpCmds, DownCmds, ScrollWorks, Retraces, WentAstray, RotatedCells, RowsOf, Shown, CursorAt, Shown', CursorAt', Tame;
      ghost var t, out := T(), mover.out;
      var v := Refresh(RowsOf(cur.lines[..]), cur.standout);
      Scrolln(mover, k, v, starts, startw, bot, top, cury, curx);
      OutputAdds(out, if starts > startw then UpCmds(c, k, v, cury, curx, top, bot, starts - startw)
                      else DownCmds(c, k, v, cury, curx, top, bot, startw - starts));
      RotationRows(was, cur.lines[..], top, bot, startw - starts, cur.maxx);
      if Tame() && CursorAt'(t, cury, curx) && Shown'(t, was) && Retraces(RowsOf(cur.lines[..])) {
        if starts > startw {
          ScrolledUp(t, was, out, v, top, bot, starts - startw);
        } else {
          ScrolledDown(t, was, out, v, top, bot, startw - starts);
        }
      }
    }

    /** The scroll commands bring the terminal to where curscr was rotated to. */
    lemma ScrolledUp(t: Terminal.Term, was: seq<Line>, out: seq<Cmd>, v: View, top: int, bot: int, n: int)
      requires Valid() && !NoQuickChange(c, k) && 0 <= top <= bot < win.maxy && 0 < n <= bot - top
      requires v == Refresh(RowsOf(cur.lines[..]), cur.standout)
      requires t == Run(start, out) && mover.out == out + UpCmds(c, k, v, cury, curx, top, bot, n)
      requires Tame() && CursorAt'(t, cury, curx) && Shown'(t, was) && Retraces(RowsOf(cur.lines[..]))
      requires RowsOf(cur.lines[..]) == ShiftUp(RowsOf(was), cur.maxx, top, bot + 1, n)
      ensures if ScrollWorks(c, k, v, top, bot, n) then Shown() && CursorAt(cury, curx) else WentAstray()
    {
      hide Run, Exec, UpCmds, RowsOf, ScrollWorks;
      RunConcat(start, out, UpCmds(c, k, v, cury, curx, top, bot, n));
      ShiftsKeepWidth(t, top, bot + 1, n);
      ScrollUpWorksIff(c, k, v, t, cury, curx, top, bot, n);
      MishapsStay(start, out);
    }

    lemma ScrolledDown(t: Terminal.Term, was: seq<Line>, out: seq<Cmd>, v: View, top: int, bot: int, n: int)
      requires Valid() && !NoQuickChange(c, k) && 0 <= top <= bot < win.maxy && 0 < n <= bot - top
      requires v == Refresh(RowsOf(cur.lines[..]), cur.standout)
      requires t == Run(start, out) && mover.out == out + DownCmds(c, k, v, cury, curx, top, bot, n)
      requires Tame() && CursorAt'(t, cury, curx) && Shown'(t, was) && Retraces(RowsOf(cur.lines[..]))
      requires RowsOf(cur.lines[..]) == ShiftDown(RowsOf(was), cur.maxx, top, bot + 1, n)
      ensures Shown() && CursorAt(cury, curx)
    {
      hide Run, Exec, DownCmds, RowsOf;
      RunConcat(start, out, DownCmds(c, k, v, cury, curx, top, bot, n));
      ShiftsKeepWidth(t, top, bot + 1, n);
      ScrollDownEffect(c, k, v, t, cury, curx, top, bot, n);
    }

    ghost predicate Shown'(t: Terminal.Term, was: seq<Line>)
      reads cur
    {
      && Matches(c, t) && t.wraps && t.first == 0 && t.end == c.lines
      && t.rows == RowsOf(was) && t.standout == cur.standout && t.mishaps <= start.mishaps
    }

    ghost predicate CursorAt'(t: Terminal.Term, y: int, x: int) {
      OnScreen(c, y, x) && StartsAt(c, t, y, x) && (y == c.lines - 1 ==> t.pos == At(y, x))
    }

    // ---------- the refresh ----------

    /** All of `InStep` that does not depend on what the screen shows. */
    ghost predicate Tracking()
      reads mover, cur
    {
      && Matches(c, T()) && T().wraps && T().first == 0 && T().end == c.lines && T().standout == cur.standout
      && !WentAstray()
    }

    lemma ShownTracks()
      ensures Shown() ==> Tracking()
    {
    }

    /** Recomputes the hashes of the dirty lines. */
    method Rehash()
      requires Valid()
      modifies win.lines
      ensures Valid() && SameText()
      ensures win.lines[..] == Rehashed(old(win.lines[..]), hashOf)
      ensures old(DirtySound()) ==> DirtySound()
    {
      ghost var w := win.lines[..];
      var wy := 0;
      while wy < win.maxy
        invariant 0 <= wy <= win.maxy && Valid()
        invariant forall y :: 0 <= y < win.maxy ==> win.lines[y] == if y < wy then Rehashed(w, hashOf)[y] else w[y]
      {
        if win.lines[wy].dirty {
          win.lines[wy] := win.lines[wy].(hash := hashOf(win.lines[wy].cells));
        }
        wy := wy + 1;
      }
    }

    /** Clears the terminal and curscr. */
    method ClearCurscr()
      requires Valid()
      modifies this, mover`out, cur, cur.lines
      ensures Valid() && cur.lines == old(cur.lines)
      ensures cury == curx == ly == lx == 0 && !cur.clearOk && cur.standout == old(cur.standout)
      ensures SameShown(cur.lines[..], Erased(old(cur.lines[..]), c.cols)) && T().mishaps >= old(T().mishaps)
      ensures Tame() && old(Tracking()) ==> Shown() && CursorAt(0, 0)
      ensures old(Sayable()) ==> Sayable()
    {
      hide Run, Exec, RowsOf, EolOf, WindowText.Erase, Shown, CursorAt, Tame, SayableOf;
      ghost var t := T();
      Send(ClearScreen);
      ly, lx := 0, 0;
      cur.clearOk := false;
      cury, curx := 0, 0;
      cur.Werase();
      BlankScreen(cur.lines[..], c.cols);
      BlankIsSayable(RowsOf(win.lines[..]), old(RowsOf(cur.lines[..])), RowsOf(cur.lines[..]));
      if old(Tracking()) {
        ClearedShown(t);
      }
    }

    lemma BlankIsSayable(w: seq<seq<Cell>>, was: seq<seq<Cell>>, now: seq<seq<Cell>>)
      requires 0 <= c.cols && now == seq(|now|, _ => BlankRow(c.cols))
      ensures SayableOf(w, was, cur.standout) ==> SayableOf(w, now, cur.standout)
    {
    }

    lemma ClearedShown(t: Terminal.Term)
      requires Valid() && T() == Exec(t, ClearScreen)
      requires Matches(c, t) && t.wraps && t.first == 0 && t.end == c.lines && t.standout == cur.standout
      requires t.mishaps <= start.mishaps
      requires RowsOf(cur.lines[..]) == seq(|cur.lines[..]|, _ => BlankRow(c.cols))
      ensures Shown() && CursorAt(0, 0)
    {
      hide Run, RowsOf;
    }

    /** Clears the terminal and curscr, and marks the whole window dirty. */
    method ClearAll()
      requires Valid()
      modifies this, mover`out, cur, cur.lines, win.lines
      ensures Valid() && SameText() && DirtySound()
      ensures cury == curx == ly == lx == 0 && !cur.clearOk && cur.lines == old(cur.lines) && cur.standout == old(cur.standout)
      ensures win.lines[..] == AllTouched(old(win.lines[..]), win.maxx)
      ensures SameShown(cur.lines[..], Erased(old(cur.lines[..]), c.cols)) && T().mishaps >= old(T().mishaps)
      ensures Tame() && old(Tracking()) ==> Shown() && CursorAt(0, 0)
      ensures old(Sayable()) ==> Sayable()
    {
      hide T, RowsOf, EolOf, Tame, Tracking, SameShown, Erased, SayableOf;
      ClearCurscr();
      ghost var w := win.lines[..];
      win.Touchwin();
      TouchedText(w, win.lines[..], win.maxx);
    }

    method CountDirty() returns (dnum: int)
      requires Valid()
      ensures dnum == DirtyCount(win.lines[..])
    {
      dnum := 0;
      var wy := 0;
      while wy < win.maxy
        invariant 0 <= wy <= win.maxy && dnum == DirtyCount(win.lines[..wy])
      {
        assert win.lines[..wy + 1][..wy] == win.lines[..wy];
        if win.lines[wy].dirty || win.lines[wy].force {
          dnum := dnum + 1;
        }
        wy := wy + 1;
      }
      assert win.lines[..wy] == win.lines[..];
    }

    /** One turn of the painting loop: paints the line if it is dirty and cleans it. */
    method RefreshLine(wy: int)
      requires Valid() && 0 <= wy < win.maxy
      modifies mover, cur`standout, cur.lines, win.lines, this`ly, this`lx
      ensures Valid() && SameText() && !win.lines[wy].dirty && (old(Resting()) ==> Resting())
      ensures forall y :: 0 <= y < win.maxy && y != wy ==>
        cur.lines[y] == old(cur.lines[y]) && win.lines[y] == old(win.lines[y])
      ensures forall x | 0 <= x < win.maxx && (old(Covers(win.lines[wy], x)) || old(Agree(wy, x)))
        :: Corner(c.lines, c.cols, wy, x) || Agree(wy, x)
      ensures T().mishaps >= old(T().mishaps)
      ensures ly == if !old(win.lines[wy].dirty) then old(ly)
                    else if old(NeedsPaint(win.lines[wy], cur.lines[wy].cells)) then wy
                    else old(ly) + old(Below(win.lines[..], wy))
      ensures lx == if !old(win.lines[wy].dirty) then old(lx)
                    else if old(NeedsPaint(win.lines[wy], cur.lines[wy].cells))
                    then old(EndColumn(win.lines[wy], cur.lines[wy].cells, wy == c.lines - 1, p.ce))
                    else if old(Below(win.lines[..], wy)) > 0 then 0 else old(lx)
      ensures Drivable() && old(InStep() && CursorAt(ly, lx)) ==>
        if old(win.lines[wy].dirty && ly + Below(win.lines[..], wy) >= c.lines) then WentAstray()
        else InStep() && CursorAt(ly, lx)
    {
      hide Drivable, InStep, CursorAt, T, Run, RowsOf, EolOf, WentAstray, EndColumn;
      ghost var w := win.lines[..];
      CopyHash(wy);
      assert forall x :: 0 <= x < win.maxx ==> Agree(wy, x) == old(Agree(wy, x));
      if win.lines[wy].dirty || win.lines[wy].force {
        Makech(wy);
        assert forall x | 0 <= x < win.maxx && (old(Covers(win.lines[wy], x)) || old(Agree(wy, x)))
          :: Corner(c.lines, c.cols, wy, x) || Agree(wy, x);
        label painted:
        Clean(wy);
        assert forall x :: 0 <= x < win.maxx ==> Agree(wy, x) == old@painted(Agree(wy, x));
      }
      SameRows(w, win.lines[..]);
    }

    method CopyHash(wy: int)
      requires Valid() && 0 <= wy < win.maxy
      modifies cur.lines
      ensures Valid() && cur.lines[..] == old(cur.lines[..])[wy := cur.lines[wy]] && cur.lines[wy].cells == old(cur.lines[wy].cells)
      ensures old(InStep()) ==> InStep()
    {
      hide T;
      ghost var a := cur.lines[..];
      cur.lines[wy] := cur.lines[wy].(hash := win.lines[wy].hash);
      assert RowsOf(cur.lines[..]) == RowsOf(a);
    }

    /** Empties the interval of a line that has been painted. */
    method Clean(wy: int)
      requires Valid() && 0 <= wy < win.maxy && win.lines[wy].dirty && !win.lines[wy].force
      modifies win.lines
      ensures Valid() && !win.lines[wy].dirty
      ensures win.lines[..] == old(win.lines[..])[wy := win.lines[wy]]
      ensures win.lines[wy].cells == old(win.lines[wy].cells) && win.lines[wy].pastEol == old(win.lines[wy].pastEol)
      ensures old(InStep()) ==> InStep()
    {
      hide T;
      var l := win.lines[wy];
      if l.firstch >= 0 {
        l := l.(firstch := win.maxx);
      }
      if l.lastch < win.maxx {
        l := l.(lastch := 0);
      }
      if l.lastch < l.firstch {
        l := l.(dirty := false);
      }
      win.lines[wy] := l;
      assert RowsOf(win.lines[..]) == old(RowsOf(win.lines[..]));
    }

    /** The lines already refreshed agree; the others are still soundly marked. */
    ghost predicate Progress(wy: int)
      requires Valid()
      reads this, win, win.lines, cur, cur.lines
    {
      forall y, x | 0 <= y < win.maxy && 0 <= x < win.maxx
        :: Corner(win.maxy, win.maxx, y, x) || Agree(y, x) || (wy <= y && Covers(win.lines[y], x))
    }

    /** The painting loop of wrefresh.  It keeps the terminal in step exactly as long as the
        output stays on the screen. */
    method RefreshLines()
      requires Valid()
      modifies mover, cur`standout, cur.lines, win.lines, this`ly, this`lx
      ensures Valid() && SameText() && T().mishaps >= old(T().mishaps) && (old(Resting()) ==> Resting())
      ensures forall y :: 0 <= y < win.maxy ==> !win.lines[y].dirty
      ensures old(DirtySound()) ==> Refreshed()
      ensures ly == old(OutRow(win.lines[..], RowsOf(cur.lines[..]), ly, win.maxy))
      ensures lx == old(OutCol(win.lines[..], RowsOf(cur.lines[..]), lx, p.ce, win.maxy))
      ensures Drivable() && old(InStep() && CursorAt(ly, lx)) ==>
        if old(StaysOnScreen(win.lines[..], RowsOf(cur.lines[..]), ly)) then InStep() && CursorAt(ly, lx)
        else WentAstray()
    {
      hide Drivable, InStep, CursorAt, EolOf, Covers, NeedsPaint, T, OutRow, OutCol, EndColumn, StepsOff, LineOk, Addressable;
      ghost var w, rows, r0, c0 := win.lines[..], RowsOf(cur.lines[..]), ly, lx;
      assert old(DirtySound()) ==> Progress(0);
      OutRowStart(w, rows, r0);
      var wy := 0;
      while wy < win.maxy
        invariant 0 <= wy <= win.maxy && Valid() && SameText() && (old(Resting()) ==> Resting())
        invariant T().mishaps >= old(T().mishaps)
        invariant forall y :: 0 <= y < wy ==> !win.lines[y].dirty
        invariant forall y :: wy <= y < win.maxy ==> win.lines[y] == w[y] && cur.lines[y].cells == rows[y]
        invariant old(DirtySound()) ==> Progress(wy)
        invariant ly == OutRow(w, rows, r0, wy) && lx == OutCol(w, rows, c0, p.ce, wy)
        invariant Drivable() && old(InStep() && CursorAt(ly, lx)) ==>
          if forall y :: 0 <= y < wy ==> !StepsOff(w, rows, r0, y) then InStep() && CursorAt(ly, lx) else WentAstray()
      {
        OutRowStep(w, rows, r0, wy);
        OutColStep(w, rows, c0, p.ce, wy);
        SameBelow(w, win.lines[..], wy);
        RefreshLine(wy);
        wy := wy + 1;
      }
    }

    /** Leaves the cursor where the window wants it, or the window's cursor where the
        terminal's was left, if that is on the screen. */
    method Finish()
      requires Valid()
      modifies this, mover, cur`standout, win`cury, win`curx
      ensures Valid() && T().mishaps >= old(T().mishaps) && (old(Resting()) ==> Resting())
      ensures win.leaveOk ==> cury == old(ly) && curx == old(lx) && (win.cury, win.curx) == OnWindow(cury, curx)
      ensures !win.leaveOk ==> win.cury == cury == old(win.cury) && win.curx == curx == old(win.curx)
      ensures Drivable() && old(InStep() && CursorAt(ly, lx)) ==> InStep() && CursorAt(cury, curx)
    {
      hide Drivable, T;
      if win.leaveOk {
        cury, curx := ly, lx;
        if ly < win.maxy && lx < win.maxx {
          win.cury, win.curx := ly, lx;
        } else {
          win.cury, win.curx := 0, 0;
        }
      } else {
        Domvcur(ly, lx, win.cury, win.curx);
        cury, curx := win.cury, win.curx;
      }
    }

    /** The position, if it is on the screen, and else the upper left corner. */
    function OnWindow(y: int, x: int): (int, int) {
      if 0 <= y < c.lines && 0 <= x < c.cols then (y, x) else (0, 0)
    }

    /** Where the output position starts: a requested clear homes the cursor. */
    function StartRow(): int
      reads this, win, cur
    {
      if win.clearOk || cur.clearOk then 0 else cury
    }

    function StartCol(): int
      reads this, win, cur
    {
      if win.clearOk || cur.clearOk then 0 else curx
    }

    /** Where the output of a refresh ends. */
    ghost function Landing(s: Snapshot): (int, int)
      requires |s.win| == |s.cur| && 0 < c.cols
    {
      var l := ToCome(s);
      (OutRow(l.win, l.rows, if s.clear then 0 else s.cury, |l.win|), OutCol(l.win, l.rows, if s.clear then 0 else s.curx, p.ce, |l.win|))
    }

    /** What the course of the next refresh depends on. */
    ghost function Shot(): Snapshot
      reads this, win, win.lines, cur, cur.lines
    {
      Snapshot(win.lines[..], cur.lines[..], cury, curx, win.clearOk || cur.clearOk, cur.standout)
    }

    /** The window's lines and what curscr shows, as the painting loop of the next refresh
        will find them: after the hashes, the clear and the quick change. */
    ghost function Upcoming(): (l: Lines)
      requires Valid()
      reads this, win, win.lines, cur, cur.lines
      ensures |l.win| == |l.rows| == win.maxy
    {
      ToCome(Shot())
    }

    ghost function ToCome(s: Snapshot): (l: Lines)
      requires |s.win| == |s.cur| && 0 < c.cols
      ensures |l.win| == |l.rows| == |s.win|
    {
      var w := Rehashed(s.win, hashOf);
      if s.clear then Hurried(AllTouched(w, c.cols), Erased(s.cur, c.cols)) else Hurried(w, s.cur)
    }

    /** The quick change, if there is one. */
    ghost function Hurried(w: seq<Line>, cl: seq<Line>): (l: Lines)
      requires |w| == |cl| && 0 <= c.cols
      ensures |l.win| == |l.rows| == |w|
    {
      if !NoQuickChange(c, k) && DirtyCount(w) > |w| / 4 then Quick(w, cl, c.cols) else Lines(w, RowsOf(cl), None)
    }

    /** With more than a quarter of the lines dirty, a block of that size that only moved is not
        painted again. */
    lemma HurryFindsBlock(w: seq<Line>, cl: seq<Line>, n: int, y: int, y': int)
      requires |w| == |cl| && 0 < c.cols && !NoQuickChange(c, k) && DirtyCount(w) > |w| / 4
      requires 4 * n + 3 >= |w| && 0 <= n && Block(w, cl, y, y', n)
      requires FirstChanged(w, cl, 0) <= y && y + n <= LastChanged(w, cl, |w| - 1)
      requires FirstChanged(w, cl, 0) <= y' && y' + n <= LastChanged(w, cl, |w| - 1)
      ensures var l := Hurried(w, cl); l.move.Some? && exists b :: b >= n && LeftAlone(l, w, l.move.value.startw, b)
    {
      hide Quick, Block, FirstChanged, LastChanged, LeftAlone;
      QuickFindsBlock(w, cl, c.cols, n, y, y');
    }

    /** The output of the next refresh never steps below the last row, and the scroll of its
        quick change works. */
    ghost predicate RefreshStays()
      requires Valid()
      reads this, win, win.lines, cur, cur.lines
    {
      Stays(Shot())
    }

    ghost predicate Stays(s: Snapshot)
      requires |s.win| == |s.cur| && 0 < c.cols
    {
      MoveWorks(ToCome(s), s.standout) && StaysOnScreen(ToCome(s).win, ToCome(s).rows, if s.clear then 0 else s.cury)
    }

    /** The terminal shows what curscr says, or is about to be cleared. */
    ghost predicate Synchronized()
      reads this, mover, win, cur, cur.lines
    {
      if cur.clearOk then Tracking() else Shown() && CursorAt(cury, curx)
    }

    /** The start of a refresh: hashes, and the clear if one was asked for. */
    method Prepare()
      requires Valid()
      modifies this, win, win.lines, cur, cur.lines, mover`out
      ensures Valid() && SameText() && win.lines == old(win.lines) && cur.lines == old(cur.lines)
      ensures !win.clearOk && !cur.clearOk && win.scrollOk == old(win.scrollOk) && win.standout == old(win.standout)
      ensures win.leaveOk == old(win.leaveOk) && cur.standout == old(cur.standout)
      ensures win.cury == old(win.cury) && win.curx == old(win.curx)
      ensures ly == cury == old(StartRow()) && lx == curx == old(StartCol())
      ensures old(DirtySound()) ==> DirtySound()
      ensures Hurried(win.lines[..], cur.lines[..]) == old(Upcoming()) && T().mishaps >= old(T().mishaps)
      ensures Tame() && old(Synchronized()) ==> Shown() && CursorAt(cury, curx)
      ensures old(Sayable()) ==> Sayable()
    {
      hide Tame, Shown, SayableOf, CursorAt, RowsOf, EolOf, T, Covers, Tracking, Rehashed, AllTouched, Erased, SameShown, Hurried,
        Agree, LineOk, Addressable;
      ghost var cl := cur.lines[..];
      ShownTracks();
      ly, lx := cury, curx;
      Rehash();
      if win.clearOk || cur.clearOk {
        ClearAll();
        win.clearOk := false;
        HurriedLooksAtShown(win.lines[..], cur.lines[..], Erased(cl, c.cols));
      }
    }

    lemma HurriedLooksAtShown(w: seq<Line>, a: seq<Line>, b: seq<Line>)
      requires |w| == |a| && SameShown(a, b) && 0 <= c.cols
      ensures |b| == |w| && Hurried(w, a) == Hurried(w, b)
    {
      QuickLooksAtShown(w, a, b, c.cols);
      SameRowsShown(a, b);
    }

    lemma CursorOnScreen()
      ensures CursorAt(cury, curx) ==> OnScreen(c, cury, curx)
    {
    }

    /** A quick change brings nothing into standout. */
    lemma QuickIsSayable(w: seq<Line>, cl: seq<Line>)
      requires |w| == |cl| && 0 <= cury < |w| && 0 <= c.cols
      requires SayableOf(RowsOf(w), RowsOf(cl), cur.standout)
      ensures var q := Quick(w, cl, c.cols); MoveRetraces(q) && SayableOf(RowsOf(w), q.rows, cur.standout)
    {
      hide Search, Trimmed, RotatedCells;
      var q := Quick(w, cl, c.cols);
      if !Accents() && q.move.Some? {
        QuickRows(w, cl, c.cols);
        assert forall y :: 0 <= y < |cl| ==> RowsOf(cl)[y] == cl[y].cells;
      }
    }

    /** The quick change, if more than a quarter of the lines are dirty. */
    method Hurry()
      requires Valid()
      modifies win.lines, cur.lines, mover
      ensures Valid() && SameText()
      ensures old(DirtySound()) ==> DirtySound()
      ensures var q := old(Hurried(win.lines[..], cur.lines[..])); win.lines[..] == q.win && RowsOf(cur.lines[..]) == q.rows
      ensures T().mishaps >= old(T().mishaps)
      ensures Tame() && old(InStep() && CursorAt(cury, curx)) ==>
        if old(MoveWorks(Hurried(win.lines[..], cur.lines[..]), cur.standout)) then InStep() && CursorAt(cury, curx) else WentAstray()
    {
      hide Tame, Shown, SayableOf, CursorAt, WentAstray, RowsOf, EolOf, T, Covers, Quick, Agree, LineOk, MoveWorks, MoveRetraces;
      CursorOnScreen();
      if Tame() && InStep() && CursorAt(cury, curx) {
        QuickIsSayable(win.lines[..], cur.lines[..]);
      }
      var dnum := CountDirty();
      if !NoQuickChange(c, k) && dnum > win.maxy / 4 {
        Quickch();
      } else {
        NoMoveWorks(Hurried(win.lines[..], cur.lines[..]), cur.standout);
      }
    }

    /** Everything before the painting loop. */
    method PrepareLines()
      requires Valid()
      modifies this, win, win.lines, cur, cur.lines, mover
      ensures Valid() && SameText() && win.lines == old(win.lines) && cur.lines == old(cur.lines)
      ensures !win.clearOk && !cur.clearOk && win.scrollOk == old(win.scrollOk) && win.standout == old(win.standout)
      ensures win.leaveOk == old(win.leaveOk) && cur.standout == old(cur.standout)
      ensures win.cury == old(win.cury) && win.curx == old(win.curx)
      ensures old(DirtySound()) ==> DirtySound()
      ensures ly == old(StartRow()) && lx == old(StartCol())
      ensures win.lines[..] == old(Upcoming()).win && RowsOf(cur.lines[..]) == old(Upcoming()).rows
      ensures T().mishaps >= old(T().mishaps)
      ensures Tame() && old(Synchronized() && Sayable()) ==>
        if old(MoveWorks(Upcoming(), cur.standout)) then InStep() && CursorAt(ly, lx) else WentAstray()
    {
      hide Tame, Shown, SayableOf, CursorAt, RowsOf, EolOf, T, Covers, Tracking, Hurried, Rehashed, AllTouched, Erased, Agree,
        LineOk, MoveWorks;
      Prepare();
      Hurry();
    }

    /** A refresh changes no text.  It leaves curscr equal to the window everywhere but in
        the corner.  It keeps the terminal equal to curscr if and only if its output stays on
        the screen and the scroll of its quick change works. */
    method Wrefresh()
      requires Valid()
      modifies this, win, win.lines, cur, cur.lines, mover
      ensures Valid() && SameText() && win.lines == old(win.lines) && cur.lines == old(cur.lines)
      ensures !win.clearOk && !cur.clearOk && win.scrollOk == old(win.scrollOk) && win.standout == old(win.standout)
      ensures win.leaveOk == old(win.leaveOk) && (old(Resting()) ==> Resting())
      ensures !win.leaveOk ==> win.cury == cury == old(win.cury) && win.curx == curx == old(win.curx)
      ensures win.leaveOk ==> (cury, curx) == old(Landing(Shot())) && (win.cury, win.curx) == OnWindow(cury, curx)
      ensures forall y :: 0 <= y < win.maxy ==> !win.lines[y].dirty
      ensures old(DirtySound()) ==> DirtySound() && Refreshed()
      ensures T().mishaps >= old(T().mishaps)
      ensures Drivable() && old(Synchronized() && Sayable()) ==>
        if old(RefreshStays()) then InStep() && CursorAt(cury, curx) else WentAstray()
    {
      hide Tame, InStep, CursorAt, RowsOf, EolOf, T, Covers, Tracking, StaysOnScreen, OutRow, OutCol, Agree, ToCome, Shown, SayableOf, MoveWorks;
      PrepareLines();
      RefreshLines();
      Finish();
    }

    // ---------- whole sessions ----------

    /** The terminal shows the window, except possibly in the corner. */
    ghost predicate TerminalShowsWindow()
      requires Valid()
      reads this, mover, win, win.lines, cur, cur.lines
    {
      && T().Term? && |T().rows| == win.maxy
      && forall y, x | 0 <= y < win.maxy && 0 <= x < win.maxx && !Corner(win.maxy, win.maxx, y, x)
           :: x < |T().rows[y]| && T().rows[y][x] == win.lines[y].cells[x]
    }

    /** An edit that tracks its changes keeps the marking sound, whatever curscr holds. */
    twostate lemma EditKeepsSound()
      requires old(Valid()) && Valid() && old(DirtySound())
      requires cur.lines == old(cur.lines) && cur.lines[..] == old(cur.lines[..])
      requires Tracks(old(win.lines[..]), win.lines[..], win.maxx)
      ensures DirtySound()
    {
    }

    /** What the application sees of the window, and what it has set. */
    ghost function State(): (e: Editing)
      requires Valid()
      reads this, win, win.lines, cur, cur.lines
      ensures Shape(e.text)
    {
      Editing(win.View(), win.scrollOk, win.standout, win.leaveOk)
    }

    /** Edits of single lines. */
    method EditCells(op: Op, ghost nonl: bool)
      requires Valid() && DirtySound() && (op.Delch? || op.Clrtoeol? || op.Clrtobot? || op.EraseAll?)
      modifies win.lines
      ensures Valid() && DirtySound() && win.lines == old(win.lines)
      ensures State() == Edit(old(State()), op, nonl) && Tracks(old(win.lines[..]), win.lines[..], win.maxx)
      ensures old(Synchronized()) ==> Synchronized()
    {
      hide InStep, Tracking, T, Tracks, RowsOf, EolOf, Covers, Touched, DeleteChar, ClearToEol, ClearToBottom, Erase;
      match op
      case Delch => win.Wdelch(); EditKeepsSound();
      case Clrtoeol => win.Wclrtoeol(); EditKeepsSound();
      case Clrtobot => win.Wclrtobot(); EditKeepsSound();
      case EraseAll => win.Werase(); EditKeepsSound();
    }

    /** Edits that move lines or the cursor. */
    method EditLines(op: Op, ghost nonl: bool)
      requires Valid() && DirtySound() && (op.Deleteln? || op.Insertln? || op.ScrollUpLine? || op.Move?)
      modifies win`cury, win`curx, win.lines
      ensures Valid() && DirtySound() && win.lines == old(win.lines)
      ensures State() == Edit(old(State()), op, nonl) && Tracks(old(win.lines[..]), win.lines[..], win.maxx)
      ensures old(Synchronized()) ==> Synchronized()
    {
      hide InStep, Tracking, T, Tracks, RowsOf, EolOf, Covers, Touched, DeleteLine, InsertLine, ScrollText, MoveCursor;
      match op
      case Deleteln => win.Wdeleteln(); EditKeepsSound();
      case Insertln => win.Winsertln(); EditKeepsSound();
      case ScrollUpLine => var _ := win.Scroll(); EditKeepsSound();
      case Move(y, x) => var _ := win.Wmove(y, x); EditKeepsSound();
    }

    /** Typing. */
    method EditTyped(op: Op, nonl: bool)
      requires Valid() && DirtySound() && op.AddBytes?
      modifies win`cury, win`curx, win.lines
      ensures Valid() && DirtySound() && win.lines == old(win.lines)
      ensures State() == Edit(old(State()), op, nonl) && Tracks(old(win.lines[..]), win.lines[..], win.maxx)
      ensures old(Synchronized()) ==> Synchronized()
    {
      hide Shown, Tracking, T, Tracks, RowsOf, EolOf, Covers, Written, TypeAll, Shape;
      var _ := win.Waddbytes(op.bytes, op.so, nonl);
      EditKeepsSound();
    }

    /** The options, and the request for a clear. */
    method EditFlags(op: Op, ghost nonl: bool)
      requires Valid() && DirtySound() && (op.SetModes? || op.Clearok?)
      modifies win`scrollOk, win`standout, win`leaveOk, win`clearOk
      ensures Valid() && DirtySound()
      ensures State() == Edit(old(State()), op, nonl) && Tracks(win.lines[..], win.lines[..], win.maxx)
      ensures op.Clearok? || win.clearOk == old(win.clearOk)
      ensures old(Synchronized()) ==> Synchronized()
    {
      hide Shown, Tracking, T, Tracks, RowsOf, EolOf, Covers, Shape;
      SameTracks(win.lines[..], win.maxx);
      match op
      case SetModes(scrollOk, standout, leaveOk) =>
        win.scrollOk, win.standout, win.leaveOk := scrollOk, standout, leaveOk;
      case Clearok(on) => win.clearOk := on;
    }

    /** Every other call than a refresh. */
    method EditText(op: Op, nonl: bool)
      requires Valid() && DirtySound() && !op.Repaint?
      modifies win, win.lines
      ensures Valid() && DirtySound() && win.lines == old(win.lines)
      ensures State() == Edit(old(State()), op, nonl) && Tracks(old(win.lines[..]), win.lines[..], win.maxx)
      ensures op.Clearok? || win.clearOk == old(win.clearOk)
      ensures old(Synchronized()) ==> Synchronized()
    {
      hide Edit, Shown, Tracking, T, Tracks, RowsOf, EolOf, Covers, Agree, Shape, LineOk, Addressable;
      if op.AddBytes? {
        EditTyped(op, nonl);
      } else if op.SetModes? || op.Clearok? {
        EditFlags(op, nonl);
      } else if op.Delch? || op.Clrtoeol? || op.Clrtobot? || op.EraseAll? {
        EditCells(op, nonl);
      } else {
        EditLines(op, nonl);
      }
    }

    method DoRefresh(ghost nonl: bool)
      requires Valid() && DirtySound()
      modifies this, win, win.lines, cur, cur.lines, mover
      ensures Valid() && DirtySound() && win.lines == old(win.lines) && cur.lines == old(cur.lines)
      ensures Refreshed() && Follows(old(State()), Repaint, nonl, State())
      ensures Lands(old(State()), old(Shot()), Repaint, State(), Shot()) && (old(Resting()) ==> Resting())
      ensures !win.clearOk && !cur.clearOk && forall y :: 0 <= y < win.maxy ==> !win.lines[y].dirty
      ensures T().mishaps >= old(T().mishaps)
      ensures Drivable() && old(Synchronized() && Sayable()) ==>
        if old(RefreshStays()) then Synchronized() && Sayable() && TerminalShowsWindow() else WentAstray()
    {
      hide Drivable, T, RefreshStays, SayableOf, Landing;
      Wrefresh();
    }

    /** A refresh leaves the cursor where the window has it, or, under LEAVEOK, both where its
        output ended. */
    ghost predicate Lands(e: Editing, s: Snapshot, op: Op, e': Editing, s': Snapshot) {
      && |s.win| == |s.cur| && 0 < c.cols
      && (op.Repaint? ==>
            && (s'.cury, s'.curx) == (if e.leaveOk then Landing(s) else (e.text.cy, e.text.cx))
            && (e.leaveOk ==> (e'.text.cy, e'.text.cx) == OnWindow(Landing(s).0, Landing(s).1)))
    }

    ghost predicate AllLand(es: seq<Editing>, ss: seq<Snapshot>, ops: seq<Op>) {
      |es| == |ss| == |ops| + 1 && forall i :: 0 <= i < |ops| ==> Lands(es[i], ss[i], ops[i], es[i + 1], ss[i + 1])
    }

    lemma LandsStep(es: seq<Editing>, ss: seq<Snapshot>, ops: seq<Op>, op: Op, e: Editing, s: Snapshot)
      requires AllLand(es, ss, ops) && Lands(es[|ops|], ss[|ops|], op, e, s)
      ensures AllLand(es + [e], ss + [s], ops + [op])
    {
      hide Lands;
    }

    lemma NothingLands(e: Editing, s: Snapshot)
      ensures AllLand([e], [s], [])
    {
    }

    /** Curscr holds nothing in standout that the terminal could not show. */
    ghost predicate CurSayable()
      reads cur, cur.lines
    {
      SayableOf([], RowsOf(cur.lines[..]), cur.standout)
    }

    lemma SayableParts()
      requires Valid()
      ensures Sayable() <==> CurSayable() && (Accents() || Unlit(State().text.rows))
    {
    }

    /** One call of the library by the application.  The window's text and modes become what
        the call is documented to make of them.  The terminal stays in step, except after
        exactly those refreshes that could be seen to go astray before. */
    method Apply(op: Op, nonl: bool)
      requires Valid() && DirtySound()
      modifies this, win, win.lines, cur, cur.lines, mover
      ensures Valid() && DirtySound() && win.lines == old(win.lines) && cur.lines == old(cur.lines)
      ensures Follows(old(State()), op, nonl, State()) && Turns(old(Shot()), op, Shot(), c.cols)
      ensures Lands(old(State()), old(Shot()), op, State(), Shot()) && (old(Resting()) ==> Resting())
      ensures op.Repaint? ==> Refreshed()
      ensures T().mishaps >= old(T().mishaps)
      ensures Drivable() && old(Synchronized()) && (op.Repaint? ==> old(Sayable())) ==>
        if op.Repaint? && !old(RefreshStays()) then WentAstray()
        else Synchronized() && (op.Repaint? ==> Sayable() && TerminalShowsWindow())
      ensures !op.Repaint? && old(CurSayable()) ==> CurSayable()
    {
      hide Drivable, Shown, Tracking, T, RowsOf, EolOf, Edit, RefreshStays, SayableOf, Tracks, Covers, Shape, Landing;
      ghost var was := Shot();
      if op.Repaint? {
        DoRefresh(nonl);
        RefreshTurns(was);
      } else {
        EditText(op, nonl);
      }
    }

    lemma RefreshTurns(was: Snapshot)
      requires Valid() && Refreshed() && !win.clearOk && !cur.clearOk
      requires forall y :: 0 <= y < win.maxy ==> !win.lines[y].dirty
      ensures Turns(was, Repaint, Shot(), c.cols)
    {
      forall y, x | 0 <= y < win.maxy && 0 <= x < c.cols
        ensures Corner(win.maxy, c.cols, y, x) || win.lines[y].cells[x] == cur.lines[y].cells[x]
      {
        assert Corner(win.maxy, win.maxx, y, x) || Agree(y, x);
      }
    }

    /** The run so far keeps curscr sayable and the terminal in step unless a refresh went
        astray, which is to be seen before it. */
    ghost predicate OnCourse(ops: seq<Op>, ss: seq<Snapshot>)
      requires Valid() && |ss| > |ops|
      requires forall i :: 0 <= i < |ss| ==> |ss[i].win| == |ss[i].cur|
      reads this, mover, win, win.lines, cur, cur.lines
    {
      && (WentAstray() <==> exists i :: 0 <= i < |ops| && ops[i].Repaint? && !Stays(ss[i]))
      && (WentAstray() || (Synchronized() && CurSayable()))
    }

    lemma InStepIsNotAstray()
      ensures Synchronized() ==> !WentAstray()
    {
    }

    lemma CourseStarts()
      requires Valid()
      ensures Synchronized() && CurSayable() ==> OnCourse([], [Shot()])
    {
      InStepIsNotAstray();
      hide Synchronized, CurSayable, WentAstray;
    }

    lemma CourseMeans(ops: seq<Op>, ss: seq<Snapshot>)
      requires Valid() && |ss| == |ops| + 1 && forall i :: 0 <= i < |ss| ==> |ss[i].win| == |ss[i].cur|
      ensures OnCourse(ops, ss) ==>
        && (WentAstray() <==> exists i :: 0 <= i < |ops| && ops[i].Repaint? && !Stays(ss[i]))
        && (!WentAstray() ==> Synchronized())
    {
      hide Stays, WentAstray, Synchronized;
    }

    /** One call more keeps the run on its course. */
    method Turn(op: Op, nonl: bool, ghost done: seq<Op>, ghost ss: seq<Snapshot>)
      requires Valid() && DirtySound()
      requires |ss| == |done| + 1 && ss[|done|] == Shot() && forall i :: 0 <= i < |ss| ==> |ss[i].win| == |ss[i].cur|
      modifies this, win, win.lines, cur, cur.lines, mover
      ensures Valid() && DirtySound() && win.lines == old(win.lines) && cur.lines == old(cur.lines)
      ensures Follows(old(State()), op, nonl, State()) && Turns(old(Shot()), op, Shot(), c.cols)
      ensures Lands(old(State()), old(Shot()), op, State(), Shot()) && (old(Resting()) ==> Resting())
      ensures op.Repaint? ==> Refreshed()
      ensures T().mishaps >= old(T().mishaps)
      ensures Drivable() && old(OnCourse(done, ss)) && (Accents() || old(Unlit(State().text.rows))) ==>
        OnCourse(done + [op], ss + [Shot()]) && (!WentAstray() && op.Repaint? ==> TerminalShowsWindow())
    {
      hide Tracking, T, RowsOf, EolOf, Shown, Follows, Turns, Drivable, Refreshed, TerminalShowsWindow, Stays, DirtySound,
        Shape, Covers, SayableOf, Unlit, CursorAt, Synchronized, CurSayable, Sayable, Lands;
      SayableParts();
      ghost var stays := RefreshStays();
      Apply(op, nonl);
      InStepIsNotAstray();
      SayableParts();
      StraysLonger(done, ss, op, Shot());
    }

    lemma StraysLonger(done: seq<Op>, ss: seq<Snapshot>, op: Op, s: Snapshot)
      requires |ss| == |done| + 1 && forall i :: 0 <= i < |ss| ==> |ss[i].win| == |ss[i].cur|
      requires |s.win| == |s.cur| && 0 < c.cols
      ensures (exists i :: 0 <= i < |done + [op]| && (done + [op])[i].Repaint? && !Stays((ss + [s])[i])) <==>
        (exists i :: 0 <= i < |done| && done[i].Repaint? && !Stays(ss[i])) || (op.Repaint? && !Stays(ss[|done|]))
    {
      hide Stays;
      var d, t := done + [op], ss + [s];
      if i :| 0 <= i < |done| && done[i].Repaint? && !Stays(ss[i]) {
        assert d[i].Repaint? && !Stays(t[i]);
      }
      if op.Repaint? && !Stays(ss[|done|]) {
        assert d[|done|].Repaint? && !Stays(t[|done|]);
      }
      if i :| 0 <= i < |d| && d[i].Repaint? && !Stays(t[i]) {
        assert i < |done| ==> done[i].Repaint? && !Stays(ss[i]);
      }
    }

    /** Any sequence of calls.  The window goes through the states that the calls, one after
        the other, make of its text; without LEAVEOK these are the fold of `Edit` over the
        calls.  If the last call is a refresh, curscr equals the window except possibly in
        the corner.  Something goes astray exactly if the state before one of the refreshes
        says so; if not, the terminal is in step, and after a refresh it shows the window. */
    method Drive(ops: seq<Op>, nonl: bool) returns (ghost es: seq<Editing>, ghost ss: seq<Snapshot>)
      requires Valid() && DirtySound()
      modifies this, win, win.lines, cur, cur.lines, mover
      ensures Valid() && DirtySound()
      ensures Trace(es, ops, nonl) && es[0] == old(State()) && es[|ops|] == State()
      ensures Shots(es, ss, ops, c.cols) && ss[0] == old(Shot()) && ss[|ops|] == Shot()
      ensures AllLand(es, ss, ops) && (old(Resting()) ==> Resting())
      ensures NeverLeaves(ops) && !old(win.leaveOk) ==> State() == EditAll(old(State()), ops, nonl)
      ensures |ops| > 0 && ops[|ops| - 1].Repaint? ==> Refreshed()
      ensures T().mishaps >= old(T().mishaps)
      ensures Drivable() && old(Synchronized() && CurSayable()) && (Accents() || AllUnlit(es)) ==>
        && (WentAstray() <==> exists i :: 0 <= i < |ops| && ops[i].Repaint? && !Stays(ss[i]))
        && (!WentAstray() ==> Synchronized() && (|ops| > 0 && ops[|ops| - 1].Repaint? ==> TerminalShowsWindow()))
    {
      hide Tracking, T, RowsOf, EolOf, Shown, Follows, Turns, Drivable, Refreshed, TerminalShowsWindow, Stays, DirtySound,
        Shape, Covers, SayableOf, Unlit, CursorAt, Synchronized, CurSayable, OnCourse, Trace, Shots, AllUnlit, WentAstray,
        Lands, AllLand;
      CourseStarts();
      TraceStarts(State(), Shot(), nonl);
      NothingLands(State(), Shot());
      es, ss := [State()], [Shot()];
      var i := 0;
      while i < |ops|
        invariant 0 <= i <= |ops| && Valid() && DirtySound()
        invariant win.lines == old(win.lines) && cur.lines == old(cur.lines)
        invariant |es| == |ss| == i + 1 && forall j :: 0 <= j < |ss| ==> |ss[j].win| == |ss[j].cur|
        invariant Trace(es, ops[..i], nonl) && es[0] == old(State()) && es[i] == State()
        invariant Shots(es, ss, ops[..i], c.cols) && ss[0] == old(Shot()) && ss[i] == Shot()
        invariant AllLand(es, ss, ops[..i]) && (old(Resting()) ==> Resting())
        invariant i > 0 && ops[i - 1].Repaint? ==> Refreshed()
        invariant T().mishaps >= old(T().mishaps)
        invariant Drivable() && old(Synchronized() && CurSayable()) && (Accents() || AllUnlit(es)) ==>
          OnCourse(ops[..i], ss) && (!WentAstray() && i > 0 && ops[i - 1].Repaint? ==> TerminalShowsWindow())
      {
        ShotsFit(es, ss, ops[..i], c.cols);
        Turn(ops[i], nonl, ops[..i], ss);
        TraceStep(es, ops[..i], nonl, ops[i], State());
        ShotsStep(es, ss, ops[..i], ops[i], State(), Shot(), c.cols);
        LandsStep(es, ss, ops[..i], ops[i], State(), Shot());
        UnlitStep(es, State());
        assert ops[..i + 1] == ops[..i] + [ops[i]];
        es, ss := es + [State()], ss + [Shot()];
        i := i + 1;
      }
      assert ops[..i] == ops;
      ShotsFit(es, ss, ops, c.cols);
      CourseMeans(ops, ss);
      if NeverLeaves(ops) && !old(win.leaveOk) {
        TraceIsFold(es, ops, nonl);
      }
    }
  }

  function BlankText(c: Caps): Text
    requires 0 <= c.lines && 0 <= c.cols
  {
    Text(seq(c.lines, _ => BlankRow(c.cols)), seq(c.lines, _ => false), 0, 0)
  }

  /** A window as the application sees it. */
  datatype Editing = Editing(text: Text, scrollOk: bool, standout: bool, leaveOk: bool)

  /** What an application can ask for. */
  datatype Op =
    | Repaint
    | AddBytes(bytes: seq<char>, so: bool)
    | Delch | Deleteln | Insertln | Clrtoeol | Clrtobot | EraseAll | ScrollUpLine
    | Move(y: int, x: int)
    | SetModes(scrollOk: bool, standout: bool, leaveOk: bool)
    | Clearok(on: bool)

  /** What each call makes of the window. */
  function Edit(e: Editing, op: Op, nonl: bool): Editing
    requires Shape(e.text)
  {
    match op
    case Repaint => e
    case AddBytes(bytes, so) => e.(text := Written(e.text, bytes, Mode(e.scrollOk, e.standout, so, nonl)))
    case Delch => e.(text := DeleteChar(e.text))
    case Deleteln => e.(text := DeleteLine(e.text))
    case Insertln => e.(text := InsertLine(e.text))
    case Clrtoeol => e.(text := ClearToEol(e.text))
    case Clrtobot => e.(text := ClearToBottom(e.text))
    case EraseAll => e.(text := Erase(e.text))
    case ScrollUpLine => if e.scrollOk then e.(text := ScrollText(e.text)) else e
    case Move(y, x) => e.(text := MoveCursor(e.text, y, x).0)
    case SetModes(scrollOk, standout, leaveOk) => e.(scrollOk := scrollOk, standout := standout, leaveOk := leaveOk)
    case Clearok(_) => e
  }

  /** A refresh under LEAVEOK takes the cursor along to wherever the output ended. */
  ghost predicate Follows(e: Editing, op: Op, nonl: bool, e': Editing) {
    && Shape(e.text) && Shape(e'.text)
    && e' == if op.Repaint? && e.leaveOk then e.(text := e.text.(cy := e'.text.cy, cx := e'.text.cx)) else Edit(e, op, nonl)
  }

  ghost predicate Trace(es: seq<Editing>, ops: seq<Op>, nonl: bool) {
    |es| == |ops| + 1 && Shape(es[0].text) && forall i :: 0 <= i < |ops| ==> Follows(es[i], ops[i], nonl, es[i + 1])
  }

  /** What a call makes of the lines: an edit leaves curscr alone and marks what it changes; a
      refresh leaves no line dirty, and curscr equal to the window but for the corner. */
  ghost predicate Turns(s: Snapshot, op: Op, s': Snapshot, cols: int) {
    if op.Repaint? then
      && !s'.clear && |s'.win| == |s'.cur| && (forall y :: 0 <= y < |s'.win| ==> !s'.win[y].dirty)
      && (forall y :: 0 <= y < |s'.win| ==> |s'.win[y].cells| == |s'.cur[y].cells| == cols)
      && forall y, x :: 0 <= y < |s'.win| && 0 <= x < cols && !Corner(|s'.win|, cols, y, x) ==>
           s'.win[y].cells[x] == s'.cur[y].cells[x]
    else
      && s'.cur == s.cur && s'.cury == s.cury && s'.curx == s.curx && s'.standout == s.standout && (op.Clearok? || s'.clear == s.clear)
      && Tracks(s.win, s'.win, cols)
  }

  /** The snapshots that go with a sequence of states. */
  ghost predicate Shots(es: seq<Editing>, ss: seq<Snapshot>, ops: seq<Op>, cols: int) {
    && |ss| == |es| == |ops| + 1
    && (forall i :: 0 <= i < |ss| ==>
          |ss[i].win| == |ss[i].cur| && RowsOf(ss[i].win) == es[i].text.rows && EolOf(ss[i].win) == es[i].text.eol)
    && forall i :: 0 <= i < |ops| ==> Turns(ss[i], ops[i], ss[i + 1], cols)
  }

  ghost predicate AllUnlit(es: seq<Editing>) {
    forall i :: 0 <= i < |es| ==> Unlit(es[i].text.rows)
  }

  /** No call asks for LEAVEOK. */
  predicate NeverLeaves(ops: seq<Op>) {
    forall i :: 0 <= i < |ops| ==> ops[i].SetModes? ==> !ops[i].leaveOk
  }

  function EditAll(e: Editing, ops: seq<Op>, nonl: bool): Editing
    requires Shape(e.text)
    decreases |ops|
  {
    if ops == [] then e
    else
      EditKeepsShape(e, ops[0], nonl);
      EditAll(Edit(e, ops[0], nonl), ops[1..], nonl)
  }

  lemma EditKeepsShape(e: Editing, op: Op, nonl: bool)
    requires Shape(e.text)
    ensures Shape(Edit(e, op, nonl).text)
  {
    hide Written, ScrollText, DeleteLine, InsertLine, MoveCursor, DeleteChar, ClearToEol, ClearToBottom, Erase, Shape;
    match op
    case AddBytes(bytes, so) => WrittenKeepsShape(e.text, bytes, Mode(e.scrollOk, e.standout, so, nonl));
    case ScrollUpLine => ScrollKeepsShape(e.text);
    case Deleteln => LinesKeepShape(e.text);
    case Insertln => LinesKeepShape(e.text);
    case Delch => RowKeepsShape(e.text);
    case Clrtoeol => RowKeepsShape(e.text);
    case Clrtobot => ClearKeepsShape(e.text);
    case EraseAll => ClearKeepsShape(e.text);
    case Move(y, x) => MoveKeepsShape(e.text, y, x);
    case _ =>
  }

  lemma LinesKeepShape(t: Text)
    requires Shape(t)
    ensures Shape(DeleteLine(t)) && Shape(InsertLine(t))
  {
  }

  lemma RowKeepsShape(t: Text)
    requires Shape(t)
    ensures Shape(DeleteChar(t)) && Shape(ClearToEol(t))
  {
  }

  lemma ClearKeepsShape(t: Text)
    requires Shape(t)
    ensures Shape(ClearToBottom(t)) && Shape(Erase(t))
  {
  }

  lemma MoveKeepsShape(t: Text, y: int, x: int)
    requires Shape(t)
    ensures Shape(MoveCursor(t, y, x).0)
  {
  }

  lemma TraceStarts(e: Editing, s: Snapshot, nonl: bool)
    requires Shape(e.text) && |s.win| == |s.cur| && RowsOf(s.win) == e.text.rows && EolOf(s.win) == e.text.eol
    ensures Trace([e], [], nonl) && forall cols: int :: Shots([e], [s], [], cols)
  {
  }

  lemma ShotsFit(es: seq<Editing>, ss: seq<Snapshot>, ops: seq<Op>, cols: int)
    requires Shots(es, ss, ops, cols)
    ensures |ss| == |es| == |ops| + 1
    ensures forall i :: 0 <= i < |ss| ==>
      |ss[i].win| == |ss[i].cur| && RowsOf(ss[i].win) == es[i].text.rows && EolOf(ss[i].win) == es[i].text.eol
  {
  }

  lemma ShotsStep(es: seq<Editing>, ss: seq<Snapshot>, ops: seq<Op>, op: Op, e: Editing, s: Snapshot, cols: int)
    requires Shots(es, ss, ops, cols) && Turns(ss[|ops|], op, s, cols)
    requires |s.win| == |s.cur| && RowsOf(s.win) == e.text.rows && EolOf(s.win) == e.text.eol
    ensures Shots(es + [e], ss + [s], ops + [op], cols)
  {
    hide Turns, RowsOf, EolOf;
  }

  lemma UnlitStep(es: seq<Editing>, e: Editing)
    requires es != []
    ensures AllUnlit(es + [e]) ==> AllUnlit(es) && Unlit(es[|es| - 1].text.rows)
  {
    hide Unlit;
    forall i | AllUnlit(es + [e]) && 0 <= i < |es|
      ensures Unlit(es[i].text.rows)
    {
      assert (es + [e])[i] == es[i];
    }
  }

  lemma TraceStep(es: seq<Editing>, ops: seq<Op>, nonl: bool, op: Op, e: Editing)
    requires Trace(es, ops, nonl) && Follows(es[|ops|], op, nonl, e)
    ensures Trace(es + [e], ops + [op], nonl)
  {
    hide Follows;
  }

  lemma {:induction false} TraceIsFold(es: seq<Editing>, ops: seq<Op>, nonl: bool)
    requires Trace(es, ops, nonl) && NeverLeaves(ops) && !es[0].leaveOk
    ensures es[|ops|] == EditAll(es[0], ops, nonl)
    decreases |ops|
  {
    if ops != [] {
      assert Follows(es[0], ops[0], nonl, es[1]);
      forall i | 0 <= i < |ops[1..]|
        ensures Follows(es[1..][i], ops[1..][i], nonl, es[1..][i + 1])
      {
        assert Follows(es[i + 1], ops[i + 1], nonl, es[i + 2]);
      }
      TraceIsFold(es[1..], ops[1..], nonl);
    }
  }

  lemma OutRowStart(win: seq<Line>, rows: seq<seq<Cell>>, r0: int)
    requires |win| == |rows|
    ensures OutRow(win, rows, r0, 0) == r0 && forall c0, ce :: OutCol(win, rows, c0, ce, 0) == c0
  {
  }

  lemma OutRowStep(win: seq<Line>, rows: seq<seq<Cell>>, r0: int, wy: int)
    requires 0 <= wy < |win| == |rows|
    ensures var r := OutRow(win, rows, r0, wy);
      && OutRow(win, rows, r0, wy + 1) == (if !win[wy].dirty then r else if NeedsPaint(win[wy], rows[wy]) then wy
                                           else r + Below(win, wy))
      && (StepsOff(win, rows, r0, wy) <==> win[wy].dirty && r + Below(win, wy) >= |win|)
  {
  }

  lemma SameBelow(was: seq<Line>, now: seq<Line>, wy: int)
    requires 0 <= wy < |was| == |now| && EolOf(now) == EolOf(was)
    ensures Below(now, wy) == Below(was, wy)
  {
    if wy > 0 { assert EolOf(now)[wy - 1] == EolOf(was)[wy - 1]; }
  }

  lemma OutColStep(win: seq<Line>, rows: seq<seq<Cell>>, c0: int, ce: Option<nat>, wy: int)
    requires 0 <= wy < |win| == |rows|
    ensures OutCol(win, rows, c0, ce, wy + 1) ==
      if !win[wy].dirty then OutCol(win, rows, c0, ce, wy)
      else if NeedsPaint(win[wy], rows[wy]) then EndColumn(win[wy], rows[wy], wy == |win| - 1, ce)
      else if Below(win, wy) > 0 then 0 else OutCol(win, rows, c0, ce, wy)
  {
  }

  /** If line y is the last that is painted, and the output does not step down for a line
      behind it, the output ends where the painting of y does. */
  lemma {:induction false} LandsOnLast(win: seq<Line>, rows: seq<seq<Cell>>, r0: int, c0: int, ce: Option<nat>, y: int, wy: int)
    requires 0 <= y < wy <= |win| == |rows| && win[y].dirty && NeedsPaint(win[y], rows[y])
    requires forall i :: y < i < wy && win[i].dirty ==> !NeedsPaint(win[i], rows[i]) && Below(win, i) == 0
    ensures OutRow(win, rows, r0, wy) == y && OutCol(win, rows, c0, ce, wy) == EndColumn(win[y], rows[y], y == |win| - 1, ce)
    decreases wy
  {
    hide NeedsPaint, EndColumn;
    if wy > y + 1 { LandsOnLast(win, rows, r0, c0, ce, y, wy - 1); }
  }

  lemma LastStep(win: seq<Line>, cur: seq<Line>, y: int)
    requires -1 <= y < |win| == |cur|
    ensures LastChanged(win, cur, y) == if y < 0 || !SameLine(win[y], cur[y]) then y else LastChanged(win, cur, y - 1)
  {
  }

  lemma TrimmedShown(win: seq<Line>, cur: seq<Line>)
    requires |win| == |cur|
    ensures forall y :: 0 <= y < |win| && (y < FirstChanged(win, cur, 0) || y > LastChanged(win, cur, |win| - 1)) ==>
      win[y].cells == cur[y].cells
  {
    hide FirstChanged, LastChanged;
  }

  lemma TrimmedTwice(win: seq<Line>, cur: seq<Line>, top: int)
    requires |win| == |cur| && 0 <= top
    ensures LastChanged(Trimmed(win, top, |win|), cur, |win| - 1) == LastChanged(win, cur, |win| - 1)
  {
    hide LastChanged, SameLine;
    LastIgnoresMarks(win, Trimmed(win, top, |win|), cur, |win| - 1);
  }

  lemma {:induction false} LastIgnoresMarks(a: seq<Line>, b: seq<Line>, cur: seq<Line>, y: int)
    requires -1 <= y < |a| == |b| == |cur| && forall i :: 0 <= i < |a| ==> b[i] == a[i] || b[i] == a[i].(dirty := false)
    ensures LastChanged(b, cur, y) == LastChanged(a, cur, y)
    decreases y + 1
  {
    if y >= 0 { LastIgnoresMarks(a, b, cur, y - 1); }
  }

  lemma TouchedText(was: seq<Line>, now: seq<Line>, maxx: int)
    requires |was| == |now| && forall y :: 0 <= y < |was| ==> now[y] == Touched(was[y], 0, maxx - 1, false)
    ensures RowsOf(now) == RowsOf(was) && EolOf(now) == EolOf(was)
  {
  }

  lemma BlankScreen(ls: seq<Line>, cols: nat)
    requires forall y :: 0 <= y < |ls| ==> ls[y].cells == BlankRow(cols)
    ensures RowsOf(ls) == seq(|ls|, _ => BlankRow(cols))
  {
  }

  /** As far as its cells go, the rotation of curscr is a scroll of its rows. */
  lemma RotationRows(was: seq<Line>, now: seq<Line>, top: int, bot: int, n: int, maxx: nat)
    requires 0 <= top <= bot < |was| == |now| && n <= bot - top && -n <= bot - top
    requires forall y :: 0 <= y < |was| && !(top <= y <= bot) ==> now[y] == was[y]
    requires forall y | top <= y <= bot :: now[y].cells == RotatedCells(was, top, bot - top + 1, n, y - top, maxx)
    ensures n > 0 ==> RowsOf(now) == ShiftDown(RowsOf(was), maxx, top, bot + 1, n)
    ensures n < 0 ==> RowsOf(now) == ShiftUp(RowsOf(was), maxx, top, bot + 1, -n)
    ensures n == 0 ==> RowsOf(now) == RowsOf(was)
  {
    forall y | top <= y <= bot
      ensures now[y].cells == MovedRow(was, top, bot, n, y, maxx)
    {
      if !ScrolledIn(bot - top + 1, n, y - top) { BlockLands(was, top, bot - top + 1, n, y - top, maxx); }
    }
    hide RotatedCells, RowsOf;
    MovedIsShifted(was, now, top, bot, n, maxx);
  }

  lemma MovedIsShifted(was: seq<Line>, now: seq<Line>, top: int, bot: int, n: int, maxx: nat)
    requires 0 <= top <= bot < |was| == |now| && n <= bot - top && -n <= bot - top
    requires forall y :: 0 <= y < |was| && !(top <= y <= bot) ==> now[y] == was[y]
    requires forall y :: top <= y <= bot ==> now[y].cells == MovedRow(was, top, bot, n, y, maxx)
    ensures n > 0 ==> RowsOf(now) == ShiftDown(RowsOf(was), maxx, top, bot + 1, n)
    ensures n < 0 ==> RowsOf(now) == ShiftUp(RowsOf(was), maxx, top, bot + 1, -n)
    ensures n == 0 ==> RowsOf(now) == RowsOf(was)
  {
    if n > 0 {
      assert RowsOf(now) == ShiftDown(RowsOf(was), maxx, top, bot + 1, n);
    } else if n < 0 {
      assert RowsOf(now) == ShiftUp(RowsOf(was), maxx, top, bot + 1, -n);
    } else {
      assert RowsOf(now) == RowsOf(was);
    }
  }

  /** A block can be moved. */
  lemma BlockStays(was: seq<Line>, winWas: seq<Line>, top: int, bot: int, startw: int, starts: int, bsize: int)
    requires |was| == |winWas| && 0 <= top <= bot < |was| && 0 <= bsize
    requires top <= startw <= bot - bsize && top <= starts <= bot - bsize
    requires Block(winWas, was, startw, starts, bsize)
    ensures Movable(winWas, top, bot - top + 1, startw - starts, startw, startw + bsize)
  {
    forall y | startw <= y < startw + bsize && top <= y <= bot
      ensures !winWas[y].force && !ScrolledIn(bot - top + 1, startw - starts, y - top)
    {
      assert SameLine(winWas[y], was[y - startw + starts]);
    }
  }

  /** After the rotation curscr shows the block where the window has it. */
  lemma BlockAligned(was: seq<Line>, winWas: seq<Line>, now: seq<Line>, top: int, bot: int, startw: int, starts: int,
                     bsize: int, maxx: nat)
    requires |was| == |winWas| == |now| && 0 <= top <= bot < |was| && 0 <= bsize
    requires top <= startw <= bot - bsize && top <= starts <= bot - bsize
    requires Block(winWas, was, startw, starts, bsize)
    requires forall y | top <= y <= bot
      :: now[y].cells == RotatedCells(was, top, bot - top + 1, startw - starts, y - top, maxx)
    ensures forall y :: startw <= y < startw + bsize ==> now[y].cells == winWas[y].cells
  {
    hide RotatedCells;
    forall y | startw <= y < startw + bsize
      ensures now[y].cells == winWas[y].cells
    {
      assert SameLine(winWas[y], was[y - startw + starts]);
      BlockLands(was, top, bot - top + 1, startw - starts, y - top, maxx);
    }
  }

  /** The b lines from row y on are marked clean, and shown as the window has them. */
  ghost predicate LeftAlone(l: Lines, win: seq<Line>, y: int, b: int)
    requires |l.win| == |l.rows| == |win|
  {
    0 <= y && y + b <= |win| && forall i :: y <= i < y + b ==> !l.win[i].dirty && l.rows[i] == win[i].cells
  }

  lemma AlignedLeavesAlone(win: seq<Line>, cur: seq<Line>, top: int, bot: int, b: int, startw: int, starts: int, maxx: nat)
    requires |win| == |cur| && 0 <= top <= bot < |cur| && 0 <= b
    requires top <= startw <= bot - b && top <= starts <= bot - b && Block(win, cur, startw, starts, b)
    ensures var q := Aligned(win, cur, top, bot, b, startw, starts, maxx);
      |q.win| == |q.rows| == |win| && LeftAlone(q, win, startw, b)
  {
    hide RotatedCells;
    BlockStays(cur, win, top, bot, startw, starts, b);
    var q := Aligned(win, cur, top, bot, b, startw, starts, maxx);
    forall y | startw <= y < startw + b
      ensures !q.win[y].dirty && q.rows[y] == win[y].cells
    {
      assert SameLine(win[y], cur[y - startw + starts]);
      BlockLands(cur, top, bot - top + 1, startw - starts, y - top, maxx);
    }
  }

  /** If a quarter of the window's lines or more only moved, between the first and the last line
      that changed, a quick change leaves at least as many that need not be painted. */
  lemma QuickFindsBlock(win: seq<Line>, cur: seq<Line>, maxx: nat, n: int, w: int, s: int)
    requires |win| == |cur| && 4 * n + 3 >= |win| && 0 <= n && Block(win, cur, w, s, n)
    requires FirstChanged(win, cur, 0) <= w && w + n <= LastChanged(win, cur, |win| - 1)
    requires FirstChanged(win, cur, 0) <= s && s + n <= LastChanged(win, cur, |win| - 1)
    ensures var q := Quick(win, cur, maxx);
      |q.win| == |q.rows| == |win| && q.move.Some? && exists b :: b >= n && LeftAlone(q, win, q.move.value.startw, b)
  {
    hide Search, FirstChanged, LastChanged, Aligned, LeftAlone;
    var top, bot := FirstChanged(win, cur, 0), LastChanged(win, cur, |win| - 1);
    var t := Trimmed(win, top, bot);
    SearchFinds(t, cur, top, bot, |win| / 4, bot - top, top, top, n, w, s);
    var (b, startw, starts) := Search(t, cur, top, bot, |win| / 4, bot - top, top, top).value;
    AlignedLeavesAlone(t, cur, top, bot, b, startw, starts, maxx);
    SameCellsLeft(Quick(win, cur, maxx), t, win, startw, b);
  }

  lemma SameCellsLeft(l: Lines, a: seq<Line>, b: seq<Line>, y: int, n: int)
    requires |l.win| == |l.rows| == |a| == |b| && LeftAlone(l, a, y, n)
    requires forall i :: 0 <= i < |a| ==> b[i].cells == a[i].cells
    ensures LeftAlone(l, b, y, n)
  {
  }

  /** Dirty marks that cover every difference, on values. */
  ghost predicate MarksSound(win: seq<Line>, cur: seq<Line>, maxx: int)
    requires |win| == |cur|
    requires forall y :: 0 <= y < |win| ==> |win[y].cells| == |cur[y].cells| == maxx
  {
    forall y, x | 0 <= y < |win| && 0 <= x < maxx
      :: Corner(|win|, maxx, y, x) || Covers(win[y], x) || win[y].cells[x] == cur[y].cells[x]
  }

  /** Marked lines outside the block are dirty from end to end; those inside agree. */
  lemma AlignedSound(was: seq<Line>, winWas: seq<Line>, now: seq<Line>, winNow: seq<Line>, top: int, bot: int,
                     startw: int, curw: int, maxx: int)
    requires |was| == |winWas| == |now| == |winNow| && 0 <= top <= bot < |was|
    requires forall y :: 0 <= y < |was| ==> |was[y].cells| == |winWas[y].cells| == |now[y].cells| == |winNow[y].cells| == maxx
    requires forall y :: 0 <= y < |was| && !(top <= y <= bot) ==> now[y] == was[y] && winNow[y] == winWas[y]
    requires forall y :: top <= y <= bot ==> winNow[y] == Marked(winWas[y], startw <= y < curw, maxx)
    requires forall y :: startw <= y < curw && 0 <= y < |was| ==> now[y].cells == winWas[y].cells
    ensures MarksSound(winWas, was, maxx) ==> MarksSound(winNow, now, maxx)
  {
  }

  lemma SameRows(was: seq<Line>, now: seq<Line>)
    requires |was| == |now|
    requires forall y :: 0 <= y < |was| ==> now[y].cells == was[y].cells && now[y].pastEol == was[y].pastEol
    ensures RowsOf(now) == RowsOf(was) && EolOf(now) == EolOf(was)
  {
  }

  /** The rows after a quick change are rows from before it, or blank. */
  lemma QuickRows(win: seq<Line>, cur: seq<Line>, maxx: nat)
    requires |win| == |cur|
    ensures var q := Quick(win, cur, maxx);
      |q.rows| == |cur| && forall y :: 0 <= y < |cur| ==> q.rows[y] == BlankRow(maxx) || exists i :: 0 <= i < |cur| && q.rows[y] == cur[i].cells
  {
    hide Search, Trimmed, FirstChanged, LastChanged, Source;
    var q := Quick(win, cur, maxx);
    if q.move.Some? {
      var m := q.move.value;
      forall y | 0 <= y < |cur|
        ensures q.rows[y] == BlankRow(maxx) || exists i :: 0 <= i < |cur| && q.rows[y] == cur[i].cells
      {
        if m.top <= y <= m.bot {
          SourceInRange(m.bot - m.top + 1, m.startw - m.starts, y - m.top);
          assert q.rows[y] == RotatedCells(cur, m.top, m.bot - m.top + 1, m.startw - m.starts, y - m.top, maxx);
        } else {
          assert q.rows[y] == cur[y].cells;
        }
      }
    } else {
      assert forall y :: 0 <= y < |cur| ==> q.rows[y] == cur[y].cells;
    }
  }

  lemma AlignedLines(was: seq<Line>, winWas: seq<Line>, now: seq<Line>, winNow: seq<Line>, top: int, bot: int, b: int,
                     startw: int, starts: int, maxx: nat)
    requires |was| == |winWas| == |now| == |winNow| && 0 <= top <= bot < |was|
    requires forall y :: 0 <= y < |was| && !(top <= y <= bot) ==> now[y] == was[y] && winNow[y] == winWas[y]
    requires forall y :: top <= y <= bot ==> winNow[y] == Marked(winWas[y], startw <= y < startw + b, maxx)
    requires forall y | top <= y <= bot :: now[y].cells == RotatedCells(was, top, bot - top + 1, startw - starts, y - top, maxx)
    ensures var q := Aligned(winWas, was, top, bot, b, startw, starts, maxx); q.win == winNow && q.rows == RowsOf(now)
  {
    hide RotatedCells, Marked;
    var q := Aligned(winWas, was, top, bot, b, startw, starts, maxx);
    assert q.win == winNow;
    assert q.rows == RowsOf(now);
  }

  /** Marking changes no text. */
  lemma MarkedText(was: seq<Line>, now: seq<Line>, top: int, bot: int, startw: int, curw: int, maxx: int)
    requires |was| == |now| && 0 <= top <= bot < |was|
    requires forall y :: 0 <= y < |was| && !(top <= y <= bot) ==> now[y] == was[y]
    requires forall y :: top <= y <= bot ==> now[y] == Marked(was[y], startw <= y < curw, maxx)
    ensures RowsOf(now) == RowsOf(was) && EolOf(now) == EolOf(was)
  {
  }

  /** Row y of the region after it moved by n rows. */
  function MovedRow(was: seq<Line>, top: int, bot: int, n: int, y: int, maxx: nat): seq<Cell>
    requires 0 <= top <= y <= bot < |was|
  {
    if top <= y - n <= bot then was[y - n].cells else BlankRow(maxx)
  }

  lemma BlockLands(was: seq<Line>, top: nat, size: nat, n: int, k: nat, maxx: nat)
    requires 0 < size && top + size <= |was| && k < size && n < size && -n < size && !ScrolledIn(size, n, k)
    ensures 0 <= k - n < size && RotatedCells(was, top, size, n, k, maxx) == was[top + k - n].cells
  {
    SourceIsShift(size, n, k);
  }

  lemma PaintedTrans(new': seq<Cell>, last: bool, was: Line, mid: Line, now: Line, from: int, x: int, y: int, z: int)
    requires Painted(new', last, was, mid, from, x) && Painted(new', last, mid, now, x, y)
    requires z <= y
    ensures Painted(new', last, was, now, from, z)
  {
  }

  lemma PaintedSkip(new': seq<Cell>, last: bool, was: Line, now: Line, from: int, x: int, y: int)
    requires Painted(new', last, was, now, from, x) && 0 <= x <= y <= |new'|
    requires forall i :: x <= i < y ==> now.cells[i] == new'[i]
    ensures Painted(new', last, was, now, from, y)
  {
  }

  lemma PaintedAgrees(new': seq<Cell>, last: bool, was: Line, now: Line, from: int, upto: int)
    requires Painted(new', last, was, now, from, upto)
    ensures forall x :: 0 <= x < |new'| && !(last && x == |new'| - 1) && (from <= x < upto || was.cells[x] == new'[x]) ==>
      now.cells[x] == new'[x]
  {
  }

  lemma RowsOfUpdate(ls: seq<Line>, y: nat, l: Line)
    requires y < |ls|
    ensures RowsOf(ls)[y] == ls[y].cells && RowsOf(ls[y := l]) == RowsOf(ls)[y := l.cells]
  {
  }

  /** Printing in step with curscr keeps in step with curscr. */
  lemma PutShows(c: Caps, t: Terminal.Term, y: int, x: int, cell: Cell)
    requires Matches(c, t) && t.wraps && t.first == 0 && t.end == c.lines && c.ca
    requires OnScreen(c, y, x) && t.pos == At(y, x) && t.standout == cell.standout && !Corner(c.lines, c.cols, y, x)
    ensures var r := Exec(t, Put(cell.ch));
      && Matches(c, r) && r == t.(pos := r.pos, rows := t.rows[y := t.rows[y][x := cell]])
      && (x + 1 < c.cols ==> r.pos == At(y, x + 1))
  {
  }

  lemma ClearEolShows(c: Caps, t: Terminal.Term, y: int, x: int)
    requires Matches(c, t) && OnScreen(c, y, x) && t.pos == At(y, x) && !t.standout
    ensures var r := Exec(t, ClearEol);
      Matches(c, r) && r == t.(rows := t.rows[y := ClearFrom(t.rows[y], x)])
  {
    assert t.rows[y][..x] + BlankRow(|t.rows[y]| - x) == ClearFrom(t.rows[y], x);
  }

  lemma LeaveStandout(t: Terminal.Term)
    ensures t.Term? ==> Exec(t, StandoutOff) == t.(standout := false)
  {
  }

  // ---------- a refresh that scrolls the screen away ----------

  /** A terminal of two lines of five columns that can address its cursor and show standout. */
  function TwoByFive(): Caps {
    Caps(true, true, true, false, false, false, false, None, None, None, None, None, None, None, Some(1), (y, x) => 1, 2, 5)
  }

  function NoScrolling(): ScrollCaps {
    ScrollCaps(false, false, false, false, false, false, false, false, false)
  }

  function BlankTerminal(): Terminal.Term {
    Term([BlankRow(5), BlankRow(5)], 5, At(0, 0), 0, 2, false, FeedReturns(TwoByFive()), true, 0)
  }

  /** Five characters outside standout. */
  function Row(s: string): (r: seq<Cell>)
    requires |s| == 5
    ensures |r| == 5
  {
    seq(5, x requires 0 <= x < 5 => Cell(s[x], false))
  }

  const PLAIN_MODE := Mode(false, false, false, false)

  lemma TypesLetter(s: string, x: nat, ch: char)
    requires |s| == 5 && x < 5 && Ordinary(ch)
    ensures TypeByte(Text([Row(s), BlankRow(5)], [false, false], 0, x), ch, PLAIN_MODE)
         == Typed(Text([Row(s[x := ch]), BlankRow(5)], [x == 4, false], 0, if x == 4 then 4 else x + 1), true)
  {
    assert Row(s)[x := Cell(ch, false)] == Row(s[x := ch]);
    assert [Row(s), BlankRow(5)][0 := Row(s[x := ch])] == [Row(s[x := ch]), BlankRow(5)];
    assert [false, false][0 := true] == [true, false];
    hide Row, BlankRow;
  }

  lemma TypesOn(t: Text, t': Text, ch: char, rest: seq<char>, u: Text)
    requires Shape(t) && Shape(t') && TypeByte(t, ch, PLAIN_MODE) == Typed(t', true)
    requires TypeAll(t', rest, PLAIN_MODE) == Typed(u, true)
    ensures TypeAll(t, [ch] + rest, PLAIN_MODE) == Typed(u, true)
  {
    hide TypeByte, Shape;
    assert ([ch] + rest)[1..] == rest;
  }

  lemma BlankIsRow()
    ensures BlankRow(5) == Row("     ")
  {
  }

  /** "abcde" and a newline fill the first line, which keeps its run-off mark. */
  lemma TypesLine(t: Text)
    requires t == Text([BlankRow(5), BlankRow(5)], [false, false], 0, 0)
    ensures Written(t, "abcde\n", PLAIN_MODE) == Text([Row("abcde"), BlankRow(5)], [true, false], 1, 0)
  {
    hide TypeByte, TypeAll, Row, BlankRow, StoredBy;
    var u := Text([Row("abcde"), BlankRow(5)], [true, false], 1, 0);
    var t1 := Text([Row("a    "), BlankRow(5)], [false, false], 0, 1);
    var t2 := Text([Row("ab   "), BlankRow(5)], [false, false], 0, 2);
    var t3 := Text([Row("abc  "), BlankRow(5)], [false, false], 0, 3);
    var t4 := Text([Row("abcd "), BlankRow(5)], [false, false], 0, 4);
    var t5 := Text([Row("abcde"), BlankRow(5)], [true, false], 0, 4);
    BlankIsRow();
    TypesLetter("     ", 0, 'a');
    TypesLetter("a    ", 1, 'b');
    TypesLetter("ab   ", 2, 'c');
    TypesLetter("abc  ", 3, 'd');
    TypesLetter("abcd ", 4, 'e');
    assert "     "[0 := 'a'] == "a    " && "a    "[1 := 'b'] == "ab   " && "ab   "[2 := 'c'] == "abc  ";
    assert "abc  "[3 := 'd'] == "abcd " && "abcd "[4 := 'e'] == "abcde";
    assert ['a'] + "bcde\n" == "abcde\n" && ['b'] + "cde\n" == "bcde\n" && ['c'] + "de\n" == "cde\n";
    assert ['d'] + "e\n" == "de\n" && ['e'] + "\n" == "e\n" && ['\n'] + "" == "\n";
    NewlineAfterLine(t5, u);
    TypesNothing(u);
    TypesOn(t5, u, '\n', "", u);
    TypesOn(t4, t5, 'e', "\n", u);
    TypesOn(t3, t4, 'd', "e\n", u);
    TypesOn(t2, t3, 'c', "de\n", u);
    TypesOn(t1, t2, 'b', "cde\n", u);
    TypesOn(t, t1, 'a', "bcde\n", u);
    StoredAtEnd(t, "abcde\n", PLAIN_MODE, 0, 0);
  }

  lemma TypesNothing(t: Text)
    requires Shape(t)
    ensures TypeAll(t, "", PLAIN_MODE) == Typed(t, true)
  {
  }

  lemma NewlineAfterLine(t5: Text, t6: Text)
    requires t5 == Text([Row("abcde"), BlankRow(5)], [true, false], 0, 4)
    requires t6 == Text([Row("abcde"), BlankRow(5)], [true, false], 1, 0)
    ensures TypeByte(t5, '\n', PLAIN_MODE) == Typed(t6, true)
  {
    assert t5.rows[1 := ClearFrom(t5.rows[1], 0)] == t5.rows by {
      assert ClearFrom(BlankRow(5), 0) == BlankRow(5);
    }
    assert ClearToEol(t5) == t5;
  }

  lemma TypesX(t: Text)
    requires t == Text([Row("abcde"), BlankRow(5)], [true, false], 1, 0)
    ensures Written(t, "x", PLAIN_MODE) == Text([Row("abcde"), Row("x    ")], [true, false], 1, 1)
  {
    var t1 := Text([Row("abcde"), Row("x    ")], [true, false], 1, 1);
    assert BlankRow(5)[0 := Cell('x', false)] == Row("x    ");
    assert t.rows[1 := t.rows[1][0 := Cell('x', false)]] == t1.rows;
    assert TypeByte(t, 'x', PLAIN_MODE) == Typed(t1, true);
    assert "x"[1..] == "";
    assert TypeAll(t, "x", PLAIN_MODE) == Typed(t1, true);
    StoredAtEnd(t, "x", PLAIN_MODE, 1, 0);
  }

  /** The first refresh of a screen of two lines stays on it. */
  lemma FirstStays(s: Screen)
    requires s.Valid() && s.c == TwoByFive() && s.k == NoScrolling() && s.cur.clearOk
    requires s.win.View() == Text([Row("abcde"), BlankRow(5)], [true, false], 1, 0)
    ensures s.RefreshStays()
  {
    hide Touched;
    var l := s.Upcoming();
    var w, cl := s.win.lines[..], s.cur.lines[..];
    assert RowsOf(w)[0] == w[0].cells;
    assert l == Lines(AllTouched(Rehashed(w, s.hashOf), 5), RowsOf(Erased(cl, 5)), None);
    TouchedCells(Rehashed(w, s.hashOf)[0], 5);
    assert l.win[0].cells[0] != l.rows[0][0];
    assert NeedsPaint(l.win[0], l.rows[0]);
    OutRowStart(l.win, l.rows, 0);
    OutRowStep(l.win, l.rows, 0, 0);
    OutRowStep(l.win, l.rows, 0, 1);
  }

  lemma TouchedCells(l: Line, maxx: int)
    requires LineOk(l, maxx) && 0 < maxx
    ensures var r := Touched(l, 0, maxx - 1, false); r.cells == l.cells && Covers(r, 0)
  {
  }

  /** The output is on the last row, the line above it is run off and shown as it is, and the
      last line is to be painted. */
  ghost predicate Poised(s: Screen)
    reads s, s.win, s.win.lines, s.cur, s.cur.lines
  {
    && s.Valid() && s.c == TwoByFive() && s.k == NoScrolling() && !s.win.clearOk && !s.cur.clearOk && s.cury == 1
    && Unforced(s.win.lines[..]) && s.win.lines[0].cells == s.cur.lines[0].cells == Row("abcde")
    && s.win.lines[0].pastEol && s.win.lines[1].dirty && s.cur.lines[1].cells[0] == BLANK
  }

  /** The next refresh does not stay on the screen. */
  lemma PoisedSteps(s: Screen)
    requires Poised(s)
    ensures !s.RefreshStays() && s.Upcoming() == Lines(Rehashed(s.win.lines[..], s.hashOf), RowsOf(s.cur.lines[..]), None)
  {
    hide Row;
    var l := s.Upcoming();
    var w, cl := s.win.lines[..], s.cur.lines[..];
    assert l == Lines(Rehashed(w, s.hashOf), RowsOf(cl), None);
    assert !w[0].force;
    assert l.win[0].cells == l.rows[0];
    assert !NeedsPaint(l.win[0], l.rows[0]);
    OutRowStart(l.win, l.rows, 1);
    OutRowStep(l.win, l.rows, 1, 0);
    OutRowStep(l.win, l.rows, 1, 1);
    assert StepsOff(l.win, l.rows, 1, 1);
  }

  /** A new screen, "abcde" and a newline. */
  method WriteLine(hashOf: seq<Cell> -> int) returns (s: Screen)
    ensures s.Valid() && s.c == TwoByFive() && s.k == NoScrolling() && s.Drivable() && s.Accents()
    ensures s.Synchronized() && s.DirtySound()
    ensures fresh({s, s.win, s.cur, s.mover}) && fresh(s.win.lines) && fresh(s.cur.lines)
    ensures s.State() == Editing(Text([Row("abcde"), BlankRow(5)], [true, false], 1, 0), false, false, false)
    ensures s.cur.clearOk && !s.win.clearOk && Unforced(s.win.lines[..])
  {
    hide Written, RowsOf, EolOf, BlankRow, Row, Covers;
    s := new Screen(TwoByFive(), NoScrolling(), PaintCaps(None, true, true, false, false), hashOf, BlankTerminal());
    BlankTwoByFive();
    TypesLine(s.win.View());
    label blank:
    var _ := s.win.Waddbytes("abcde\n", false, false);
    s.EditKeepsSound@blank();
  }

  lemma BlankTwoByFive()
    ensures BlankText(TwoByFive()) == Text([BlankRow(5), BlankRow(5)], [false, false], 0, 0)
    ensures Sound(BlankTerminal())
  {
  }

  lemma RowsAgree(s: Screen)
    requires s.Valid() && s.Refreshed() && s.c == TwoByFive()
    ensures s.win.lines[0].cells == s.cur.lines[0].cells && s.win.lines[1].cells[0] == s.cur.lines[1].cells[0]
  {
    assert s.Agree(0, 0) && s.Agree(0, 1) && s.Agree(0, 2) && s.Agree(0, 3) && s.Agree(0, 4) && s.Agree(1, 0);
  }

  /** Typing "x" leaves the first line's cells and marks the second one. */
  lemma MarksLastLine(was: seq<Line>, now: seq<Line>)
    requires |was| == |now| == 2 && Tracks(was, now, 5) && Unforced(was)
    requires RowsOf(was) == [Row("abcde"), BlankRow(5)] && RowsOf(now) == [Row("abcde"), Row("x    ")]
    requires EolOf(now) == [true, false]
    ensures Unforced(now) && now[0].cells == was[0].cells == Row("abcde") && was[1].cells[0] == BLANK
    ensures now[0].pastEol && now[1].dirty
  {
    assert RowsOf(was)[0] == was[0].cells && RowsOf(now)[0] == now[0].cells;
    assert RowsOf(was)[1] == was[1].cells && RowsOf(now)[1] == now[1].cells;
    assert EolOf(now)[0] == now[0].pastEol;
    assert was[1].cells[0] != now[1].cells[0];
  }

  /** "abcde" and a newline, a refresh, "x": the terminal is in step, but the next refresh
      will not stay on the screen. */
  method AboutToScroll(hashOf: seq<Cell> -> int) returns (s: Screen)
    ensures Poised(s) && s.Drivable() && s.Accents() && s.Synchronized() && s.DirtySound() && !s.RefreshStays()
    ensures fresh({s, s.win, s.cur, s.mover}) && fresh(s.win.lines) && fresh(s.cur.lines)
    ensures s.win.View() == Text([Row("abcde"), Row("x    ")], [true, false], 1, 1)
  {
    hide Written, RowsOf, EolOf, BlankRow, Covers, Tracks, Row, Screen.Shown, Screen.CursorAt, Screen.Tracking, Screen.T,
      Screen.Drivable, Screen.Accents, Screen.RefreshStays, Screen.Refreshed;
    s := WriteLine(hashOf);
    FirstStays(s);
    AccentsSay(s);
    s.Wrefresh();
    RowsAgree(s);
    TypesX(s.win.View());
    ghost var was := s.win.lines[..];
    assert Unforced(was);
    label refreshed:
    var _ := s.win.Waddbytes("x", false, false);
    MarksLastLine(was, s.win.lines[..]);
    s.EditKeepsSound@refreshed();
    PoisedSteps(s);
  }

  lemma AccentsSay(s: Screen)
    ensures s.Accents() ==> s.Sayable()
  {
  }

  /** The first line as the refresh finds it: clean to look at, and run off. */
  ghost predicate TopDone(s: Screen)
    reads s, s.win, s.win.lines, s.cur, s.cur.lines
  {
    && s.Valid() && s.c == TwoByFive() && s.ly == 1 && s.win.lines[0].pastEol && !s.win.lines[0].force
    && s.win.lines[0].cells == s.cur.lines[0].cells == Row("abcde") && s.cur.lines[1].cells[0] == BLANK
  }

  lemma PreparedTop(s: Screen, w: seq<Line>, cl: seq<Line>)
    requires s.Valid() && s.c == TwoByFive() && s.ly == 1 && |w| == |cl| == 2
    requires s.win.lines[..] == Rehashed(w, s.hashOf) && RowsOf(s.cur.lines[..]) == RowsOf(cl)
    requires w[0].pastEol && !w[0].force && w[0].cells == cl[0].cells == Row("abcde") && |cl[1].cells| == 5 && cl[1].cells[0] == BLANK
    ensures TopDone(s)
  {
    assert s.win.lines[0] == Rehashed(w, s.hashOf)[0];
    assert RowsOf(s.cur.lines[..])[0] == s.cur.lines[0].cells && RowsOf(cl)[0] == cl[0].cells;
    assert RowsOf(s.cur.lines[..])[1] == s.cur.lines[1].cells && RowsOf(cl)[1] == cl[1].cells;
  }

  /** The refresh up to its second line. */
  method ReachesTheStep(s: Screen)
    requires Poised(s) && s.Drivable() && s.Accents() && s.Synchronized()
    modifies s, s.win, s.win.lines, s.cur, s.cur.lines, s.mover
    ensures TopDone(s) && s.InStep() && s.CursorAt(s.ly, s.lx)
    ensures s.win.lines == old(s.win.lines) && s.cur.lines == old(s.cur.lines)
  {
    hide RowsOf, EolOf, Covers, Row, Screen.Shown, Screen.CursorAt, Screen.Tracking, Screen.T, Screen.Accents, Screen.SayableOf,
      Screen.RefreshStays, Screen.WentAstray, Screen.MoveWorks, NeedsPaint, Rehashed;
    AccentsSay(s);
    PoisedSteps(s);
    s.NoMoveWorks(s.Upcoming(), s.cur.standout);
    ghost var w, cl := s.win.lines[..], s.cur.lines[..];
    s.PrepareLines();
    PreparedTop(s, w, cl);
    NothingToPaint(s.win.lines[0], s.cur.lines[0].cells);
    assert forall x :: 0 <= x < 5 ==> s.Agree(0, x);
    w := s.win.lines[..];
    s.RefreshLine(0);
    TopKept(s, w);
  }

  lemma NothingToPaint(l: Line, was: seq<Cell>)
    requires l.cells == was && !l.force
    ensures !NeedsPaint(l, was)
  {
  }

  lemma TopKept(s: Screen, w: seq<Line>)
    requires s.Valid() && s.c == TwoByFive() && s.ly == 1 && |w| == 2 && s.cur.lines[1].cells[0] == BLANK
    requires RowsOf(s.win.lines[..]) == RowsOf(w) && EolOf(s.win.lines[..]) == EolOf(w)
    requires w[0].pastEol && w[0].cells == Row("abcde") && !s.win.lines[0].dirty
    requires forall x :: 0 <= x < 5 ==> s.Agree(0, x)
    ensures TopDone(s)
  {
    assert RowsOf(s.win.lines[..])[0] == s.win.lines[0].cells && RowsOf(w)[0] == w[0].cells;
    assert EolOf(s.win.lines[..])[0] == s.win.lines[0].pastEol && EolOf(w)[0] == w[0].pastEol;
    assert forall x :: 0 <= x < 5 ==> s.Agree(0, x) && s.win.lines[0].cells[x] == s.cur.lines[0].cells[x];
  }

  /** In that refresh, the step below the line that was run off scrolls "abcde" off the
      terminal, which curscr goes on to hold. */
  method ScrollsAway(hashOf: seq<Cell> -> int) returns (s: Screen)
    ensures s.Valid() && s.Drivable() && s.WentAstray() && s.ScrolledAway()
    ensures s.cur.lines[0].cells == Row("abcde") && s.T().rows[0] != s.cur.lines[0].cells
  {
    hide RowsOf, Row, Screen.InStep, Screen.CursorAt, Screen.T, Screen.Accents, Screen.Synchronized, Screen.RefreshStays,
      Screen.WentAstray, Poised;
    s := AboutToScroll(hashOf);
    ReachesTheStep(s);
    s.StepDown(1);
    FirstRowIsGone(s);
  }

  lemma FirstRowIsGone(s: Screen)
    requires s.Valid() && s.c == TwoByFive() && s.ScrolledAway()
    requires s.cur.lines[0].cells == Row("abcde") && s.cur.lines[1].cells[0] == BLANK
    ensures s.T().rows[0] != s.cur.lines[0].cells
  {
    assert RowsOf(s.cur.lines[..])[1] == s.cur.lines[1].cells;
    assert s.T().rows[0][0] == BLANK;
  }

  /** The refresh ends with curscr as if nothing had happened. */
  method EndsAstray(hashOf: seq<Cell> -> int) returns (s: Screen)
    ensures s.Valid() && s.WentAstray() && s.Refreshed() && s.cur.lines[0].cells == Row("abcde")
  {
    hide RowsOf, EolOf, Covers, Row, Screen.InStep, Screen.CursorAt, Screen.Tracking, Screen.T, Screen.Drivable, Screen.Accents,
      Screen.RefreshStays, Screen.Refreshed, Screen.WentAstray;
    s := AboutToScroll(hashOf);
    AccentsSay(s);
    s.Wrefresh();
    RowsAgree(s);
    TextOfLines(s.win.lines[..]);
  }
}
