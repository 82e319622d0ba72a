/** Detecting a moved block and rotating curscr's lines in place
    (`quickch`, Libcurses/refresh.c:462-705). */
module Quickch {
  import opened Options
  import opened Terminal
  import opened WindowText
  import opened Windows
  import opened Rotation

  /** Line `a` of the window is known to show what line `b` of curscr shows. */
  predicate SameLine(a: Line, b: Line) {
    !a.force && a.hash == b.hash && a.cells == b.cells
  }

  /** The block of `bsize` window lines at `startw` equals the curscr lines at `starts`. */
  ghost predicate Block(win: seq<Line>, cur: seq<Line>, startw: int, starts: int, bsize: int) {
    && 0 <= startw && startw + bsize <= |win| && 0 <= starts && starts + bsize <= |cur|
    && forall w :: startw <= w < startw + bsize ==> SameLine(win[w], cur[w - startw + starts])
  }

  /** A block of `bsize` lines within rows top to bot of both windows. */
  ghost predicate BlockWithin(win: seq<Line>, cur: seq<Line>, top: int, bot: int, bsize: int) {
    exists startw, starts ::
      top <= startw <= bot - bsize && top <= starts <= bot - bsize && Block(win, cur, startw, starts, bsize)
  }

  /** How many leading lines of two blocks agree. */
  method MatchLength(win: array<Line>, cur: array<Line>, startw: int, starts: int, bsize: int) returns (n: int)
    requires 0 <= startw && startw + bsize <= win.Length && 0 <= starts && starts + bsize <= cur.Length && 0 <= bsize
    ensures 0 <= n <= bsize && Block(win[..], cur[..], startw, starts, n)
    ensures n == bsize <==> Block(win[..], cur[..], startw, starts, bsize)
  {
    n := 0;
    while n < bsize
      invariant 0 <= n <= bsize && Block(win[..], cur[..], startw, starts, n)
    {
      if win[startw + n].force || win[startw + n].hash != cur[starts + n].hash
         || win[startw + n].cells != cur[starts + n].cells {
        assert !SameLine(win[..][startw + n], cur[..][startw + n - startw + starts]);
        return;
      }
      n := n + 1;
    }
  }

  /** The first line from y on that changed. */
  function FirstChanged(win: seq<Line>, cur: seq<Line>, y: nat): (r: nat)
    requires y <= |win| == |cur|
    ensures y <= r <= |win| && forall i :: y <= i < r ==> SameLine(win[i], cur[i])
    decreases |win| - y
  {
    if y == |win| || !SameLine(win[y], cur[y]) then y else FirstChanged(win, cur, y + 1)
  }

  /** The last line up to y that changed. */
  function LastChanged(win: seq<Line>, cur: seq<Line>, y: int): (r: int)
    requires -1 <= y < |win| == |cur|
    ensures -1 <= r <= y && forall i :: r < i <= y ==> SameLine(win[i], cur[i])
    decreases y + 1
  {
    if y < 0 || !SameLine(win[y], cur[y]) then y else LastChanged(win, cur, y - 1)
  }

  /** The order of the search: blocks of b lines from startw and starts on, row by row,
      then smaller blocks. */
  ghost function Search(win: seq<Line>, cur: seq<Line>, top: int, bot: int, thresh: nat, b: int, startw: int, starts: int)
    : (r: Option<(int, int, int)>)
    ensures r.Some? ==> r.value.0 >= thresh
    decreases b - thresh, bot - b - startw, bot - b - starts
  {
    if b < thresh then None
    else if startw > bot - b then Search(win, cur, top, bot, thresh, b - 1, top, top)
    else if starts > bot - b then Search(win, cur, top, bot, thresh, b, startw + 1, top)
    else if Block(win, cur, startw, starts, b) then Some((b, startw, starts))
    else Search(win, cur, top, bot, thresh, b, startw, starts + 1)
  }

  /** The search for the largest unchanged block, down to `thresh` lines. */
  method FindBlock(win: array<Line>, cur: array<Line>, top: int, bot: int, thresh: int)
    returns (bsize: int, startw: int, starts: int)
    requires 0 <= top && bot < win.Length == cur.Length && 0 <= thresh
    ensures bsize <= bot - top || bsize < thresh
    ensures bsize >= thresh ==>
      top <= startw <= bot - bsize && top <= starts <= bot - bsize && Block(win[..], cur[..], startw, starts, bsize)
    ensures forall b :: bsize < b <= bot - top && thresh <= b ==> !BlockWithin(win[..], cur[..], top, bot, b)
    ensures Search(win[..], cur[..], top, bot, thresh, bot - top, top, top) ==
      if bsize < thresh then None else Some((bsize, startw, starts))
  {
    hide Block;
    ghost var goal := Search(win[..], cur[..], top, bot, thresh, bot - top, top, top);
    bsize, startw, starts := bot - top, top, top;
    while bsize >= thresh
      invariant bsize <= bot - top
      invariant forall b :: bsize < b <= bot - top && thresh <= b ==> !BlockWithin(win[..], cur[..], top, bot, b)
      invariant goal == Search(win[..], cur[..], top, bot, thresh, bsize, top, top)
    {
      startw := top;
      while startw <= bot - bsize
        invariant top <= startw
        invariant forall w, s :: top <= w < startw && top <= s <= bot - bsize ==> !Block(win[..], cur[..], w, s, bsize)
        invariant goal == Search(win[..], cur[..], top, bot, thresh, bsize, startw, top)
      {
        starts := top;
        while starts <= bot - bsize
          invariant top <= starts
          invariant forall s :: top <= s < starts && s <= bot - bsize ==> !Block(win[..], cur[..], startw, s, bsize)
          invariant goal == Search(win[..], cur[..], top, bot, thresh, bsize, startw, starts)
        {
          var n := MatchLength(win, cur, startw, starts, bsize);
          if n == bsize {
            return;
          }
          starts := starts + 1;
        }
        startw := startw + 1;
      }
      bsize := bsize - 1;
    }
  }

  /** If there is a block of n lines still to come to, the search finds one at least as large. */
  lemma {:induction false} SearchFinds(win: seq<Line>, cur: seq<Line>, top: int, bot: int, thresh: nat, b: int, startw: int,
                                       starts: int, n: int, w: int, s: int)
    requires thresh <= n <= b && top <= startw && top <= starts
    requires top <= w <= bot - n && top <= s <= bot - n && Block(win, cur, w, s, n)
    requires n == b ==> w > startw || (w == startw && s >= starts)
    ensures var r := Search(win, cur, top, bot, thresh, b, startw, starts);
      && r.Some?
      && var (b', w', s') := r.value;
         n <= b' <= b && top <= w' <= bot - b' && top <= s' <= bot - b' && Block(win, cur, w', s', b')
    decreases b - thresh, bot - b - startw, bot - b - starts
  {
    hide Block;
    if startw > bot - b {
      SearchFinds(win, cur, top, bot, thresh, b - 1, top, top, n, w, s);
    } else if starts > bot - b {
      SearchFinds(win, cur, top, bot, thresh, b, startw + 1, top, n, w, s);
    } else if !Block(win, cur, startw, starts, b) {
      SearchFinds(win, cur, top, bot, thresh, b, startw, starts + 1, n, w, s);
    }
  }

  // ---------- the rotation, as a function ----------

  /** Region row k (counted from the top of the region) receives the line of this row. */
  function Source(size: nat, n: int, k: nat): nat
    requires 0 < size
  {
    (k - n) % size
  }

  /** Rows scrolled into from outside the region. */
  predicate ScrolledIn(size: nat, n: int, k: nat) {
    (n > 0 && k < n) || (n < 0 && k >= size + n)
  }

  /** What curscr's region row k shows after the rotation. */
  function RotatedCells(was: seq<Line>, top: nat, size: nat, n: int, k: nat, maxx: nat): seq<Cell>
    requires 0 < size && top + size <= |was| && k < size
  {
    if ScrolledIn(size, n, k) then BlankRow(maxx) else was[top + Source(size, n, k)].cells
  }

  /** Where row i lands. */
  lemma TargetOf(size: nat, n: int, i: nat)
    requires 0 < size && i < size && n < size && -n < size
    ensures (i + n + size) % size == (i + n % size) % size
    ensures (i + n + size) % size == if i + n >= size then i + n - size else if i + n >= 0 then i + n else i + n + size
  {
    if i + n >= size {
      ModUnique(i + n + size, size, 2, i + n - size);
    } else if i + n >= 0 {
      ModUnique(i + n + size, size, 1, i + n);
    } else {
      ModUnique(i + n + size, size, 0, i + n + size);
    }
    if n >= 0 {
      ModUnique(n, size, 0, n);
      var q := if i + n >= size then 1 else 0;
      ModUnique(i + n, size, q, i + n - q * size);
    } else {
      ModUnique(n, size, -1, n + size);
    }
  }

  lemma SourceOfTarget(size: nat, n: int, i: nat)
    requires 0 < size && i < size && n < size && -n < size
    ensures (i + n + size) % size == (i + n % size) % size
    ensures Source(size, n, (i + n + size) % size) == i
  {
    TargetOf(size, n, i);
    if i + n >= size {
      ModUnique(i - size, size, -1, i);
    } else if i + n >= 0 {
      ModUnique(i, size, 0, i);
    } else {
      ModUnique(i + size, size, 1, i);
    }
  }

  /** Away from the rows scrolled into, the rotation is a plain move by n rows. */
  lemma SourceIsShift(size: nat, n: int, k: nat)
    requires 0 < size && k < size && n < size && -n < size && !ScrolledIn(size, n, k)
    ensures 0 <= k - n < size && Source(size, n, k) == k - n
  {
    ModUnique(k - n, size, 0, k - n);
  }

  /** The place of one window line after the rotation: clean if it is in the block,
      dirty from end to end otherwise. */
  function Marked(l: Line, inBlock: bool, maxx: int): Line {
    if inBlock then l.(dirty := false) else Touched(l, 0, maxx - 1, false)
  }

  /** The state of the rotation when the walk is t steps into the cycle of `start`: the
      slots reached so far hold their final lines, all others are untouched. */
  ghost predicate Rotated(was: seq<Line>, now: seq<Line>, top: nat, size: nat, n: int,
                          start: nat, t: nat, maxx: nat)
    requires 0 < size && top + size <= |was|
  {
    && |now| == |was|
    && (forall y :: 0 <= y < |was| && !(top <= y < top + size) ==> now[y] == was[y])
    && (forall y :: top <= y < top + size ==>
          if Filled(size, n % size, start, t, y - top)
          then now[y].cells == RotatedCells(was, top, size, n, y - top, maxx)
          else now[y] == was[y])
  }

  ghost predicate MarkedSoFar(was: seq<Line>, now: seq<Line>, top: nat, size: nat, n: int,
                              start: nat, t: nat, startw: int, curw: int, maxx: nat)
    requires 0 < size && top + size <= |was|
  {
    && |now| == |was|
    && (forall y :: 0 <= y < |was| && !(top <= y < top + size) ==> now[y] == was[y])
    && (forall y :: top <= y < top + size ==>
          now[y] == if Filled(size, n % size, start, t, y - top)
                    then Marked(was[y], startw <= y < curw, maxx) else was[y])
  }

  /** One step: the slot the walk lands on was untouched, and filling it is the whole
      difference between t steps and t + 1, or the start of the next cycle. */
  lemma RotatedStep(was: seq<Line>, now: seq<Line>, top: nat, size: nat, n: int,
                    start: nat, t: nat, maxx: nat, l: Line)
    requires 0 < size && top + size <= |was| && Rotated(was, now, top, size, n, start, t, maxx)
    requires start < Gcd(size, n % size) && t < Period(size, n % size)
    requires var k := Slot(size, n % size, start, t + 1); l.cells == RotatedCells(was, top, size, n, k, maxx)
    ensures var k := Slot(size, n % size, start, t + 1);
      && now[top + k] == was[top + k]
      && var next := now[top + k := l];
      && (t + 1 < Period(size, n % size) ==> Rotated(was, next, top, size, n, start, t + 1, maxx))
      && (t + 1 == Period(size, n % size) ==> Rotated(was, next, top, size, n, start + 1, 0, maxx))
  {
    hide Gcd, Period, Slot, Filled, RotatedCells;
    var shift := n % size;
    var k := Slot(size, shift, start, t + 1);
    SlotInRange(size, shift, start, t + 1);
    forall m: nat | m < size
      ensures Filled(size, shift, start, t + 1, m) <==> Filled(size, shift, start, t, m) || m == k
      ensures t + 1 == Period(size, shift) ==>
        (Filled(size, shift, start + 1, 0, m) <==> Filled(size, shift, start, t, m) || m == k)
    {
      FilledStep(size, shift, start, t, m);
      FilledCycle(size, shift, start, m);
    }
    FilledStep(size, shift, start, t, 0);
  }

  lemma SlotInRange(size: nat, shift: nat, start: nat, t: nat)
    requires 0 < size
    ensures Slot(size, shift, start, t) < size
  {
  }

  lemma MarkedStep(was: seq<Line>, now: seq<Line>, top: nat, size: nat, n: int,
                   start: nat, t: nat, startw: int, curw: int, maxx: nat)
    requires 0 < size && top + size <= |was| && MarkedSoFar(was, now, top, size, n, start, t, startw, curw, maxx)
    requires start < Gcd(size, n % size) && t < Period(size, n % size)
    ensures var k := Slot(size, n % size, start, t + 1);
      && now[top + k] == was[top + k]
      && var next := now[top + k := Marked(was[top + k], startw <= top + k < curw, maxx)];
      && (t + 1 < Period(size, n % size) ==> MarkedSoFar(was, next, top, size, n, start, t + 1, startw, curw, maxx))
      && (t + 1 == Period(size, n % size) ==> MarkedSoFar(was, next, top, size, n, start + 1, 0, startw, curw, maxx))
  {
    hide Gcd, Period, Slot, Filled, Marked;
    var shift := n % size;
    var k := Slot(size, shift, start, t + 1);
    SlotInRange(size, shift, start, t + 1);
    forall m: nat | m < size
      ensures Filled(size, shift, start, t + 1, m) <==> Filled(size, shift, start, t, m) || m == k
      ensures t + 1 == Period(size, shift) ==>
        (Filled(size, shift, start + 1, 0, m) <==> Filled(size, shift, start, t, m) || m == k)
    {
      FilledStep(size, shift, start, t, m);
      FilledCycle(size, shift, start, m);
    }
    FilledStep(size, shift, start, t, 0);
  }

  /** When all cycles are closed nothing is left to move. */
  lemma RotationDone(was: seq<Line>, now: seq<Line>, winWas: seq<Line>, winNow: seq<Line>, top: nat, size: nat, n: int,
                     startw: int, curw: int, maxx: nat)
    requires 0 < size && top + size <= |was| == |winWas|
    requires Rotated(was, now, top, size, n, Gcd(size, n % size), 0, maxx)
    requires MarkedSoFar(winWas, winNow, top, size, n, Gcd(size, n % size), 0, startw, curw, maxx)
    ensures |now| == |was| && |winNow| == |was|
    ensures forall y :: 0 <= y < |was| && !(top <= y < top + size) ==> now[y] == was[y] && winNow[y] == winWas[y]
    ensures forall y :: top <= y < top + size ==>
      now[y].cells == RotatedCells(was, top, size, n, y - top, maxx)
      && winNow[y] == Marked(winWas[y], startw <= y < curw, maxx)
  {
    hide Gcd, Filled, RotatedCells, Marked;
    forall m: nat | m < size
      ensures Filled(size, n % size, Gcd(size, n % size), 0, m)
    {
      AllFilled(size, n % size, m);
    }
  }

  /** Nothing has moved yet. */
  lemma RotationStart(was: seq<Line>, winWas: seq<Line>, top: nat, size: nat, n: int, startw: int, curw: int, maxx: nat)
    requires 0 < size && top + size <= |was| == |winWas|
    ensures Rotated(was, was, top, size, n, 0, 0, maxx)
    ensures MarkedSoFar(winWas, winWas, top, size, n, 0, 0, startw, curw, maxx)
  {
  }

  /** Puts a line in its slot, blanks it if it was scrolled in, and marks the window's line. */
  method PlaceLine(win: Window, cur: Window, top: int, bot: int, startw: int, curw: int, n: int,
                   blankHash: int, target: int, tmp1: Line)
    requires win.Valid() && cur.Valid() && win.lines != cur.lines
    requires win.maxy == cur.maxy && win.maxx == cur.maxx
    requires 0 <= top <= target <= bot < win.maxy && LineOk(tmp1, cur.maxx)
    requires startw <= target < curw ==> !win.lines[target].force && !ScrolledIn(bot - top + 1, n, target - top)
    modifies win.lines, cur.lines
    ensures win.Valid() && cur.Valid()
    ensures cur.lines[..] == old(cur.lines[..])[target := cur.lines[target]]
    ensures cur.lines[target].cells == if ScrolledIn(bot - top + 1, n, target - top) then BlankRow(cur.maxx) else tmp1.cells
    ensures win.lines[..] == old(win.lines[..])[target := Marked(old(win.lines[target]), startw <= target < curw, win.maxx)]
  {
    cur.lines[target] := tmp1;
    var clp := cur.lines[target];
    if startw <= target < curw || target < top || target > bot {
      win.lines[target] := win.lines[target].(dirty := false);
    } else if (n > 0 && target >= top && target < top + n) || (n < 0 && target <= bot && target > bot + n) {
      if clp.hash != blankHash || clp.cells != BlankRow(cur.maxx) {
        cur.lines[target] := clp.(cells := BlankRow(cur.maxx), hash := blankHash);
      }
      win.Touchline(target, 0, win.maxx - 1, false);
    } else {
      win.Touchline(target, 0, win.maxx - 1, false);
    }
  }

  // ---------- the whole quick change, as a function ----------

  /** A block of curscr from row starts on that goes to row startw, within rows top to bot. */
  datatype BlockMove = BlockMove(top: int, bot: int, startw: int, starts: int)

  /** The window's lines, the rows curscr shows, and the move that brought them there. */
  datatype Lines = Lines(win: seq<Line>, rows: seq<seq<Cell>>, move: Option<BlockMove>)

  /** The window's lines with those outside top to bot marked clean. */
  function Trimmed(win: seq<Line>, top: int, bot: int): seq<Line> {
    seq(|win|, y requires 0 <= y < |win| => if y < top || y > bot then win[y].(dirty := false) else win[y])
  }

  /** The lines after a block of b lines was aligned. */
  function Aligned(win: seq<Line>, cur: seq<Line>, top: int, bot: int, b: int, startw: int, starts: int, maxx: nat): (l: Lines)
    requires 0 <= top <= bot < |cur|
    ensures l.move == Some(BlockMove(top, bot, startw, starts))
  {
    Lines(seq(|win|, y requires 0 <= y < |win| =>
            if top <= y <= bot then Marked(win[y], startw <= y < startw + b, maxx) else win[y]),
          seq(|cur|, y requires 0 <= y < |cur| =>
            if top <= y <= bot then RotatedCells(cur, top, bot - top + 1, startw - starts, y - top, maxx) else cur[y].cells),
          Some(BlockMove(top, bot, startw, starts)))
  }

  /** What quickch makes of the lines. */
  ghost function Quick(win: seq<Line>, cur: seq<Line>, maxx: nat): Lines
    requires |win| == |cur|
  {
    var top, bot := FirstChanged(win, cur, 0), LastChanged(win, cur, |win| - 1);
    var w := Trimmed(win, top, bot);
    if top > bot then Lines(w, RowsOf(cur), None)
    else
      match Search(w, cur, top, bot, |win| / 4, bot - top, top, top)
      case None => Lines(w, RowsOf(cur), None)
      case Some((b, startw, starts)) => Aligned(w, cur, top, bot, b, startw, starts, maxx)
  }

  /** Of curscr's lines it looks at the cells and the hashes only. */
  ghost predicate SameShown(a: seq<Line>, b: seq<Line>) {
    |a| == |b| && forall y :: 0 <= y < |a| ==> a[y].cells == b[y].cells && a[y].hash == b[y].hash
  }

  lemma QuickLooksAtShown(win: seq<Line>, a: seq<Line>, b: seq<Line>, maxx: nat)
    requires |win| == |a| && SameShown(a, b)
    ensures Quick(win, a, maxx) == Quick(win, b, maxx)
  {
    hide FirstChanged, LastChanged, Search, Aligned, Trimmed, RowsOf, SameShown;
    FirstLooksAtShown(win, a, b, 0);
    LastLooksAtShown(win, a, b, |win| - 1);
    SameRowsShown(a, b);
    var top, bot := FirstChanged(win, a, 0), LastChanged(win, a, |win| - 1);
    var w := Trimmed(win, top, bot);
    SearchLooksAtShown(w, a, b, top, bot, |win| / 4, bot - top, top, top);
    if top <= bot {
      match Search(w, a, top, bot, |win| / 4, bot - top, top, top)
      case None =>
      case Some((n, startw, starts)) => AlignedLooksAtShown(w, a, b, top, bot, n, startw, starts, maxx);
    }
  }

  lemma SameRowsShown(a: seq<Line>, b: seq<Line>)
    requires SameShown(a, b)
    ensures |a| == |b| && RowsOf(a) == RowsOf(b)
  {
  }

  lemma AlignedLooksAtShown(win: seq<Line>, a: seq<Line>, b: seq<Line>, top: int, bot: int, n: int, startw: int, starts: int,
                            maxx: nat)
    requires SameShown(a, b) && 0 <= top <= bot < |a|
    ensures Aligned(win, a, top, bot, n, startw, starts, maxx) == Aligned(win, b, top, bot, n, startw, starts, maxx)
  {
    hide Source, Marked;
    var u, v := Aligned(win, a, top, bot, n, startw, starts, maxx), Aligned(win, b, top, bot, n, startw, starts, maxx);
    forall y | 0 <= y < |a|
      ensures u.rows[y] == v.rows[y]
    {
      if top <= y <= bot {
        SourceInRange(bot - top + 1, startw - starts, y - top);
        var source := top + Source(bot - top + 1, startw - starts, y - top);
        assert a[source].cells == b[source].cells;
        assert u.rows[y] == RotatedCells(a, top, bot - top + 1, startw - starts, y - top, maxx);
        assert v.rows[y] == RotatedCells(b, top, bot - top + 1, startw - starts, y - top, maxx);
      }
    }
  }

  lemma SourceInRange(size: nat, n: int, k: nat)
    requires 0 < size
    ensures Source(size, n, k) < size
  {
  }

  lemma {:induction false} FirstLooksAtShown(win: seq<Line>, a: seq<Line>, b: seq<Line>, y: nat)
    requires y <= |win| == |a| && SameShown(a, b)
    ensures FirstChanged(win, a, y) == FirstChanged(win, b, y)
    decreases |win| - y
  {
    if y < |win| { FirstLooksAtShown(win, a, b, y + 1); }
  }

  lemma {:induction false} LastLooksAtShown(win: seq<Line>, a: seq<Line>, b: seq<Line>, y: int)
    requires -1 <= y < |win| == |a| && SameShown(a, b)
    ensures LastChanged(win, a, y) == LastChanged(win, b, y)
    decreases y + 1
  {
    if y >= 0 { LastLooksAtShown(win, a, b, y - 1); }
  }

  lemma {:induction false} SearchLooksAtShown(win: seq<Line>, a: seq<Line>, b: seq<Line>, top: int, bot: int, thresh: nat,
                                              n: int, startw: int, starts: int)
    requires SameShown(a, b)
    ensures Search(win, a, top, bot, thresh, n, startw, starts) == Search(win, b, top, bot, thresh, n, startw, starts)
    decreases n - thresh, bot - n - startw, bot - n - starts
  {
    assert Block(win, a, startw, starts, n) <==> Block(win, b, startw, starts, n);
    hide Block;
    if n < thresh {
    } else if startw > bot - n {
      SearchLooksAtShown(win, a, b, top, bot, thresh, n - 1, top, top);
    } else if starts > bot - n {
      SearchLooksAtShown(win, a, b, top, bot, thresh, n, startw + 1, top);
    } else {
      SearchLooksAtShown(win, a, b, top, bot, thresh, n, startw, starts + 1);
    }
  }

  /** No line of the block is forced, and none lies in the rows scrolled into. */
  ghost predicate Movable(win: seq<Line>, top: int, size: int, n: int, startw: int, curw: int) {
    0 <= top && top + size <= |win| &&
    forall y :: startw <= y < curw && top <= y < top + size ==> !win[y].force && !ScrolledIn(size, n, y - top)
  }

  /** The in-place rotation.  Cycle by cycle, each line of the region moves exactly once,
      to the row n further on modulo the region; rows scrolled into become blank. */
  method Rotate(win: Window, cur: Window, top: int, bot: int, startw: int, curw: int, n: int, blankHash: int)
    requires win.Valid() && cur.Valid() && win.lines != cur.lines
    requires win.maxy == cur.maxy && win.maxx == cur.maxx
    requires 0 <= top <= bot < win.maxy && n < bot - top + 1 && -n < bot - top + 1
    requires Movable(win.lines[..], top, bot - top + 1, n, startw, curw)
    modifies win.lines, cur.lines
    ensures win.Valid() && cur.Valid()
    ensures forall y :: 0 <= y < win.maxy && !(top <= y <= bot) ==>
      cur.lines[y] == old(cur.lines[y]) && win.lines[y] == old(win.lines[y])
    ensures forall y :: top <= y <= bot ==>
      && cur.lines[y].cells == RotatedCells(old(cur.lines[..]), top, bot - top + 1, n, y - top, cur.maxx)
      && win.lines[y] == Marked(old(win.lines[y]), startw <= y < curw, win.maxx)
  {
    hide Gcd, Period, Slot, Filled, Marked, Rotated, MarkedSoFar, Source;
    var size := bot - top + 1;
    ghost var was, winWas := cur.lines[..], win.lines[..];
    ghost var shift: nat := n % size;
    ghost var start: nat, t: nat := 0, 0;
    PeriodFacts(size, shift);
    SlotZero(size, shift, 0);
    RotationStart(was, winWas, top, size, n, startw, curw, cur.maxx);
    var i := top;
    var tmp1 := cur.lines[top];
    var curPeriod := top;
    var j := top;
    while j <= bot
      invariant top <= j <= bot + 1 && win.Valid() && cur.Valid()
      invariant start <= Gcd(size, shift) && t < Period(size, shift)
      invariant j - top == start * Period(size, shift) + t
      invariant j <= bot ==> curPeriod == top + start
      invariant j <= bot ==> top <= i <= bot && i - top == Slot(size, shift, start, t) && tmp1 == was[i]
      invariant Rotated(was, cur.lines[..], top, size, n, start, t, cur.maxx)
      invariant MarkedSoFar(winWas, win.lines[..], top, size, n, start, t, startw, curw, win.maxx)
    {
      StepCount(size, shift, start, t);
      var target := (i - top + n + size) % size + top;
      ghost var k: nat := Slot(size, shift, start, t + 1);
      SourceOfTarget(size, n, i - top);
      SlotNext(size, shift, start, t);
      assert target == top + k;
      FilledStep(size, shift, start, t, k);
      MarkedStep(winWas, win.lines[..], top, size, n, start, t, startw, curw, win.maxx);
      ghost var before := cur.lines[..];
      var tmp2 := cur.lines[target];
      PlaceLine(win, cur, top, bot, startw, curw, n, blankHash, target, tmp1);
      RotatedStep(was, before, top, size, n, start, t, cur.maxx, cur.lines[target]);
      if target == curPeriod {
        i := target + 1;
        // On the last step i may lie below the region; the preload is then never used.
        if i <= bot {
          tmp1 := cur.lines[i];
        }
        curPeriod := i;
        NextCycle(was, cur.lines[..], top, size, n, start, cur.maxx);
        start, t := start + 1, 0;
        StepCount(size, shift, start, t);
      } else {
        tmp1 := tmp2;
        i := target;
        t := t + 1;
      }
      j := j + 1;
    }
    StepCount(size, shift, start, t);
    RotationDone(was, cur.lines[..], winWas, win.lines[..], top, size, n, startw, curw, cur.maxx);
  }

  /** The line where the next cycle starts is still in its old place. */
  lemma NextCycle(was: seq<Line>, now: seq<Line>, top: nat, size: nat, n: int, start: nat, maxx: nat)
    requires 0 < size && top + size <= |was| && start < Gcd(size, n % size)
    requires Rotated(was, now, top, size, n, start + 1, 0, maxx)
    ensures start + 1 < Gcd(size, n % size) ==>
      start + 1 < size && now[top + start + 1] == was[top + start + 1]
      && Slot(size, n % size, start + 1, 0) == start + 1
    ensures (start + 1) * Period(size, n % size) == start * Period(size, n % size) + Period(size, n % size)
  {
    hide Gcd, Period, Slot, Filled;
    if start + 1 < Gcd(size, n % size) {
      NextStartIsFresh(size, n % size, start);
      SlotZero(size, n % size, start + 1);
      assert now[top + (start + 1)] == was[top + (start + 1)];
    }
  }
}
