/** Curses windows and the operations that edit them (Libcurses/addbytes.c, delch.c,
    deleteln.c, insertln.c, clrtoeol.c, clrtobot.c, erase.c, scroll.c, move.c,
    touchwin.c).

    `Text` is what a window shows; the text operations are stated on it without any
    reference to change tracking.  `Tracks` is the obligation on change tracking: a
    cell outside the dirty interval of its line is a cell that did not change. */
module WindowText {
  import opened Terminal

  /** What a window shows: its cells, which lines the cursor has run off the end of,
      and the cursor. */
  datatype Text = Text(rows: seq<seq<Cell>>, eol: seq<bool>, cy: int, cx: int)

  /** Cells from column x on become blank. */
  function ClearFrom(row: seq<Cell>, x: nat): seq<Cell>
    requires x <= |row|
  {
    row[..x] + BlankRow(|row| - x)
  }

  function MoveCursor(t: Text, y: int, x: int): (Text, bool)
    requires 0 <= t.cy < |t.eol| == |t.rows|
  {
    if x < 0 || y < 0 || y >= |t.rows| || x >= |t.rows[y]| then (t, false)
    else (t.(cy := y, cx := x, eol := t.eol[t.cy := false][y := false]), true)
  }

  /** Run-off marks from line y on are dropped when at least two lines move. */
  function DropMarks(eol: seq<bool>, y: int): seq<bool>
    requires 0 <= y < |eol|
  {
    if y < |eol| - 1 then seq(|eol|, i requires 0 <= i < |eol| => i < y && eol[i]) else eol
  }

  function DeleteLine(t: Text): Text
    requires 0 <= t.cy < |t.eol| == |t.rows|
  {
    t.(rows := t.rows[..t.cy] + t.rows[t.cy + 1..] + [BlankRow(|t.rows[t.cy]|)],
       eol := DropMarks(t.eol, t.cy))
  }

  function InsertLine(t: Text): Text
    requires 0 <= t.cy < |t.eol| == |t.rows|
  {
    t.(rows := t.rows[..t.cy] + [BlankRow(|t.rows[t.cy]|)] + t.rows[t.cy..|t.rows| - 1],
       eol := DropMarks(t.eol, t.cy))
  }

  function DeleteChar(t: Text): Text
    requires 0 <= t.cy < |t.rows| && 0 <= t.cx < |t.rows[t.cy]|
  {
    var row := t.rows[t.cy];
    t.(rows := t.rows[t.cy := row[..t.cx] + row[t.cx + 1..] + [BLANK]])
  }

  /** Clearing to the end of line starts on the next line when the cursor has run off
      its own; on the last line it then does nothing. */
  function ClearToEol(t: Text): Text
    requires 0 <= t.cy < |t.eol| == |t.rows| && 0 <= t.cx <= |t.rows[t.cy]|
  {
    if !t.eol[t.cy] then t.(rows := t.rows[t.cy := ClearFrom(t.rows[t.cy], t.cx)])
    else if t.cy + 1 < |t.rows| then t.(rows := t.rows[t.cy + 1 := ClearFrom(t.rows[t.cy + 1], 0)])
    else t
  }

  function ClearToBottom(t: Text): Text
    requires 0 <= t.cy < |t.eol| == |t.rows| && 0 <= t.cx <= |t.rows[t.cy]|
  {
    t.(rows := seq(|t.rows|, y requires 0 <= y < |t.rows| =>
         if y < t.cy || (y == t.cy && t.eol[y]) then t.rows[y]
         else if y == t.cy then ClearFrom(t.rows[y], t.cx)
         else ClearFrom(t.rows[y], 0)))
  }

  function Erase(t: Text): Text {
    t.(rows := seq(|t.rows|, y requires 0 <= y < |t.rows| => BlankRow(|t.rows[y]|)))
  }

  /** Scrolling deletes the top line and leaves the cursor where it was. */
  function ScrollText(t: Text): Text
    requires 0 <= t.cy < |t.eol| == |t.rows| && 0 <= t.cx < |t.rows[t.cy]|
    requires forall y :: 0 <= y < |t.rows| ==> |t.rows[y]| == |t.rows[0]|
  {
    var top := DeleteLine(MoveCursor(t, 0, 0).0);
    MoveCursor(top, t.cy, t.cx).0
  }

  // ---------- typing ----------

  /** Modes typing depends on: whether the window may scroll, whether cells come out
      in standout, and the NONL terminal flag. */
  datatype Mode = Mode(scrollOk: bool, standout: bool, so: bool, nonl: bool)

  /** The result of typing. */
  datatype Typed = Typed(text: Text, ok: bool)

  /** To the start of the next line, scrolling at the bottom if that is allowed. */
  function NextLine(t: Text, m: Mode): Typed
    requires 0 <= t.cy < |t.eol| == |t.rows| && 0 <= t.cx < |t.rows[t.cy]|
    requires forall y :: 0 <= y < |t.rows| ==> |t.rows[y]| == |t.rows[0]|
  {
    if t.cy + 1 < |t.rows| then Typed(t.(cy := t.cy + 1, cx := 0), true)
    else if m.scrollOk then Typed(ScrollText(t).(cx := 0), true)
    else Typed(t, false)
  }

  /** An ordinary character: if the cursor has run off the line, first move on. */
  function TypeChar(t: Text, c: char, m: Mode): (r: Typed)
    requires 0 <= t.cy < |t.eol| == |t.rows| && 0 <= t.cx < |t.rows[t.cy]|
    requires forall y :: 0 <= y < |t.rows| ==> |t.rows[y]| == |t.rows[0]|
  {
    var moved :=
      if t.eol[t.cy] then NextLine(t.(eol := t.eol[t.cy := false]), m) else Typed(t, true);
    if !moved.ok || !(0 <= moved.text.cy < |moved.text.rows| == |moved.text.eol|)
       || !(0 <= moved.text.cx < |moved.text.rows[moved.text.cy]|) then moved
    else
      var u := moved.text;
      var row := u.rows[u.cy][u.cx := Cell(c, m.standout || m.so)];
      var v := u.(rows := u.rows[u.cy := row]);
      if u.cx == |row| - 1 then Typed(v.(eol := v.eol[v.cy := true]), true)
      else Typed(v.(cx := v.cx + 1), true)
  }

  ghost predicate Shape(t: Text) {
    && 0 <= t.cy < |t.eol| == |t.rows| && 0 <= t.cx < |t.rows[t.cy]|
    && forall y :: 0 <= y < |t.rows| ==> |t.rows[y]| == |t.rows[0]|
  }

  lemma ScrollKeepsShape(t: Text)
    requires Shape(t)
    ensures Shape(ScrollText(t)) && |ScrollText(t).rows| == |t.rows| && |ScrollText(t).rows[0]| == |t.rows[0]|
    ensures ScrollText(t).cy == t.cy && ScrollText(t).cx == t.cx
    ensures ScrollText(t).rows == t.rows[1..] + [BlankRow(|t.rows[0]|)]
  {
    var a := MoveCursor(t, 0, 0).0;
    var top := DeleteLine(a);
    assert top.rows == t.rows[1..] + [BlankRow(|t.rows[0]|)];
    assert forall y :: 0 <= y < |top.rows| ==> |top.rows[y]| == |t.rows[0]|;
  }

  lemma TypeCharKeepsShape(t: Text, c: char, m: Mode)
    requires Shape(t)
    ensures var r := TypeChar(t, c, m).text;
      Shape(r) && |r.rows| == |t.rows| && |r.rows[0]| == |t.rows[0]|
  {
    hide ScrollText;
    ScrollKeepsShape(t.(eol := t.eol[t.cy := false]));
  }

  /** A run of ordinary characters (used for the blanks a tab stands for). */
  function TypeBlanks(t: Text, n: nat, m: Mode): Typed
    requires Shape(t)
    decreases n
  {
    if n == 0 then Typed(t, true)
    else
      var r := TypeChar(t, ' ', m);
      TypeCharKeepsShape(t, ' ', m);
      if r.ok then TypeBlanks(r.text, n - 1, m) else r
  }

  lemma {:induction false} TypeBlanksKeepsShape(t: Text, n: nat, m: Mode)
    requires Shape(t)
    ensures var r := TypeBlanks(t, n, m).text;
      Shape(r) && |r.rows| == |t.rows| && |r.rows[0]| == |t.rows[0]|
    decreases n
  {
    if n > 0 {
      TypeCharKeepsShape(t, ' ', m);
      if TypeChar(t, ' ', m).ok { TypeBlanksKeepsShape(TypeChar(t, ' ', m).text, n - 1, m); }
    }
  }

  function TypeNewline(t: Text, m: Mode): (r: Typed)
    requires Shape(t)
  {
    var u := ClearToEol(t);
    assert Shape(u);
    NextLine(if m.nonl then u else u.(cx := 0), m)
  }

  /** The effect of one byte on the running position. */
  function TypeByte(t: Text, c: char, m: Mode): (r: Typed)
    requires Shape(t)
  {
    match c
    case '\t' => TypeBlanks(t, 8 - t.cx % 8, m.(so := false))
    case '\n' => TypeNewline(t, m)
    case '\r' => Typed(t.(cx := 0), true)
    case '\U{0008}' => Typed(t.(cx := if t.cx == 0 then 0 else t.cx - 1), true)
    case _ => TypeChar(t, c, m)
  }

  lemma TypeByteKeepsShape(t: Text, c: char, m: Mode)
    requires Shape(t)
    ensures var r := TypeByte(t, c, m).text;
      Shape(r) && |r.rows| == |t.rows| && |r.rows[0]| == |t.rows[0]|
  {
    hide TypeChar, TypeBlanks, ScrollText;
    match c
    case '\t' => TypeBlanksKeepsShape(t, 8 - t.cx % 8, m.(so := false));
    case '\n' =>
      var u := ClearToEol(t);
      ScrollKeepsShape(u.(cx := 0));
      ScrollKeepsShape(u);
    case '\r' =>
    case '\U{0008}' =>
    case _ => TypeCharKeepsShape(t, c, m);
  }

  /** The effect of a string; typing stops at the first byte that fails. */
  function TypeAll(t: Text, s: seq<char>, m: Mode): Typed
    requires Shape(t)
    decreases |s|
  {
    if s == [] then Typed(t, true)
    else
      var r := TypeByte(t, s[0], m);
      TypeByteKeepsShape(t, s[0], m);
      if r.ok then TypeAll(r.text, s[1..], m) else r
  }

  /** The cursor that is stored in the window after one byte, when it was (sy, sx) before
      and the window may not scroll: a tab and a newline store it first, and a tab that
      comes to its end stores it again. */
  function StoreAfter(t: Text, c: char, m: Mode, sy: int, sx: int): (int, int)
    requires Shape(t)
  {
    if c == '\t' && TypeByte(t, c, m).ok then (TypeByte(t, c, m).text.cy, TypeByte(t, c, m).text.cx)
    else if c == '\t' || c == '\n' then (t.cy, t.cx)
    else (sy, sx)
  }

  /** The cursor that a string leaves in the window: the running one at its end, or the one
      stored last when a byte fails. */
  function StoredBy(t: Text, s: seq<char>, m: Mode, sy: int, sx: int): (int, int)
    requires Shape(t)
    decreases |s|
  {
    if s == [] then (t.cy, t.cx)
    else
      var r := TypeByte(t, s[0], m);
      TypeByteKeepsShape(t, s[0], m);
      var (y, x) := StoreAfter(t, s[0], m, sy, sx);
      if r.ok then StoredBy(r.text, s[1..], m, y, x) else (y, x)
  }

  /** What a string makes of the text. */
  function Written(t: Text, s: seq<char>, m: Mode): Text
    requires Shape(t)
  {
    var (y, x) := StoredBy(t, s, m, t.cy, t.cx);
    TypeAll(t, s, m).text.(cy := y, cx := x)
  }

  lemma {:induction false} StoredInside(t: Text, s: seq<char>, m: Mode, sy: int, sx: int)
    requires Shape(t) && 0 <= sy < |t.rows| && 0 <= sx < |t.rows[0]|
    ensures var (y, x) := StoredBy(t, s, m, sy, sx); 0 <= y < |t.rows| && 0 <= x < |t.rows[0]|
    decreases |s|
  {
    if s != [] {
      TypeByteKeepsShape(t, s[0], m);
      hide TypeByte;
      var (y, x) := StoreAfter(t, s[0], m, sy, sx);
      if TypeByte(t, s[0], m).ok { StoredInside(TypeByte(t, s[0], m).text, s[1..], m, y, x); }
    }
  }

  lemma {:induction false} TypeAllKeepsShape(t: Text, s: seq<char>, m: Mode)
    requires Shape(t)
    ensures var r := TypeAll(t, s, m).text; Shape(r) && |r.rows| == |t.rows| && |r.rows[0]| == |t.rows[0]|
    decreases |s|
  {
    if s != [] {
      TypeByteKeepsShape(t, s[0], m);
      hide TypeByte;
      if TypeByte(t, s[0], m).ok { TypeAllKeepsShape(TypeByte(t, s[0], m).text, s[1..], m); }
    }
  }

  lemma WrittenKeepsShape(t: Text, s: seq<char>, m: Mode)
    requires Shape(t)
    ensures Shape(Written(t, s, m))
  {
    StoredInside(t, s, m, t.cy, t.cx);
    TypeAllKeepsShape(t, s, m);
  }

  /** Typing fails only where a line would have to be scrolled away. */
  lemma TypingFailsUnscrolled(t: Text, c: char, m: Mode)
    requires Shape(t) && m.scrollOk
    ensures TypeByte(t, c, m).ok
  {
    hide TypeChar, TypeBlanks, Shape, ClearToEol, ScrollText;
    if c == '\t' {
      BlanksFailUnscrolled(t, 8 - t.cx % 8, m.(so := false));
    } else {
      TypeCharFailsUnscrolled(t, c, m);
    }
  }

  lemma TypeCharFailsUnscrolled(t: Text, c: char, m: Mode)
    requires Shape(t) && m.scrollOk
    ensures TypeChar(t, c, m).ok
  {
    ScrollKeepsShape(t.(eol := t.eol[t.cy := false]));
  }

  lemma BlanksNone(t: Text, m: Mode)
    requires Shape(t)
    ensures TypeBlanks(t, 0, m) == Typed(t, true)
  {
    hide TypeChar, Shape;
  }

  lemma BlanksStep(t: Text, n: nat, m: Mode)
    requires Shape(t) && Shape(TypeChar(t, ' ', m).text) && 0 < n && TypeChar(t, ' ', m).ok
    ensures TypeBlanks(t, n, m) == TypeBlanks(TypeChar(t, ' ', m).text, n - 1, m)
  {
    hide TypeChar, Shape;
  }

  lemma {:induction false} BlanksFailUnscrolled(t: Text, n: nat, m: Mode)
    requires Shape(t) && m.scrollOk
    ensures TypeBlanks(t, n, m).ok
    decreases n
  {
    hide TypeChar, TypeBlanks;
    BlanksNone(t, m);
    if n > 0 {
      TypeCharKeepsShape(t, ' ', m);
      TypeCharFailsUnscrolled(t, ' ', m);
      BlanksStep(t, n, m);
      BlanksFailUnscrolled(TypeChar(t, ' ', m).text, n - 1, m);
    }
  }

  function Spaces(n: nat): (r: seq<char>)
    ensures |r| == n
  {
    seq(n, _ => ' ')
  }

  /** A tab types the blanks of the library's own blank string. */
  lemma {:induction false} SpacesTyped(t: Text, n: nat, m: Mode)
    requires Shape(t)
    ensures TypeAll(t, Spaces(n), m) == TypeBlanks(t, n, m)
    decreases n
  {
    if n > 0 {
      TypeCharKeepsShape(t, ' ', m);
      assert Spaces(n)[1..] == Spaces(n - 1);
      if TypeChar(t, ' ', m).ok { SpacesTyped(TypeChar(t, ' ', m).text, n - 1, m); }
    }
  }

  /** A string typed to its end leaves the running cursor. */
  lemma {:induction false} StoredAtEnd(t: Text, s: seq<char>, m: Mode, sy: int, sx: int)
    requires Shape(t)
    ensures var r := TypeAll(t, s, m); r.ok ==> StoredBy(t, s, m, sy, sx) == (r.text.cy, r.text.cx)
    decreases |s|
  {
    if s != [] {
      TypeByteKeepsShape(t, s[0], m);
      hide TypeByte, StoreAfter;
      var (y, x) := StoreAfter(t, s[0], m, sy, sx);
      if TypeByte(t, s[0], m).ok { StoredAtEnd(TypeByte(t, s[0], m).text, s[1..], m, y, x); }
    }
  }

  /** The blanks of a tab store no cursor on their way. */
  lemma {:induction false} SpacesStore(t: Text, n: nat, m: Mode, sy: int, sx: int)
    requires Shape(t)
    ensures var r := TypeAll(t, Spaces(n), m);
      StoredBy(t, Spaces(n), m, sy, sx) == if r.ok then (r.text.cy, r.text.cx) else (sy, sx)
    decreases n
  {
    if n > 0 {
      hide TypeChar;
      TypeByteKeepsShape(t, ' ', m);
      assert Spaces(n)[1..] == Spaces(n - 1);
      if TypeByte(t, ' ', m).ok { SpacesStore(TypeByte(t, ' ', m).text, n - 1, m, sy, sx); }
    }
  }

  // ---------- what typing means ----------

  predicate Ordinary(c: char) {
    c != '\t' && c != '\n' && c != '\r' && c != '\U{0008}'
  }

  /** The position of the next character, counting cells row by row. */
  function Offset(t: Text): int
    requires Shape(t)
  {
    t.cy * |t.rows[0]| + t.cx + (if t.eol[t.cy] then 1 else 0)
  }

  /** A run-off mark on the cursor's line means the cursor is in its last column. */
  ghost predicate Pending(t: Text)
    requires Shape(t)
  {
    t.eol[t.cy] ==> t.cx == |t.rows[0]| - 1
  }

  function CellAt(t: Text, p: int): Cell
    requires Shape(t) && 0 <= p < |t.rows| * |t.rows[0]|
  {
    PositionInRange(p, |t.rows|, |t.rows[0]|);
    t.rows[p / |t.rows[0]|][p % |t.rows[0]|]
  }

  lemma PositionInRange(p: int, h: int, w: int)
    requires 0 <= p < h * w && 0 < w
    ensures 0 <= p / w < h && 0 <= p % w < w
  {
    var q := p / w;
    assert p == q * w + p % w;
    assert q >= h ==> (q - h) * w >= 0;
    assert (q - h) * w == q * w - h * w;
  }

  lemma SplitPosition(p: int, w: int, y: int, x: int)
    requires 0 < w && p == y * w + x && 0 <= x < w
    ensures p / w == y && p % w == x
  {
    var d := p / w - y;
    assert p == (p / w) * w + p % w;
    assert d * w == x - p % w;
    assert d >= 1 ==> d * w >= w;
    assert d <= -1 ==> d * w <= -w;
  }

  /** Where the next character goes: the cursor, or the start of the next line. */
  function NextY(t: Text): int
    requires Shape(t)
  {
    if t.eol[t.cy] then t.cy + 1 else t.cy
  }

  function NextX(t: Text): int
    requires Shape(t)
  {
    if t.eol[t.cy] then 0 else t.cx
  }

  lemma OffsetIsNext(t: Text)
    requires Shape(t) && Pending(t)
    ensures Offset(t) == NextY(t) * |t.rows[0]| + NextX(t)
    ensures Offset(t) < |t.rows| * |t.rows[0]| ==> NextY(t) < |t.rows|
  {
    var w := |t.rows[0]|;
    assert (t.cy + 1) * w == t.cy * w + w;
    assert NextY(t) >= |t.rows| ==> (NextY(t) - |t.rows|) * w >= 0;
    assert (NextY(t) - |t.rows|) * w == NextY(t) * w - |t.rows| * w;
  }

  lemma OrdinaryPlacement(t: Text, c: char, m: Mode)
    requires Shape(t) && Pending(t) && Ordinary(c) && NextY(t) < |t.rows|
    requires forall y :: t.cy < y < |t.eol| ==> !t.eol[y]
    ensures var r := TypeByte(t, c, m);
      && r.ok && Shape(r.text) && Pending(r.text)
      && r.text.rows == t.rows[NextY(t) := t.rows[NextY(t)][NextX(t) := Cell(c, m.standout || m.so)]]
      && r.text.cy == NextY(t) && (forall y :: r.text.cy < y < |t.eol| ==> !r.text.eol[y])
      && r.text.cx + (if r.text.eol[r.text.cy] then 1 else 0) == NextX(t) + 1
  {
    TypeByteKeepsShape(t, c, m);
  }

  lemma OrdinaryStep(t: Text, c: char, m: Mode)
    requires Shape(t) && Pending(t) && Ordinary(c)
    requires Offset(t) < |t.rows| * |t.rows[0]|
    requires forall y :: t.cy < y < |t.eol| ==> !t.eol[y]
    ensures var r := TypeByte(t, c, m);
      && r.ok && Shape(r.text) && Pending(r.text)
      && |r.text.rows| == |t.rows| && |r.text.rows[0]| == |t.rows[0]|
      && Offset(r.text) == Offset(t) + 1
      && (forall y :: r.text.cy < y < |r.text.eol| ==> !r.text.eol[y])
      && forall p :: 0 <= p < |t.rows| * |t.rows[0]| ==>
           CellAt(r.text, p) == if p == Offset(t) then Cell(c, m.standout || m.so) else CellAt(t, p)
  {
    hide TypeByte, Offset, CellAt;
    OffsetIsNext(t);
    OrdinaryPlacement(t, c, m);
    OffsetMoves(t, TypeByte(t, c, m).text);
    forall p | 0 <= p < |t.rows| * |t.rows[0]|
      ensures CellAt(TypeByte(t, c, m).text, p) == if p == Offset(t) then Cell(c, m.standout || m.so) else CellAt(t, p)
    {
      OneCellChanges(t, TypeByte(t, c, m).text, Cell(c, m.standout || m.so), p);
    }
  }

  lemma OffsetMoves(t: Text, r: Text)
    requires Shape(t) && Shape(r) && Pending(t) && |r.rows[0]| == |t.rows[0]|
    requires r.cy == NextY(t) && r.cx + (if r.eol[r.cy] then 1 else 0) == NextX(t) + 1
    ensures Offset(r) == Offset(t) + 1
  {
    OffsetIsNext(t);
  }

  lemma OneCellChanges(t: Text, r: Text, cell: Cell, p: int)
    requires Shape(t) && Shape(r) && Pending(t) && 0 <= p < |t.rows| * |t.rows[0]|
    requires NextY(t) < |t.rows| && 0 <= NextX(t) < |t.rows[0]|
    requires r.rows == t.rows[NextY(t) := t.rows[NextY(t)][NextX(t) := cell]]
    ensures CellAt(r, p) == if p == Offset(t) then cell else CellAt(t, p)
  {
    var h, w, y, x := |t.rows|, |t.rows[0]|, NextY(t), NextX(t);
    OffsetIsNext(t);
    hide Offset, NextY, NextX;
    SamePosition(p, w, y, x);
    PositionInRange(p, h, w);
    assert |r.rows[0]| == w;
  }

  /** A cell's place in the row-by-row order determines its row and column. */
  lemma SamePosition(p: int, w: int, y: int, x: int)
    requires 0 < w && 0 <= x < w
    ensures p == y * w + x <==> (p / w == y && p % w == x)
  {
    if p == y * w + x {
      SplitPosition(p, w, y, x);
    }
    assert p == (p / w) * w + p % w;
  }

  /** Ordinary characters are laid out row by row from the cursor, wrapping at the right
      margin: the k-th one lands k cells on, and no other cell changes. */
  lemma {:induction false} TypingIsRowMajor(t: Text, s: seq<char>, m: Mode)
    requires Shape(t) && Pending(t)
    requires forall k :: 0 <= k < |s| ==> Ordinary(s[k])
    requires Offset(t) + |s| <= |t.rows| * |t.rows[0]|
    requires forall y :: t.cy < y < |t.eol| ==> !t.eol[y]
    ensures var r := TypeAll(t, s, m);
      && r.ok && Shape(r.text) && |r.text.rows| == |t.rows| && |r.text.rows[0]| == |t.rows[0]|
      && Offset(r.text) == Offset(t) + |s|
      && forall p :: 0 <= p < |t.rows| * |t.rows[0]| ==>
           CellAt(r.text, p) ==
             if Offset(t) <= p < Offset(t) + |s| then Cell(s[p - Offset(t)], m.standout || m.so) else CellAt(t, p)
    decreases |s|
  {
    if s != [] {
      OrdinaryStep(t, s[0], m);
      TypingIsRowMajor(TypeByte(t, s[0], m).text, s[1..], m);
    }
  }

  // ---------- control characters ----------

  /** Blanks that fit the row go into it from the cursor on. */
  lemma {:induction false} BlanksInRow(t: Text, n: nat, m: Mode)
    requires Shape(t) && !t.eol[t.cy] && t.cx + n <= |t.rows[0]|
    ensures var r := TypeBlanks(t, n, m);
      r.ok && r.text == t.(rows := r.text.rows, cx := r.text.cx, eol := r.text.eol)
      && r.text.cx == (if t.cx + n == |t.rows[0]| then t.cx + n - 1 else t.cx + n)
      && r.text.eol == (if t.cx + n == |t.rows[0]| then t.eol[t.cy := true] else t.eol)
      && FilledRow(t, r.text.rows, t.cx, t.cx + n, Cell(' ', m.standout || m.so))
    decreases n
  {
    if n == 0 {
      BlanksNone(t, m);
    } else {
      BlankInRow(t, m);
      TypeCharKeepsShape(t, ' ', m);
      BlanksStep(t, n, m);
      var u := TypeChar(t, ' ', m).text;
      hide TypeChar, TypeBlanks;
      if n > 1 {
        BlanksInRow(u, n - 1, m);
        FilledOn(t, u, TypeBlanks(u, n - 1, m).text.rows, t.cx + n, Cell(' ', m.standout || m.so));
      } else {
        BlanksNone(u, m);
      }
    }
  }

  /** The rows are those of t, but row cy holds this cell from column x to column upto. */
  ghost predicate FilledRow(t: Text, rows: seq<seq<Cell>>, x: int, upto: int, cell: Cell)
    requires Shape(t)
  {
    && |rows| == |t.rows|
    && forall y :: 0 <= y < |rows| ==> |rows[y]| == |t.rows[0]| && forall k :: 0 <= k < |t.rows[0]| ==>
         rows[y][k] == if y == t.cy && x <= k < upto then cell else t.rows[y][k]
  }

  lemma FilledOn(t: Text, u: Text, rows: seq<seq<Cell>>, upto: int, cell: Cell)
    requires Shape(t) && Shape(u) && u.cy == t.cy && u.cx == t.cx + 1 <= upto
    requires |u.rows| == |t.rows| && |u.rows[0]| == |t.rows[0]|
    requires FilledRow(t, u.rows, t.cx, t.cx + 1, cell) && FilledRow(u, rows, u.cx, upto, cell)
    ensures FilledRow(t, rows, t.cx, upto, cell)
  {
  }

  lemma BlankInRow(t: Text, m: Mode)
    requires Shape(t) && !t.eol[t.cy]
    ensures var r := TypeChar(t, ' ', m); var last := t.cx + 1 == |t.rows[0]|;
      r.ok && r.text.cy == t.cy && r.text.cx == (if last then t.cx else t.cx + 1)
      && r.text.eol == (if last then t.eol[t.cy := true] else t.eol)
      && FilledRow(t, r.text.rows, t.cx, t.cx + 1, Cell(' ', m.standout || m.so))
  {
  }

  /** A tab goes to the next tab stop, the least multiple of eight beyond the cursor, if the
      row reaches that far: it blanks the cells up to there and changes no other.  A stop at
      the margin leaves the cursor in the last column, run off. */
  lemma TabMeans(t: Text, m: Mode, stop: nat)
    requires Shape(t) && !t.eol[t.cy]
    requires stop % 8 == 0 && t.cx < stop <= t.cx + 8 && stop <= |t.rows[0]|
    ensures var r := TypeByte(t, '\t', m);
      && r.ok && r.text.cy == t.cy
      && r.text.cx == (if stop == |t.rows[0]| then stop - 1 else stop)
      && r.text.eol == (if stop == |t.rows[0]| then t.eol[t.cy := true] else t.eol)
      && FilledRow(t, r.text.rows, t.cx, stop, Cell(' ', m.standout))
  {
    NextStop(t.cx, stop);
    BlanksInRow(t, stop - t.cx, m.(so := false));
    hide FilledRow, TypeBlanks;
  }

  lemma NextStop(x: nat, stop: nat)
    requires stop % 8 == 0 && x < stop <= x + 8
    ensures 8 - x % 8 == stop - x
  {
  }

  /** Wherever the stop is, a tab is as many blanks as columns are missing to it; those that do
      not fit the row go on the next one, as all characters do. */
  lemma TabIsSpaces(t: Text, m: Mode, stop: nat)
    requires Shape(t) && stop % 8 == 0 && t.cx < stop <= t.cx + 8
    ensures TypeByte(t, '\t', m) == TypeAll(t, Spaces(stop - t.cx), m.(so := false))
  {
    NextStop(t.cx, stop);
    SpacesTyped(t, stop - t.cx, m.(so := false));
    hide TypeBlanks, TypeAll;
  }

  /** A return goes to column 0, a backspace one column to the left if there is one; neither
      changes a cell or a mark, and neither fails. */
  lemma ReturnAndBackspaceMean(t: Text, m: Mode)
    requires Shape(t)
    ensures var r := TypeByte(t, '\r', m); r.ok && r.text.cx == 0 && r.text == t.(cx := r.text.cx)
    ensures var r := TypeByte(t, '\U{0008}', m);
      r.ok && r.text == t.(cx := r.text.cx) && (r.text.cx + 1 == t.cx || r.text.cx == t.cx == 0)
  {
  }

  /** A newline blanks the cell (y, x): those of the row from the cursor on, or of the next row
      if the cursor has run off its own. */
  predicate NewlineBlanks(t: Text, y: int, x: int)
    requires 0 <= t.cy < |t.eol|
  {
    if t.eol[t.cy] then y == t.cy + 1 else y == t.cy && x >= t.cx
  }

  /** A newline goes to the start of the next row.  On the last row it scrolls everything up,
      or fails where that is not allowed. */
  lemma NewlineMeans(t: Text, m: Mode)
    requires Shape(t)
    ensures var r, h := TypeByte(t, '\n', m), |t.rows|;
      && Shape(r.text) && |r.text.rows| == h && |r.text.rows[0]| == |t.rows[0]|
      && r.ok == (t.cy + 1 < h || m.scrollOk)
      && r.text.cy == (if t.cy + 1 < h then t.cy + 1 else t.cy)
      && r.text.cx == (if !r.ok && m.nonl then t.cx else 0)
      && var up := if r.ok && t.cy + 1 == h then 1 else 0;
         && (forall y :: 0 <= y < h ==> r.text.eol[y] == (up == 0 && t.eol[y]))
         && forall y, x :: 0 <= y < h && 0 <= x < |t.rows[0]| ==>
              r.text.rows[y][x] == if y + up == h || NewlineBlanks(t, y + up, x) then BLANK else t.rows[y + up][x]
  {
    TypeByteKeepsShape(t, '\n', m);
    var u := ClearToEol(t);
    ClearToEolMeans(t);
    hide ClearToEol;
    if t.cy + 1 == |t.rows| && m.scrollOk {
      var v := if m.nonl then u else u.(cx := 0);
      ScrollMeans(v);
      hide ScrollText;
    }
  }

  /** A character after a run-off last row scrolls everything up and stands at the start of the
      new row, or fails where scrolling is not allowed. */
  lemma OrdinaryAtBottom(t: Text, c: char, m: Mode)
    requires Shape(t) && Ordinary(c) && t.eol[t.cy] && t.cy + 1 == |t.rows|
    ensures var r, h, w := TypeByte(t, c, m), |t.rows|, |t.rows[0]|;
      if !m.scrollOk then r == Typed(t.(eol := t.eol[t.cy := false]), false)
      else
        && r.ok && Shape(r.text) && |r.text.rows| == h && |r.text.rows[0]| == w
        && r.text.cy == t.cy && r.text.cx == (if w == 1 then 0 else 1)
        && (forall y :: 0 <= y < h ==> r.text.eol[y] == (w == 1 && y == t.cy))
        && forall y, x :: 0 <= y < h && 0 <= x < w ==>
             r.text.rows[y][x] == if y + 1 < h then t.rows[y + 1][x]
                                  else if x == 0 then Cell(c, m.standout || m.so) else BLANK
  {
    TypeByteKeepsShape(t, c, m);
    var u := t.(eol := t.eol[t.cy := false]);
    ScrollMeans(u);
    hide ScrollText;
  }

  // ---------- what the edits keep ----------

  /** The text with other cells: size, marks and cursor are those of t. */
  ghost predicate Reshaped(t: Text, r: Text)
    requires Shape(t)
  {
    && r == t.(rows := r.rows) && |r.rows| == |t.rows|
    && forall y :: 0 <= y < |r.rows| ==> |r.rows[y]| == |t.rows[0]|
  }

  lemma DeleteCharMeans(t: Text)
    requires Shape(t)
    ensures var r := DeleteChar(t); Reshaped(t, r) && forall y, x :: 0 <= y < |t.rows| && 0 <= x < |t.rows[0]| ==>
      r.rows[y][x] == if y != t.cy || x < t.cx then t.rows[y][x]
                      else if x + 1 < |t.rows[0]| then t.rows[y][x + 1]
                      else BLANK
  {
    var row, r := t.rows[t.cy], DeleteChar(t);
    assert r.rows[t.cy] == row[..t.cx] + row[t.cx + 1..] + [BLANK];
  }

  lemma ClearToEolMeans(t: Text)
    requires Shape(t)
    ensures var r := ClearToEol(t); Reshaped(t, r) && forall y, x :: 0 <= y < |t.rows| && 0 <= x < |t.rows[0]| ==>
      r.rows[y][x] == if NewlineBlanks(t, y, x) then BLANK else t.rows[y][x]
  {
  }

  lemma ClearToBottomMeans(t: Text)
    requires Shape(t)
    ensures var r := ClearToBottom(t); Reshaped(t, r) && forall y, x :: 0 <= y < |t.rows| && 0 <= x < |t.rows[0]| ==>
      r.rows[y][x] == if y > t.cy || (y == t.cy && !t.eol[y] && x >= t.cx) then BLANK else t.rows[y][x]
  {
  }

  lemma EraseMeans(t: Text)
    requires Shape(t)
    ensures var r := Erase(t); Reshaped(t, r) && forall y, x :: 0 <= y < |t.rows| && 0 <= x < |t.rows[0]| ==>
      r.rows[y][x] == BLANK
  {
  }

  /** Deleting and inserting a line leave the rows above it and the cursor, and move the
      others by one.  Run-off marks from the line on are dropped, unless it is the last. */
  lemma LinesMean(t: Text)
    requires Shape(t)
    ensures var r, h := DeleteLine(t), |t.rows|;
      && r == t.(rows := r.rows, eol := r.eol) && |r.rows| == |r.eol| == h
      && (forall y :: 0 <= y < h ==>
            r.rows[y] == if y < t.cy then t.rows[y] else if y + 1 < h then t.rows[y + 1] else BlankRow(|t.rows[0]|))
      && (forall y :: 0 <= y < h ==> r.eol[y] == (t.eol[y] && (y < t.cy || t.cy + 1 == h)))
    ensures var r, h := InsertLine(t), |t.rows|;
      && r == t.(rows := r.rows, eol := r.eol) && |r.rows| == |r.eol| == h
      && (forall y :: 0 <= y < h ==>
            r.rows[y] == if y < t.cy then t.rows[y] else if y > t.cy then t.rows[y - 1] else BlankRow(|t.rows[0]|))
      && (forall y :: 0 <= y < h ==> r.eol[y] == (t.eol[y] && (y < t.cy || t.cy + 1 == h)))
  {
  }

  /** A move inside the window takes the cursor there and drops the run-off marks of the row it
      leaves and the row it comes to; a move to anywhere else is refused. */
  lemma MoveMeans(t: Text, y: int, x: int)
    requires Shape(t)
    ensures var (r, ok) := MoveCursor(t, y, x);
      && (ok <==> 0 <= y < |t.rows| && 0 <= x < |t.rows[0]|)
      && (!ok ==> r == t)
      && (ok ==> r == t.(cy := y, cx := x, eol := r.eol) && |r.eol| == |t.eol|
                 && forall i :: 0 <= i < |t.eol| ==> r.eol[i] == (t.eol[i] && i != y && i != t.cy))
  {
  }

  /** A scroll moves every row up by one, drops all marks and leaves the cursor. */
  lemma ScrollMeans(t: Text)
    requires Shape(t)
    ensures var r, h := ScrollText(t), |t.rows|;
      && r == t.(rows := r.rows, eol := r.eol) && |r.rows| == |r.eol| == h
      && (forall y :: 0 <= y < h ==> r.rows[y] == if y + 1 < h then t.rows[y + 1] else BlankRow(|t.rows[0]|))
      && (forall y :: 0 <= y < h ==> !r.eol[y])
  {
    ScrollKeepsShape(t);
    var a := MoveCursor(t, 0, 0).0;
    var top := DeleteLine(a);
    LinesMean(a);
  }
}

/** Windows as the library keeps them: lines with change-tracking intervals. */
module Windows {
  import opened Terminal
  import opened WindowText

  datatype Line = Line(cells: seq<Cell>, dirty: bool, pastEol: bool, force: bool,
                       hash: int, firstch: int, lastch: int)

  /** Column x may have changed since the last refresh. */
  predicate Covers(l: Line, x: int) {
    l.dirty && l.firstch <= x <= l.lastch
  }

  /** `__touchline`: columns [sx, ex] of the line may have changed. */
  function Touched(l: Line, sx: int, ex: int, force: bool): (r: Line)
    ensures r.dirty && (force ==> r.force)
    ensures forall x :: Covers(r, x) <== Covers(l, x) || sx <= x <= ex
  {
    var f := l.force || force;
    if !l.dirty then l.(force := f, dirty := true, firstch := sx, lastch := ex)
    else l.(force := f, firstch := if l.firstch > sx then sx else l.firstch,
            lastch := if l.lastch < ex then ex else l.lastch)
  }

  ghost predicate LineOk(l: Line, maxx: int) {
    |l.cells| == maxx && (l.dirty ==> 0 <= l.firstch <= l.lastch < maxx) && (l.force ==> l.dirty)
  }

  /** Going from `before` to `after`, a cell that is not covered is a cell that was not
      covered and did not change, and no edit forces a line to be painted. */
  ghost predicate Tracks(before: seq<Line>, after: seq<Line>, maxx: int) {
    && |before| == |after| && (Unforced(before) ==> Unforced(after))
    && (forall y :: 0 <= y < |after| ==> |before[y].cells| == maxx && |after[y].cells| == maxx)
    && forall y, x :: 0 <= y < |after| && 0 <= x < maxx && !Covers(after[y], x) ==>
         !Covers(before[y], x) && after[y].cells[x] == before[y].cells[x]
  }

  /** No line is marked to be painted in full. */
  ghost predicate Unforced(ls: seq<Line>) {
    forall y :: 0 <= y < |ls| ==> !ls[y].force
  }

  lemma TracksTrans(a: seq<Line>, b: seq<Line>, c: seq<Line>, maxx: int)
    requires Tracks(a, b, maxx) && Tracks(b, c, maxx)
    ensures Tracks(a, c, maxx)
  {
  }

  function RowsOf(ls: seq<Line>): (r: seq<seq<Cell>>)
    ensures |r| == |ls|
  {
    seq(|ls|, y requires 0 <= y < |ls| => ls[y].cells)
  }

  function EolOf(ls: seq<Line>): (r: seq<bool>)
    ensures |r| == |ls|
  {
    seq(|ls|, y requires 0 <= y < |ls| => ls[y].pastEol)
  }

  /** The obligation of `Tracks` for one row: its cells, and for a line that stays there. */
  ghost predicate LineTracks(b: Line, a: Line, maxx: int) {
    CellsTracked(b, a, maxx) && (a.force ==> b.force)
  }

  ghost predicate CellsTracked(b: Line, a: Line, maxx: int) {
    |b.cells| == maxx && |a.cells| == maxx
    && forall x :: 0 <= x < maxx && !Covers(a, x) ==> !Covers(b, x) && a.cells[x] == b.cells[x]
  }

  lemma TracksByLine(a: seq<Line>, b: seq<Line>, maxx: int)
    requires |a| == |b| && (Unforced(a) ==> Unforced(b))
    requires forall y :: 0 <= y < |a| ==> CellsTracked(a[y], b[y], maxx)
    ensures Tracks(a, b, maxx)
  {
  }

  /** An edit confined to one row. */
  lemma OneRow(was: seq<Line>, now: seq<Line>, y: nat, maxx: int)
    requires y < |was| == |now| && now == was[y := now[y]]
    requires forall i :: 0 <= i < |was| ==> |was[i].cells| == maxx
    requires LineTracks(was[y], now[y], maxx)
    ensures Tracks(was, now, maxx)
    ensures RowsOf(was)[y] == was[y].cells && RowsOf(now) == RowsOf(was)[y := now[y].cells]
    ensures EolOf(was)[y] == was[y].pastEol && EolOf(now) == EolOf(was)[y := now[y].pastEol]
  {
  }

  lemma SameTracks(ls: seq<Line>, maxx: int)
    requires forall y :: 0 <= y < |ls| ==> |ls[y].cells| == maxx
    ensures Tracks(ls, ls, maxx)
  {
  }

  lemma TextOfLines(ls: seq<Line>)
    ensures forall y :: 0 <= y < |ls| ==> EolOf(ls)[y] == ls[y].pastEol && RowsOf(ls)[y] == ls[y].cells
  {
  }

  lemma ClearedTracks(l: Line, x: nat, maxx: int)
    requires LineOk(l, maxx) && x < maxx
    ensures var r := Touched(l.(cells := ClearFrom(l.cells, x)), x, maxx - 1, false);
      LineTracks(l, r, maxx) && r.cells == ClearFrom(l.cells, x) && r.pastEol == l.pastEol
  {
  }

  /** A line that moved to another row: dirty from end to end, mark dropped. */
  function Moved(l: Line, maxx: int): Line {
    Touched(l.(pastEol := false), 0, maxx - 1, false)
  }

  lemma DeletedLines(was: seq<Line>, now: seq<Line>, cy: int, cx: int, maxx: int)
    requires LineDeleted(was, now, cy, maxx) && 0 <= cx < maxx
    ensures Tracks(was, now, maxx)
    ensures Text(RowsOf(now), EolOf(now), cy, cx) == DeleteLine(Text(RowsOf(was), EolOf(was), cy, cx))
  {
    DeletedTracks(was, now, cy, maxx);
    DeletedRows(was, now, cy, maxx);
    DeletedMarks(was, now, cy, maxx);
    hide Tracks, RowsOf, EolOf, DropMarks;
  }

  /** What each line of the window is after a line was deleted. */
  ghost predicate LineDeleted(was: seq<Line>, now: seq<Line>, cy: int, maxx: int) {
    && 0 <= cy < |was| == |now| && 0 < maxx
    && (forall i :: 0 <= i < |was| ==> LineOk(was[i], maxx))
    && (forall i :: 0 <= i < cy ==> now[i] == was[i])
    && (forall i :: cy <= i < |was| - 1 ==> now[i] == Moved(was[i + 1], maxx))
    && var last := was[cy].(cells := BlankRow(maxx));
       now[|was| - 1] == if cy < |was| - 1 then Moved(last, maxx) else Touched(last, 0, maxx - 1, false)
  }

  lemma DeletedTracks(was: seq<Line>, now: seq<Line>, cy: int, maxx: int)
    requires LineDeleted(was, now, cy, maxx)
    ensures Tracks(was, now, maxx)
  {
    forall y | 0 <= y < |was|
      ensures CellsTracked(was[y], now[y], maxx)
    {
      if cy <= y < |was| - 1 {
        assert LineOk(was[y + 1], maxx) && now[y] == Moved(was[y + 1], maxx);
      }
    }
    TracksByLine(was, now, maxx);
  }

  lemma DeletedRows(was: seq<Line>, now: seq<Line>, cy: int, maxx: int)
    requires LineDeleted(was, now, cy, maxx)
    ensures RowsOf(now) == RowsOf(was)[..cy] + RowsOf(was)[cy + 1..] + [BlankRow(maxx)]
  {
  }

  lemma DeletedMarks(was: seq<Line>, now: seq<Line>, cy: int, maxx: int)
    requires LineDeleted(was, now, cy, maxx)
    ensures EolOf(now) == DropMarks(EolOf(was), cy)
  {
  }

  lemma InsertedLines(was: seq<Line>, now: seq<Line>, cy: int, cx: int, maxx: int)
    requires 0 <= cy < |was| == |now| && 0 <= cx < maxx
    requires forall i :: 0 <= i < |was| ==> LineOk(was[i], maxx)
    requires forall i :: 0 <= i < cy ==> now[i] == was[i]
    requires forall i :: cy < i < |was| ==> now[i] == Moved(was[i - 1], maxx)
    requires var fresh' := was[|was| - 1].(cells := BlankRow(maxx));
      now[cy] == if cy < |was| - 1 then Moved(fresh', maxx) else Touched(fresh', 0, maxx - 1, false)
    ensures Tracks(was, now, maxx)
    ensures Text(RowsOf(now), EolOf(now), cy, cx) == InsertLine(Text(RowsOf(was), EolOf(was), cy, cx))
  {
    var t := InsertLine(Text(RowsOf(was), EolOf(was), cy, cx));
    assert RowsOf(now) == t.rows;
    assert EolOf(now) == t.eol;
  }

  class Window {
    const maxy: int
    const maxx: int
    var lines: array<Line>
    var cury: int
    var curx: int
    var scrollOk: bool
    var clearOk: bool
    var leaveOk: bool
    var standout: bool

    ghost predicate Valid()
      reads this, lines
    {
      && 0 < maxy == lines.Length && 0 < maxx
      && 0 <= cury < maxy && 0 <= curx < maxx
      && forall y :: 0 <= y < maxy ==> LineOk(lines[y], maxx)
    }

    ghost function View(): (t: Text)
      reads this, lines
    {
      Text(RowsOf(lines[..]), EolOf(lines[..]), cury, curx)
    }

    /** The text changed to `t`, tracking every change, in the same lines array. */
    twostate predicate Edited(t: Text)
      reads this, lines
    {
      && Valid() && lines == old(lines) && View() == t
      && Tracks(old(lines[..]), lines[..], maxx)
    }

    constructor (nl: int, nc: int)
      requires 0 < nl && 0 < nc
      ensures Valid() && fresh(lines) && maxy == nl && maxx == nc
      ensures cury == curx == 0 && !scrollOk && !clearOk && !leaveOk && !standout
      ensures forall y :: 0 <= y < nl ==> lines[y].cells == BlankRow(nc) && !lines[y].dirty && !lines[y].pastEol && !lines[y].force
    {
      maxy, maxx, cury, curx := nl, nc, 0, 0;
      scrollOk, clearOk, leaveOk, standout := false, false, false, false;
      lines := new Line[nl](_ => Line(BlankRow(nc), false, false, false, 0, 0, 0));
    }

    method Touchline(y: int, sx: int, ex: int, force: bool)
      requires Valid() && 0 <= y < maxy && 0 <= sx <= ex < maxx
      modifies lines
      ensures Valid() && lines[..] == old(lines[..])[y := Touched(old(lines[y]), sx, ex, force)]
    {
      var l := lines[y];
      if force {
        l := l.(force := true);
      }
      if !l.dirty {
        l := l.(dirty := true, firstch := sx, lastch := ex);
      } else {
        if l.firstch > sx {
          l := l.(firstch := sx);
        }
        if l.lastch < ex {
          l := l.(lastch := ex);
        }
      }
      lines[y] := l;
    }

    /** Marks every line dirty from end to end. */
    method Touchwin()
      requires Valid()
      modifies lines
      ensures Valid()
      ensures forall y :: 0 <= y < maxy ==>
        lines[y] == Touched(old(lines[y]), 0, maxx - 1, false)
    {
      var y := 0;
      while y < maxy
        invariant Valid() && 0 <= y <= maxy
        invariant forall i :: 0 <= i < y ==> lines[i] == Touched(old(lines[i]), 0, maxx - 1, false)
        invariant forall i :: y <= i < maxy ==> lines[i] == old(lines[i])
      {
        Touchline(y, 0, maxx - 1, false);
        y := y + 1;
      }
    }

    method Wmove(y: int, x: int) returns (ok: bool)
      requires Valid()
      modifies this`cury, this`curx, lines
      ensures var (t, done) := MoveCursor(old(View()), y, x); Edited(t) && ok == done
    {
      if x < 0 || y < 0 {
        return false;
      }
      if x >= maxx || y >= maxy {
        return false;
      }
      curx := x;
      lines[cury] := lines[cury].(pastEol := false);
      cury := y;
      lines[y] := lines[y].(pastEol := false);
      return true;
    }
  
    /** The blanking loops of wdeleteln and winsertln. */
    static method BlankCells(l: Line, n: int) returns (r: Line)
      requires |l.cells| == n
      ensures r == l.(cells := BlankRow(n))
    {
      r := l;
      for i := 0 to n
        invariant r == l.(cells := BlankRow(i) + l.cells[i..])
      {
        r := r.(cells := r.cells[i := BLANK]);
      }
    }

    /** One step of the line rotations: row y takes over the line of row `from`. */
    method PullLine(y: int, from: int)
      requires Valid() && 0 <= y < maxy && 0 <= from < maxy && y != from
      modifies lines
      ensures Valid() && lines[y] == Moved(old(lines[from]), maxx) && lines[from] == old(lines[from]).(pastEol := false)
      ensures forall i :: 0 <= i < maxy && i != y && i != from ==> lines[i] == old(lines[i])
    {
      lines[y] := lines[y].(pastEol := false);
      lines[from] := lines[from].(pastEol := false);
      lines[y] := lines[from];
      Touchline(y, 0, maxx - 1, false);
    }

    /** Deletes the cursor's line; the lines below move up by rotating the lines array. */
    method Wdeleteln()
      requires Valid()
      modifies lines
      ensures Edited(DeleteLine(old(View())))
    {
      hide DeleteLine, RowsOf, EolOf, Tracks;
      ghost var was := lines[..];
      // `temp` is the cursor's line record, which the loop's first step takes the mark off.
      var temp := if cury < maxy - 1 then lines[cury].(pastEol := false) else lines[cury];
      temp := BlankCells(temp, maxx);
      var y := cury;
      while y < maxy - 1
        invariant cury <= y <= maxy - 1 && Valid()
        invariant forall i :: 0 <= i < cury ==> lines[i] == was[i]
        invariant forall i :: cury <= i < y ==> lines[i] == Moved(was[i + 1], maxx)
        invariant forall i :: y < i < maxy ==> lines[i] == was[i]
      {
        PullLine(y, y + 1);
        y := y + 1;
      }
      lines[y] := temp;
      Touchline(y, 0, maxx - 1, false);
      DeletedLines(was, lines[..], cury, curx, maxx);
    }

    /** Opens a blank line at the cursor; the lines below move down. */
    method Winsertln()
      requires Valid()
      modifies lines
      ensures Edited(InsertLine(old(View())))
    {
      hide InsertLine, RowsOf, EolOf, Tracks;
      ghost var was := lines[..];
      var temp := if cury < maxy - 1 then lines[maxy - 1].(pastEol := false) else lines[maxy - 1];
      temp := BlankCells(temp, maxx);
      var y := maxy - 1;
      while y > cury
        invariant cury <= y <= maxy - 1 && Valid()
        invariant forall i :: 0 <= i < y ==> lines[i] == was[i]
        invariant forall i :: y < i < maxy ==> lines[i] == Moved(was[i - 1], maxx)
        invariant lines[y] == was[y] || lines[y] == was[y].(pastEol := false)
        decreases y
      {
        PullLine(y, y - 1);
        y := y - 1;
      }
      lines[y] := temp;
      Touchline(y, 0, maxx - 1, false);
      InsertedLines(was, lines[..], cury, curx, maxx);
    }
  
    /** The scan shared by wclrtoeol, wclrtobot and werase: blanks the cells from
        column `startx` on and reports the first and last column that was not blank. */
    static method BlankFrom(was: seq<Cell>, startx: int) returns (cells: seq<Cell>, minx: int, last: int)
      requires 0 <= startx <= |was|
      ensures cells == ClearFrom(was, startx)
      ensures minx == -1 <==> forall x :: startx <= x < |was| ==> was[x] == BLANK
      ensures minx != -1 ==>
        startx <= minx <= last < |was| && was[minx] != BLANK && was[last] != BLANK
        && forall x :: startx <= x < |was| && was[x] != BLANK ==> minx <= x <= last
    {
      cells, minx, last := was, -1, -1;
      var sp := startx;
      while sp < |was|
        invariant startx <= sp <= |was| == |cells|
        invariant forall x :: 0 <= x < |was| ==> cells[x] == if startx <= x < sp then BLANK else was[x]
        invariant minx == -1 ==> forall x :: startx <= x < sp ==> was[x] == BLANK
        invariant minx != -1 ==>
          startx <= minx <= last < sp && was[minx] != BLANK && was[last] != BLANK
          && forall x :: startx <= x < sp && was[x] != BLANK ==> minx <= x <= last
      {
        if cells[sp].ch != ' ' || cells[sp].standout {
          last := sp;
          if minx == -1 {
            minx := sp;
          }
          cells := cells[sp := BLANK];
        }
        sp := sp + 1;
      }
    }

    /** Blanks row y from column `startx` on; the columns that were not blank already
        become dirty (the body of the loops of wclrtobot and werase). */
    method EraseRow(y: int, startx: int)
      requires Valid() && 0 <= y < maxy && 0 <= startx < maxx
      modifies lines
      ensures Valid()
      ensures forall i :: 0 <= i < maxy && i != y ==> lines[i] == old(lines[i])
      ensures lines[y].cells == ClearFrom(old(lines[y].cells), startx) && lines[y].pastEol == old(lines[y].pastEol)
      ensures lines[y].hash == old(lines[y].hash)
      ensures LineTracks(old(lines[y]), lines[y], maxx)
    {
      var cells, minx, last := BlankFrom(lines[y].cells, startx);
      lines[y] := lines[y].(cells := cells);
      if minx != -1 {
        Touchline(y, minx, last, false);
      }
    }

    method Wclrtoeol()
      requires Valid()
      modifies lines
      ensures Edited(ClearToEol(old(View())))
    {
      hide RowsOf, EolOf, Tracks, LineTracks, Touched;
      SameTracks(lines[..], maxx);
      TextOfLines(lines[..]);
      var y, x := cury, curx;
      if lines[y].pastEol {
        if y < maxy - 1 {
          y := y + 1;
          x := 0;
        } else {
          return;
        }
      }
      var cells, _, _ := BlankFrom(lines[y].cells, x);
      lines[y] := lines[y].(cells := cells);
      Touchline(y, x, maxx - 1, false);
      ClearedTracks(old(lines[y]), x, maxx);
      OneRow(old(lines[..]), lines[..], y, maxx);
      assert EolOf(lines[..]) == old(EolOf(lines[..]));
    }

    method Wclrtobot()
      requires Valid()
      modifies lines
      ensures Edited(ClearToBottom(old(View())))
    {
      var starty, startx := cury, curx;
      if lines[cury].pastEol {
        starty, startx := cury + 1, 0;
      }
      var y := starty;
      while y < maxy
        invariant starty <= y <= maxy && Valid()
        invariant startx == if y == cury then curx else 0
        invariant forall i :: 0 <= i < maxy && !(starty <= i < y) ==> lines[i] == old(lines[i])
        invariant forall i :: starty <= i < y ==>
          lines[i].cells == ClearFrom(old(lines[i].cells), if i == cury then curx else 0)
          && lines[i].pastEol == old(lines[i].pastEol) && LineTracks(old(lines[i]), lines[i], maxx)
      {
        EraseRow(y, startx);
        startx := 0;
        y := y + 1;
      }
      TracksByLine(old(lines[..]), lines[..], maxx);
      assert RowsOf(lines[..]) == ClearToBottom(old(View())).rows;
      assert EolOf(lines[..]) == old(View()).eol;
    }

    method Werase()
      requires Valid()
      modifies lines
      ensures Edited(Erase(old(View())))
      ensures forall y :: 0 <= y < maxy ==> lines[y].cells == BlankRow(maxx) && lines[y].hash == old(lines[y].hash)
    {
      var y := 0;
      while y < maxy
        invariant 0 <= y <= maxy && Valid()
        invariant forall i :: y <= i < maxy ==> lines[i] == old(lines[i])
        invariant forall i :: 0 <= i < y ==>
          lines[i].cells == BlankRow(maxx) && lines[i].hash == old(lines[i].hash)
          && lines[i].pastEol == old(lines[i].pastEol) && LineTracks(old(lines[i]), lines[i], maxx)
      {
        EraseRow(y, 0);
        assert ClearFrom(old(lines[y].cells), 0) == BlankRow(maxx);
        y := y + 1;
      }
      TracksByLine(old(lines[..]), lines[..], maxx);
      assert RowsOf(lines[..]) == Erase(old(View())).rows;
      assert EolOf(lines[..]) == old(View()).eol;
    }

    /** The shifting loop of wdelch. */
    static method ShiftLeft(was: seq<Cell>, x: int) returns (cells: seq<Cell>)
      requires 0 <= x < |was|
      ensures cells == was[..x] + was[x + 1..] + [BLANK]
    {
      cells := was;
      var temp := x;
      while temp < |was| - 1
        invariant x <= temp <= |was| - 1 && |cells| == |was|
        invariant cells == was[..x] + was[x + 1..temp + 1] + was[temp..]
      {
        assert cells[temp + 1] == was[temp + 1];
        cells := cells[temp := cells[temp + 1]];
        assert cells == was[..x] + was[x + 1..temp + 2] + was[temp + 1..];
        temp := temp + 1;
      }
      cells := cells[temp := BLANK];
    }

    /** Deletes the character under the cursor by shifting the rest of the line left. */
    method Wdelch()
      requires Valid()
      modifies lines
      ensures Edited(DeleteChar(old(View())))
    {
      var cells := ShiftLeft(lines[cury].cells, curx);
      assert forall x :: 0 <= x < curx ==> cells[x] == lines[cury].cells[x];
      lines[cury] := lines[cury].(cells := cells);
      Touchline(cury, curx, maxx - 1, false);
      OneRow(old(lines[..]), lines[..], cury, maxx);
    }

    /** Scrolls the text up a line, if the window allows it. */
    method Scroll() returns (ok: bool)
      requires Valid()
      modifies this`cury, this`curx, lines
      ensures ok == scrollOk
      ensures Edited(if ok then ScrollText(old(View())) else old(View()))
    {
      if !scrollOk {
        return false;
      }
      var oy, ox := cury, curx;
      ghost var a := lines[..];
      var _ := Wmove(0, 0);
      ghost var b := lines[..];
      Wdeleteln();
      ghost var c := lines[..];
      var _ := Wmove(oy, ox);
      TracksTrans(a, b, c, maxx);
      TracksTrans(a, c, lines[..], maxx);
      return true;
    }
  
    // ---------- waddbytes ----------

    /** The text as seen by waddbytes, whose cursor is in local variables. */
    ghost function At(y: int, x: int): Text
      reads this, lines
    {
      Text(RowsOf(lines[..]), EolOf(lines[..]), y, x)
    }

    ghost function Settings(so: bool, nonl: bool): Mode
      reads this
    {
      Mode(scrollOk, standout, so, nonl)
    }

    /** The text with the local cursor changed to `t`, every change tracked. */
    twostate predicate Typing(t: Text, y: int, x: int)
      reads this, lines
    {
      && Valid() && lines == old(lines) && At(y, x) == t && 0 <= y < maxy && 0 <= x < maxx
      && Tracks(old(lines[..]), lines[..], maxx)
    }

    /** Starts the next line, scrolling the window at the bottom. */
    method Newline(y: int, x: int, ghost m: Mode) returns (ok: bool, y': int, x': int)
      requires Valid() && 0 <= y < maxy && 0 <= x < maxx && m.scrollOk == scrollOk
      modifies this`cury, this`curx, lines
      ensures var r := NextLine(old(At(y, x)), m); ok == r.ok && Typing(r.text, y', x')
      ensures !scrollOk ==> cury == old(cury) && curx == old(curx)
    {
      ok, y', x' := true, y, x;
      ghost var was := At(y, x);
      if y == maxy - 1 {
        if scrollOk {
          cury, curx := y, x;
          var _ := Scroll();
          ScrollKeepsShape(was);
          y', x' := cury, 0;
        } else {
          ok := false;
        }
      } else {
        y', x' := y + 1, 0;
      }
    }

    /** Stores one character, marking its column dirty if the cell may change. */
    method StoreChar(y: int, x: int, c: char, so: bool) returns (x': int)
      requires Valid() && 0 <= y < maxy && 0 <= x < maxx
      modifies lines
      ensures var was := old(At(y, x));
        var row := was.rows[y][x := Cell(c, standout || so)];
        Typing(was.(rows := was.rows[y := row],
                    eol := if x == maxx - 1 then was.eol[y := true] else was.eol,
                    cx := if x == maxx - 1 then x else x + 1), y, x')
    {
      hide RowsOf, EolOf, Tracks;
      var l := lines[y];
      var stand := standout || so;
      if l.cells[x].ch != c || !(l.cells[x].standout && stand) {
        if !l.dirty {
          l := l.(dirty := true, firstch := x, lastch := x);
        } else if x < l.firstch {
          l := l.(firstch := x);
        } else if x > l.lastch {
          l := l.(lastch := x);
        }
      }
      l := l.(cells := l.cells[x := Cell(c, stand)]);
      x' := x;
      if x == maxx - 1 {
        l := l.(pastEol := true);
      } else {
        x' := x + 1;
      }
      ghost var was := lines[..];
      lines[y] := l;
      OneRow(was, lines[..], y, maxx);
    }

    /** An ordinary character. */
    method AddChar(y: int, x: int, c: char, so: bool, nonl: bool) returns (ok: bool, y': int, x': int)
      requires Valid() && 0 <= y < maxy && 0 <= x < maxx
      modifies this`cury, this`curx, lines
      ensures var r := TypeChar(old(At(y, x)), c, Settings(so, nonl)); ok == r.ok && Typing(r.text, y', x')
      ensures !scrollOk ==> cury == old(cury) && curx == old(curx)
    {
      hide NextLine, Tracks;
      ok, y', x' := true, y, x;
      ghost var a := lines[..];
      ghost var t := At(y, x);
      if lines[y].pastEol {
        lines[y] := lines[y].(pastEol := false);
        OneRow(a, lines[..], y, maxx);
        assert At(y, x) == t.(eol := t.eol[y := false]) by {
          assert RowsOf(lines[..]) == t.rows;
        }
        ghost var b := lines[..];
        ok, y', x' := Newline(y, x, Settings(so, nonl));
        TracksTrans(a, b, lines[..], maxx);
        if !ok {
          return;
        }
      }
      ghost var b := lines[..];
      x' := StoreChar(y', x', c, so);
      TracksTrans(a, b, lines[..], maxx);
    }
  
    method AddNewline(y: int, x: int, so: bool, nonl: bool) returns (ok: bool, y': int, x': int)
      requires Valid() && 0 <= y < maxy && 0 <= x < maxx
      modifies this`cury, this`curx, lines
      ensures var r := TypeNewline(old(At(y, x)), Settings(so, nonl)); ok == r.ok && Typing(r.text, y', x')
      ensures !scrollOk ==> cury == y && curx == x
    {
      hide NextLine, Tracks;
      ghost var a := lines[..];
      cury, curx := y, x;
      Wclrtoeol();
      ghost var b := lines[..];
      y', x' := cury, curx;
      if !nonl {
        x' := 0;
      }
      ok, y', x' := Newline(y', x', Settings(so, nonl));
      TracksTrans(a, b, lines[..], maxx);
    }

    /** A tab: the blanks to the next multiple of eight, typed by a nested call. */
    method AddTab(y: int, x: int, so: bool, nonl: bool) returns (ok: bool, y': int, x': int)
      requires Valid() && 0 <= y < maxy && 0 <= x < maxx
      modifies this`cury, this`curx, lines
      ensures 0 <= y' < maxy && 0 <= x' < maxx
      ensures var r := TypeByte(old(At(y, x)), '\t', Settings(so, nonl));
        ok == r.ok && Typing(if ok then r.text else r.text.(cy := y', cx := x'), y', x')
      ensures cury == y' && curx == x' && (!ok ==> cury == y && curx == x)
      decreases true, 0
    {
      hide TypeBlanks, TypeAll, Tracks, StoredBy;
      cury, curx := y, x;
      SpacesTyped(View(), 8 - x % 8, Settings(false, nonl));
      SpacesStore(View(), 8 - x % 8, Settings(false, nonl), y, x);
      hide RowsOf, EolOf;
      ok := Waddbytes(Spaces(8 - x % 8), false, nonl);
      y', x' := cury, curx;
    }

    method AddByte(y: int, x: int, c: char, so: bool, nonl: bool) returns (ok: bool, y': int, x': int)
      requires Valid() && 0 <= y < maxy && 0 <= x < maxx
      modifies this`cury, this`curx, lines
      ensures 0 <= y' < maxy && 0 <= x' < maxx
      ensures var r := TypeByte(old(At(y, x)), c, Settings(so, nonl));
        ok == r.ok && Typing(if ok then r.text else r.text.(cy := y', cx := x'), y', x')
      ensures !scrollOk ==> (cury, curx) == StoreAfter(old(At(y, x)), c, Settings(so, nonl), old(cury), old(curx))
      decreases c == '\t', 1
    {
      hide TypeChar, TypeNewline, TypeBlanks, Tracks;
      SameTracks(lines[..], maxx);
      ok, y', x' := true, y, x;
      match c
      case '\t' => ok, y', x' := AddTab(y, x, so, nonl);
      case '\n' => ok, y', x' := AddNewline(y, x, so, nonl);
      case '\r' => x' := 0;
      case '\U{0008}' =>
        x' := x - 1;
        if x' < 0 {
          x' := 0;
        }
      case _ => ok, y', x' := AddChar(y, x, c, so, nonl);
    }

    /** Types a string at the cursor.  When it fails, the text shows what was typed up
        to then, and the window has the cursor that was stored last. */
    method Waddbytes(bytes: seq<char>, so: bool, nonl: bool) returns (ok: bool)
      requires Valid()
      modifies this`cury, this`curx, lines
      ensures var r := TypeAll(old(View()), bytes, Settings(so, nonl));
        ok == r.ok && Edited(Written(old(View()), bytes, Settings(so, nonl)))
      decreases '\t' in bytes, 2
    {
      hide TypeByte, Tracks, StoreAfter;
      ghost var m := Settings(so, nonl);
      ghost var start, a := View(), lines[..];
      var y, x := cury, curx;
      var k := 0;
      assert bytes[0..] == bytes;
      SameTracks(a, maxx);
      ok := true;
      while k < |bytes|
        invariant 0 <= k <= |bytes| && 0 <= y < maxy && 0 <= x < maxx && ok
        invariant Valid() && lines == old(lines) && Tracks(a, lines[..], maxx) && Shape(At(y, x))
        invariant TypeAll(start, bytes, m) == TypeAll(At(y, x), bytes[k..], m)
        invariant !scrollOk ==>
          StoredBy(start, bytes, m, start.cy, start.cx) == StoredBy(At(y, x), bytes[k..], m, cury, curx)
      {
        var c := bytes[k];
        ghost var t, b := At(y, x), lines[..];
        assert bytes[k..][0] == c && bytes[k..][1..] == bytes[k + 1..];
        TypeByteKeepsShape(t, c, m);
        ok, y, x := AddByte(y, x, c, so, nonl);
        TracksTrans(a, b, lines[..], maxx);
        if !ok {
          if scrollOk { TypingFailsUnscrolled(t, c, m); }
          return;
        }
        k := k + 1;
      }
      StoredAtEnd(start, bytes, m, start.cy, start.cx);
      cury, curx := y, x;
    }
  }
}
