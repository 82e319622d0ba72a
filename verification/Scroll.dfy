/** Scrolling part of the screen (`scrolln`, Libcurses/refresh.c:711-847): the terminal
    commands that do to the terminal what quickch has just done to curscr. */
module Scroll {
  import opened Options
  import opened Terminal
  import opened CursorPlan
  import opened CursorMotion

  /** The scrolling capabilities: upper case take a line count, lower case move one line. */
  datatype ScrollCaps = ScrollCaps(CS: bool, AL: bool, DL: bool, SF: bool, SR: bool,
                                   al: bool, dl: bool, sf: bool, sr: bool)

  /** setterm's verdict that no quick change is possible. */
  predicate NoQuickChange(c: Caps, k: ScrollCaps) {
    && (!k.CS || c.ho.None? || (!k.SF && !k.sf) || (!k.SR && !k.sr))
    && ((!k.AL && !k.al) || (!k.DL && !k.dl))
  }

  /** Scrolln would have to abort: there is no way to take lines out, or none to put them in. */
  predicate AbortsUp(c: Caps, k: ScrollCaps, top: int, bot: int) {
    !RegionUp(c, k, top, bot) &&
    ((!(k.SF && top == 0) && !k.DL && !k.dl && !(k.sf && top == 0)) || (!k.AL && !k.al))
  }

  predicate AbortsDown(c: Caps, k: ScrollCaps, top: int, bot: int) {
    !RegionDown(c, k, top, bot) && ((!k.DL && !k.dl) || (!k.AL && !k.al))
  }

  /** Setterm's verdict is exact: quick changes are given up on a terminal if and only if one
      of the directions would abort, whatever the region. */
  lemma NoQuickChangeIff(c: Caps, k: ScrollCaps, top: int, bot: int)
    ensures NoQuickChange(c, k) <==> AbortsUp(c, k, top, bot) || AbortsDown(c, k, top, bot)
  {
    assert !k.AL || !k.DL ==> AlmostAll(k, top, bot, c.lines);
  }

  predicate AlmostAll(k: ScrollCaps, top: int, bot: int, maxy: int) {
    !k.AL || !k.DL || top > 3 || bot + 3 < maxy
  }

  predicate RegionUp(c: Caps, k: ScrollCaps, top: int, bot: int) {
    k.CS && c.ho.Some? && (k.SF || (AlmostAll(k, top, bot, c.lines) && k.sf))
  }

  predicate RegionDown(c: Caps, k: ScrollCaps, top: int, bot: int) {
    k.CS && c.ho.Some? && (k.SR || (AlmostAll(k, top, bot, c.lines) && k.sr))
  }

  /** The branches that scroll the whole screen from its last line without a scrolling
      region; afterwards the code takes the cursor to be on line `top`. */
  predicate ScrollsWholeScreen(c: Caps, k: ScrollCaps, top: int, bot: int) {
    !RegionUp(c, k, top, bot) && top == 0 && (k.SF || (!k.DL && !k.dl && k.sf))
  }

  function Many(param: bool, cmd: Cmd, one: Cmd, n: nat): seq<Cmd> {
    if param then [cmd] else Repeat(one, n)
  }

  function UpCmds(c: Caps, k: ScrollCaps, v: View, oy: int, ox: int, top: int, bot: int, n: nat): seq<Cmd>
    requires 0 < c.cols
  {
    if RegionUp(c, k, top, bot) then
      [SetRegion(top, bot + 1)] + Travel(c, v, oy, ox, 0, 0) + [Home] + Travel(c, v, 0, 0, bot, 0)
      + Many(k.SF, ScrollUp(n), ScrollUp(1), n)
      + [SetRegion(0, c.lines)] + Travel(c, v, bot, 0, 0, 0) + [Home] + Travel(c, v, 0, 0, oy, ox)
    else
      (if k.SF && top == 0 then Travel(c, v, oy, ox, bot, 0) + [ScrollUp(n)]
       else if k.DL || k.dl then Travel(c, v, oy, ox, top, 0) + Many(k.DL, DeleteLines(n), DeleteLines(1), n)
       else Travel(c, v, oy, ox, bot, 0) + Repeat(ScrollUp(1), n))
      + Travel(c, v, top, 0, bot - n + 1, 0)
      + Many(k.AL, InsertLines(n), InsertLines(1), n)
      + Travel(c, v, bot - n + 1, 0, oy, ox)
  }

  function DownCmds(c: Caps, k: ScrollCaps, v: View, oy: int, ox: int, top: int, bot: int, n: nat): seq<Cmd>
    requires 0 < c.cols
  {
    if RegionDown(c, k, top, bot) then
      [SetRegion(top, bot + 1)] + Travel(c, v, oy, ox, 0, 0) + [Home] + Travel(c, v, 0, 0, top, 0)
      + Many(k.SR, ScrollDown(n), ScrollDown(1), n)
      + [SetRegion(0, c.lines)] + Travel(c, v, top, 0, 0, 0) + [Home] + Travel(c, v, 0, 0, oy, ox)
    else
      Travel(c, v, oy, ox, bot - n + 1, 0)
      + Many(k.DL, DeleteLines(n), DeleteLines(1), n)
      + Travel(c, v, bot - n + 1, 0, top, 0)
      + Many(k.AL, InsertLines(n), InsertLines(1), n)
      + Travel(c, v, top, 0, oy, ox)
  }

  // ---------- motions from an unknown position ----------

  /** Going to the upper left corner sends only quiet commands. */
  lemma HomewardIsQuiet(c: Caps, v: View, oy: int, ox: int)
    requires OnScreen(c, oy, ox) && !c.nc
    ensures forall k :: 0 <= k < |Motion(c, v, oy, ox, 0, 0)| ==> Quiet(Motion(c, v, oy, ox, 0, 0)[k])
  {
    hide HomeColumnCost, LocalCost, TabbedCost, DryCost, TabRun, OvertabLeg;
    if !Stuck(c, oy, 0) {
      var h := HomeLeg(c, oy, ox, 0, 0);
      var r := ReturnLeg(c, h.y, h.x, 0, 0);
      var d := DownLeg(c, r.y, r.x, 0);
      var l := LeftLeg(d.y, d.x, 0);
      var u := UpLeg(l.y, l.x, 0);
      assert d.cmds == [];
      assert TabLeg(c, u.y, u.x, 0).cmds == [];
      var f := FrontLeg(c, oy, ox, 0, 0);
      assert f.cmds == h.cmds + r.cmds + d.cmds + l.cmds + u.cmds + [];
      assert f.x == 0;
    }
  }

  /** The detour through the upper left corner works from any cursor position. */
  lemma HomewardRuns(c: Caps, v: View, t: Term, oy: int, ox: int)
    requires Matches(c, t) && OnScreen(c, oy, ox) && !c.nc && c.ca && c.ho.Some?
    ensures Run(t, Travel(c, v, oy, ox, 0, 0) + [Home]) == t.(pos := At(0, 0))
  {
    hide Motion, Run, Exec;
    TravelOnScreen(c, v, oy, ox, 0, 0);
    HomewardIsQuiet(c, v, oy, ox);
    var cs := Motion(c, v, oy, ox, 0, 0);
    QuietRun(t, cs);
    RunConcat(t, cs, [Home]);
    RunOne(Run(t, cs), Home);
    HomeExec(Run(t, cs));
  }

  lemma HomeExec(t: Term)
    requires Sound(t)
    ensures Exec(t, Home) == t.(pos := At(0, 0))
  {
  }

  /** A move to column 0 along `Travel`. */
  lemma MarginRuns(c: Caps, v: View, t: Term, oy: int, ox: int, dy: int)
    requires Matches(c, t) && StartsAt(c, t, oy, ox) && !c.nc && c.ca
    requires OnScreen(c, oy, ox) && 0 <= dy < c.lines && dy < t.end
    ensures Run(t, Travel(c, v, oy, ox, dy, 0)) == t.(pos := At(dy, 0))
  {
    TravelOnScreen(c, v, oy, ox, dy, 0);
    MotionToMarginIsHarmless(c, v, t, oy, ox, dy);
  }

  // ---------- one line at a time is n lines at once ----------

  lemma {:induction false} ManyUp(t: Term, param: bool, n: nat)
    requires Sound(t) && t.pos.At? && t.pos.y == t.end - 1
    ensures Run(t, Many(param, ScrollUp(n), ScrollUp(1), n)) == t.(rows := ShiftUp(t.rows, t.cols, t.first, t.end, n))
    decreases n
  {
    if param {
      RunOne(t, ScrollUp(n));
    } else if n == 0 {
      assert ShiftUp(t.rows, t.cols, t.first, t.end, 0) == t.rows;
    } else {
      var t1 := Exec(t, ScrollUp(1));
      ShiftsKeepWidth(t, t.first, t.end, 1);
      RepeatStep(ScrollUp(1), n);
      assert Repeat(ScrollUp(1), n)[1..] == Repeat(ScrollUp(1), n - 1);
      ManyUp(t1, false, n - 1);
      ShiftUpCompose(t.rows, t.cols, t.first, t.end, 1, n - 1);
    }
  }

  lemma {:induction false} ManyDown(t: Term, param: bool, n: nat)
    requires Sound(t) && t.pos.At? && t.pos.y == t.first
    ensures Run(t, Many(param, ScrollDown(n), ScrollDown(1), n)) == t.(rows := ShiftDown(t.rows, t.cols, t.first, t.end, n))
    decreases n
  {
    if param {
      RunOne(t, ScrollDown(n));
    } else if n == 0 {
      assert ShiftDown(t.rows, t.cols, t.first, t.end, 0) == t.rows;
    } else {
      var t1 := Exec(t, ScrollDown(1));
      ShiftsKeepWidth(t, t.first, t.end, 1);
      RepeatStep(ScrollDown(1), n);
      assert Repeat(ScrollDown(1), n)[1..] == Repeat(ScrollDown(1), n - 1);
      ManyDown(t1, false, n - 1);
      ShiftDownCompose(t.rows, t.cols, t.first, t.end, 1, n - 1);
    }
  }

  lemma {:induction false} ManyDelete(t: Term, param: bool, n: nat)
    requires Sound(t) && t.pos.At? && t.first <= t.pos.y < t.end
    ensures Run(t, Many(param, DeleteLines(n), DeleteLines(1), n)) == t.(rows := ShiftUp(t.rows, t.cols, t.pos.y, t.end, n))
    decreases n
  {
    if param {
      RunOne(t, DeleteLines(n));
    } else if n == 0 {
      assert ShiftUp(t.rows, t.cols, t.pos.y, t.end, 0) == t.rows;
    } else {
      var t1 := Exec(t, DeleteLines(1));
      ShiftsKeepWidth(t, t.pos.y, t.end, 1);
      RepeatStep(DeleteLines(1), n);
      assert Repeat(DeleteLines(1), n)[1..] == Repeat(DeleteLines(1), n - 1);
      ManyDelete(t1, false, n - 1);
      ShiftUpCompose(t.rows, t.cols, t.pos.y, t.end, 1, n - 1);
    }
  }

  lemma {:induction false} ManyInsert(t: Term, param: bool, n: nat)
    requires Sound(t) && t.pos.At? && t.first <= t.pos.y < t.end
    ensures Run(t, Many(param, InsertLines(n), InsertLines(1), n)) == t.(rows := ShiftDown(t.rows, t.cols, t.pos.y, t.end, n))
    decreases n
  {
    if param {
      RunOne(t, InsertLines(n));
    } else if n == 0 {
      assert ShiftDown(t.rows, t.cols, t.pos.y, t.end, 0) == t.rows;
    } else {
      var t1 := Exec(t, InsertLines(1));
      ShiftsKeepWidth(t, t.pos.y, t.end, 1);
      RepeatStep(InsertLines(1), n);
      assert Repeat(InsertLines(1), n)[1..] == Repeat(InsertLines(1), n - 1);
      ManyInsert(t1, false, n - 1);
      ShiftDownCompose(t.rows, t.cols, t.pos.y, t.end, 1, n - 1);
    }
  }

  lemma ShiftsKeepWidth(t: Term, lo: int, hi: int, n: nat)
    requires Sound(t) && 0 <= lo <= hi <= |t.rows|
    ensures Sound(t.(rows := ShiftUp(t.rows, t.cols, lo, hi, n)))
    ensures Sound(t.(rows := ShiftDown(t.rows, t.cols, lo, hi, n)))
  {
    forall i | 0 <= i < |t.rows|
      ensures |ShiftUp(t.rows, t.cols, lo, hi, n)[i]| == t.cols
      ensures |ShiftDown(t.rows, t.cols, lo, hi, n)[i]| == t.cols
    {
      var u, d := ShiftUp(t.rows, t.cols, lo, hi, n), ShiftDown(t.rows, t.cols, lo, hi, n);
      assert u[i] == if i < lo || hi <= i then t.rows[i] else if i + n < hi then t.rows[i + n] else BlankRow(t.cols);
      assert d[i] == if i < lo || hi <= i then t.rows[i] else if lo <= i - n then t.rows[i - n] else BlankRow(t.cols);
    }
  }

  // ---------- the effect of a scroll ----------

  /** The terminal with rows [top, bot] scrolled by n, up or down, and nothing else changed. */
  function Scrolled(t: Term, top: int, bot: int, up: bool, n: nat): Term
    requires t.Term? && 0 <= top <= bot < |t.rows|
  {
    t.(rows := if up then ShiftUp(t.rows, t.cols, top, bot + 1, n) else ShiftDown(t.rows, t.cols, top, bot + 1, n))
  }

  /** The final motion of a scroll retraces curscr, which already shows the result. */
  ghost predicate ShowsResult(c: Caps, v: View, t: Term, oy: int) {
    && Sound(t) && v.Refresh? && v.rows == t.rows && v.standout == t.standout && 0 <= oy < |t.rows|
    && (c.nd.Some? || (!t.standout && forall x :: 0 <= x < t.cols ==> !t.rows[oy][x].standout))
  }

  ghost predicate Ready(c: Caps, t: Term, oy: int, ox: int, top: int, bot: int) {
    && Matches(c, t) && !c.nc && c.ca && t.first == 0 && t.end == c.lines
    && OnScreen(c, oy, ox) && StartsAt(c, t, oy, ox)
    && 0 <= top <= bot < c.lines
  }

  lemma FinalMotion(c: Caps, v: View, t: Term, y: int, oy: int, ox: int)
    requires Matches(c, t) && !c.nc && c.ca && t.end == c.lines
    requires t.pos == At(y, 0) && OnScreen(c, y, 0) && OnScreen(c, oy, ox)
    requires ShowsResult(c, v, t, oy)
    ensures Run(t, Travel(c, v, y, 0, oy, ox)) == t.(pos := At(oy, ox))
  {
    TravelOnScreen(c, v, y, 0, oy, ox);
    MotionKeepsScreenIff(c, v, t, y, 0, oy, ox);
  }

  /** With a scrolling region: set it, scroll at its edge, and set it back. */
  lemma RegionScroll(c: Caps, v: View, t: Term, oy: int, ox: int, top: int, bot: int, up: bool,
                     edge: int, body: seq<Cmd>, n: nat)
    requires Ready(c, t, oy, ox, top, bot) && c.ho.Some?
    requires edge == if up then bot else top
    requires var t1 := t.(first := top, end := bot + 1, pos := At(edge, 0));
      Run(t1, body) == Scrolled(t1, top, bot, up, n)
    requires ShowsResult(c, v, Scrolled(t, top, bot, up, n), oy)
    ensures Run(t, [SetRegion(top, bot + 1)] + Travel(c, v, oy, ox, 0, 0) + [Home] + Travel(c, v, 0, 0, edge, 0)
                   + body
                   + [SetRegion(0, c.lines)] + Travel(c, v, edge, 0, 0, 0) + [Home] + Travel(c, v, 0, 0, oy, ox))
         == Scrolled(t, top, bot, up, n).(pos := At(oy, ox))
  {
    hide Run, Exec, Travel;
    ShiftsKeepWidth(t, top, bot + 1, n);
    var a := [SetRegion(top, bot + 1)];
    var b := Travel(c, v, oy, ox, 0, 0) + [Home];
    var d := Travel(c, v, 0, 0, edge, 0);
    var e := [SetRegion(0, c.lines)];
    var f := Travel(c, v, edge, 0, 0, 0) + [Home];
    var g := Travel(c, v, 0, 0, oy, ox);
    var t1 := t.(first := top, end := bot + 1, pos := Unknown);
    RegionExec(t, top, bot + 1);
    RunOne(t, SetRegion(top, bot + 1));
    HomewardRuns(c, v, t1, oy, ox);
    var t2 := t1.(pos := At(0, 0));
    MarginRuns(c, v, t2, 0, 0, edge);
    var t3 := t1.(pos := At(edge, 0));
    var t4 := Scrolled(t3, top, bot, up, n);
    RegionExec(t4, 0, c.lines);
    RunOne(t4, SetRegion(0, c.lines));
    var t5 := t4.(first := 0, end := c.lines, pos := Unknown);
    HomewardRuns(c, v, t5, edge, 0);
    var t6 := t5.(pos := At(0, 0));
    FinalMotion(c, v, t6, 0, oy, ox);
    Chain6(t, a, b, d, body, e, f, g);
    assert a + Travel(c, v, oy, ox, 0, 0) + [Home] + d + body + e + Travel(c, v, edge, 0, 0, 0) + [Home] + g
        == a + b + d + body + e + f + g;
  }

  lemma RegionExec(t: Term, first: int, end: int)
    requires t.Term? && 0 <= first < end <= |t.rows|
    ensures Exec(t, SetRegion(first, end)) == t.(first := first, end := end, pos := Unknown)
  {
  }

  lemma Chain6(t: Term, a: seq<Cmd>, b: seq<Cmd>, d: seq<Cmd>, body: seq<Cmd>, e: seq<Cmd>, f: seq<Cmd>, g: seq<Cmd>)
    ensures Run(t, a + b + d + body + e + f + g) == Run(Run(Run(Run(Run(Run(Run(t, a), b), d), body), e), f), g)
  {
    hide Run;
    RunConcat(t, a, b);
    RunConcat(t, a + b, d);
    RunConcat(t, a + b + d, body);
    RunConcat(t, a + b + d + body, e);
    RunConcat(t, a + b + d + body + e, f);
    RunConcat(t, a + b + d + body + e + f, g);
  }

  /** Without one: delete lines where the region starts to move, insert as many at the
      other end, so that what lies below the region comes back to its place. */
  lemma LinesScroll(c: Caps, v: View, t: Term, oy: int, ox: int, top: int, bot: int, up: bool,
                    DL: bool, AL: bool, n: nat)
    requires Ready(c, t, oy, ox, top, bot) && 0 < n <= bot - top
    requires ShowsResult(c, v, Scrolled(t, top, bot, up, n), oy)
    ensures var from, to := if up then top else bot - n + 1, if up then bot - n + 1 else top;
      Run(t, Travel(c, v, oy, ox, from, 0) + Many(DL, DeleteLines(n), DeleteLines(1), n)
             + Travel(c, v, from, 0, to, 0) + Many(AL, InsertLines(n), InsertLines(1), n) + Travel(c, v, to, 0, oy, ox))
      == Scrolled(t, top, bot, up, n).(pos := At(oy, ox))
  {
    hide Run, Travel, Many, ShiftUp, ShiftDown;
    var from, to := if up then top else bot - n + 1, if up then bot - n + 1 else top;
    LinesMoved(c, v, t, oy, ox, top, bot, up, DL, AL, n);
    ShiftsKeepWidth(t, top, bot + 1, n);
    FinalMotion(c, v, Scrolled(t, top, bot, up, n).(pos := At(to, 0)), to, oy, ox);
    RunConcat(t, Travel(c, v, oy, ox, from, 0) + Many(DL, DeleteLines(n), DeleteLines(1), n)
                 + Travel(c, v, from, 0, to, 0) + Many(AL, InsertLines(n), InsertLines(1), n), Travel(c, v, to, 0, oy, ox));
  }

  lemma LinesMoved(c: Caps, v: View, t: Term, oy: int, ox: int, top: int, bot: int, up: bool,
                   DL: bool, AL: bool, n: nat)
    requires Ready(c, t, oy, ox, top, bot) && 0 < n <= bot - top
    ensures var from, to := if up then top else bot - n + 1, if up then bot - n + 1 else top;
      Run(t, Travel(c, v, oy, ox, from, 0) + Many(DL, DeleteLines(n), DeleteLines(1), n)
             + Travel(c, v, from, 0, to, 0) + Many(AL, InsertLines(n), InsertLines(1), n))
      == Scrolled(t, top, bot, up, n).(pos := At(to, 0))
  {
    hide Run, Exec, Travel, Many, ShiftUp, ShiftDown;
    var from, to := if up then top else bot - n + 1, if up then bot - n + 1 else top;
    var a, del := Travel(c, v, oy, ox, from, 0), Many(DL, DeleteLines(n), DeleteLines(1), n);
    var b, ins := Travel(c, v, from, 0, to, 0), Many(AL, InsertLines(n), InsertLines(1), n);
    MarginRuns(c, v, t, oy, ox, from);
    var t1 := t.(pos := At(from, 0));
    ManyDelete(t1, DL, n);
    ShiftsKeepWidth(t1, from, c.lines, n);
    var t2 := t1.(rows := ShiftUp(t1.rows, t1.cols, from, c.lines, n));
    MarginRuns(c, v, t2, from, 0, to);
    var t3 := t2.(pos := At(to, 0));
    ManyInsert(t3, AL, n);
    DeleteInsert(t.rows, t.cols, top, bot, up, n);
    RunConcat(t, a, del);
    RunConcat(t, a + del, b);
    RunConcat(t, a + del + b, ins);
  }

  /** The two line edits together move only the region. */
  lemma DeleteInsert(rows: seq<seq<Cell>>, cols: nat, top: int, bot: int, up: bool, n: nat)
    requires 0 <= top <= bot < |rows| && 0 < n <= bot - top
    ensures up ==>
      ShiftDown(ShiftUp(rows, cols, top, |rows|, n), cols, bot - n + 1, |rows|, n) == ShiftUp(rows, cols, top, bot + 1, n)
    ensures !up ==>
      ShiftDown(ShiftUp(rows, cols, bot - n + 1, |rows|, n), cols, top, |rows|, n) == ShiftDown(rows, cols, top, bot + 1, n)
  {
  }

  /** Scrolling up leaves the terminal with the region scrolled and the cursor back
      where it was. */
  lemma ScrollUpEffect(c: Caps, k: ScrollCaps, v: View, t: Term, oy: int, ox: int, top: int, bot: int, n: nat)
    requires Ready(c, t, oy, ox, top, bot) && 0 < n <= bot - top
    requires !NoQuickChange(c, k) && !ScrollsWholeScreen(c, k, top, bot)
    requires ShowsResult(c, v, Scrolled(t, top, bot, true, n), oy)
    ensures Run(t, UpCmds(c, k, v, oy, ox, top, bot, n)) == Scrolled(t, top, bot, true, n).(pos := At(oy, ox))
  {
    hide Run, Exec, Travel;
    if RegionUp(c, k, top, bot) {
      var t1 := t.(first := top, end := bot + 1, pos := At(bot, 0));
      var body := Many(k.SF, ScrollUp(n), ScrollUp(1), n);
      ManyUp(t1, k.SF, n);
      RegionScroll(c, v, t, oy, ox, top, bot, true, bot, body, n);
    } else {
      LinesScroll(c, v, t, oy, ox, top, bot, true, k.DL, k.AL, n);
    }
  }

  lemma ScrollDownEffect(c: Caps, k: ScrollCaps, v: View, t: Term, oy: int, ox: int, top: int, bot: int, n: nat)
    requires Ready(c, t, oy, ox, top, bot) && 0 < n <= bot - top
    requires !NoQuickChange(c, k)
    requires ShowsResult(c, v, Scrolled(t, top, bot, false, n), oy)
    ensures Run(t, DownCmds(c, k, v, oy, ox, top, bot, n)) == Scrolled(t, top, bot, false, n).(pos := At(oy, ox))
  {
    hide Run, Exec, Travel;
    if RegionDown(c, k, top, bot) {
      var t1 := t.(first := top, end := bot + 1, pos := At(top, 0));
      var body := Many(k.SR, ScrollDown(n), ScrollDown(1), n);
      ManyDown(t1, k.SR, n);
      RegionScroll(c, v, t, oy, ox, top, bot, false, top, body, n);
    } else {
      LinesScroll(c, v, t, oy, ox, top, bot, false, k.DL, k.AL, n);
    }
  }

  // ---------- the code ----------

  method Tputs(m: Mover, cmd: Cmd)
    modifies m`out
    ensures m.out == old(m.out) + [cmd]
  {
    m.out := m.out + [cmd];
  }

  /** One parameterized string, or the single-line string n times. */
  method TputsMany(m: Mover, param: bool, cmd: Cmd, one: Cmd, n: nat)
    modifies m`out
    ensures m.out == old(m.out) + Many(param, cmd, one, n)
  {
    if param {
      Tputs(m, cmd);
    } else {
      var i := 0;
      while i < n
        invariant 0 <= i <= n && m.out == old(m.out) + Repeat(one, i)
      {
        Tputs(m, one);
        i := i + 1;
        RepeatStep(one, i);
      }
    }
  }

  /** The scroll inside a scrolling region, in either direction. */
  method ScrollRegion(m: Mover, v: View, oy: int, ox: int, top: int, bot: int, edge: int,
                      param: bool, cmd: Cmd, one: Cmd, n: nat)
    requires 0 < m.c.cols && 0 <= ox && Addressable(m.c)
    modifies m
    ensures m.out == old(m.out)
      + ([SetRegion(top, bot + 1)] + Travel(m.c, v, oy, ox, 0, 0) + [Home] + Travel(m.c, v, 0, 0, edge, 0)
         + Many(param, cmd, one, n)
         + [SetRegion(0, m.c.lines)] + Travel(m.c, v, edge, 0, 0, 0) + [Home] + Travel(m.c, v, 0, 0, oy, ox))
  {
    hide Travel, Many;
    Tputs(m, SetRegion(top, bot + 1));
    m.Mvcur(oy, ox, 0, 0, v);
    Tputs(m, Home);
    m.Mvcur(0, 0, edge, 0, v);
    ghost var a := [SetRegion(top, bot + 1)] + Travel(m.c, v, oy, ox, 0, 0) + [Home] + Travel(m.c, v, 0, 0, edge, 0);
    assert m.out == old(m.out) + a;
    TputsMany(m, param, cmd, one, n);
    Tputs(m, SetRegion(0, m.c.lines));
    ghost var b := a + Many(param, cmd, one, n) + [SetRegion(0, m.c.lines)];
    assert m.out == old(m.out) + b;
    m.Mvcur(edge, 0, 0, 0, v);
    Tputs(m, Home);
    m.Mvcur(0, 0, oy, ox, v);
    assert m.out == old(m.out) + (b + Travel(m.c, v, edge, 0, 0, 0) + [Home] + Travel(m.c, v, 0, 0, oy, ox));
  }

  method ScrollForward(m: Mover, k: ScrollCaps, v: View, oy: int, ox: int, top: int, bot: int, n: nat)
    requires 0 < m.c.cols && 0 <= ox && Addressable(m.c) && !NoQuickChange(m.c, k)
    modifies m
    ensures m.out == old(m.out) + UpCmds(m.c, k, v, oy, ox, top, bot, n)
  {
    hide Travel, Many;
    if k.CS && m.c.ho.Some? && (k.SF || ((!k.AL || !k.DL || top > 3 || bot + 3 < m.c.lines) && k.sf)) {
      ScrollRegion(m, v, oy, ox, top, bot, bot, k.SF, ScrollUp(n), ScrollUp(1), n);
      return;
    }
    ghost var a: seq<Cmd>;
    if k.SF && top == 0 {
      m.Mvcur(oy, ox, bot, 0, v);
      Tputs(m, ScrollUp(n));
      a := Travel(m.c, v, oy, ox, bot, 0) + [ScrollUp(n)];
    } else if k.DL || k.dl {
      m.Mvcur(oy, ox, top, 0, v);
      TputsMany(m, k.DL, DeleteLines(n), DeleteLines(1), n);
      a := Travel(m.c, v, oy, ox, top, 0) + Many(k.DL, DeleteLines(n), DeleteLines(1), n);
    } else {
      // abort() is unreachable: without DL and dl there is a region to scroll in.
      assert false;
    }
    assert m.out == old(m.out) + a;
    m.Mvcur(top, 0, bot - n + 1, 0, v);
    assert k.AL || k.al;
    TputsMany(m, k.AL, InsertLines(n), InsertLines(1), n);
    ghost var b := a + Travel(m.c, v, top, 0, bot - n + 1, 0) + Many(k.AL, InsertLines(n), InsertLines(1), n);
    assert m.out == old(m.out) + b;
    m.Mvcur(bot - n + 1, 0, oy, ox, v);
    assert m.out == old(m.out) + (b + Travel(m.c, v, bot - n + 1, 0, oy, ox));
  }

  method ScrollBackward(m: Mover, k: ScrollCaps, v: View, oy: int, ox: int, top: int, bot: int, n: nat)
    requires 0 < m.c.cols && 0 <= ox && Addressable(m.c) && !NoQuickChange(m.c, k)
    requires bot < m.c.lines
    modifies m
    ensures m.out == old(m.out) + DownCmds(m.c, k, v, oy, ox, top, bot, n)
  {
    hide Travel, Many;
    if k.CS && m.c.ho.Some? && (k.SR || ((!k.AL || !k.DL || top > 3 || bot + 3 < m.c.lines) && k.sr)) {
      ScrollRegion(m, v, oy, ox, top, bot, top, k.SR, ScrollDown(n), ScrollDown(1), n);
      return;
    }
    m.Mvcur(oy, ox, bot - n + 1, 0, v);
    // The branches that reverse-scroll from line maxy cannot be taken: bot < maxy.
    assert k.DL || k.dl;
    TputsMany(m, k.DL, DeleteLines(n), DeleteLines(1), n);
    ghost var a := Travel(m.c, v, oy, ox, bot - n + 1, 0) + Many(k.DL, DeleteLines(n), DeleteLines(1), n);
    assert m.out == old(m.out) + a;
    m.Mvcur(bot - n + 1, 0, top, 0, v);
    assert k.AL || k.al;
    TputsMany(m, k.AL, InsertLines(n), InsertLines(1), n);
    ghost var b := a + Travel(m.c, v, bot - n + 1, 0, top, 0) + Many(k.AL, InsertLines(n), InsertLines(1), n);
    assert m.out == old(m.out) + b;
    m.Mvcur(top, 0, oy, ox, v);
    assert m.out == old(m.out) + (b + Travel(m.c, v, top, 0, oy, ox));
  }

  /** Scrolls rows [top, bot] by starts - startw lines (up if positive).  None of the
      calls to abort() is reachable when setterm found a way to scroll. */
  method Scrolln(m: Mover, k: ScrollCaps, v: View, starts: int, startw: int, bot: int, top: int, oy: int, ox: int)
    requires 0 < m.c.cols && 0 <= ox && Addressable(m.c) && !NoQuickChange(m.c, k)
    requires bot < m.c.lines && starts != startw
    modifies m
    ensures m.out == old(m.out) +
      if starts > startw then UpCmds(m.c, k, v, oy, ox, top, bot, starts - startw)
      else DownCmds(m.c, k, v, oy, ox, top, bot, startw - starts)
  {
    hide UpCmds, DownCmds;
    var n := starts - startw;
    if n > 0 {
      ScrollForward(m, k, v, oy, ox, top, bot, n);
    } else {
      ScrollBackward(m, k, v, oy, ox, top, bot, -n);
    }
  }

  // ---------- when scrolling works ----------

  /** Scrolling the whole screen with the cursor on the last row of a region that ends
      above the last line of the screen does not scroll the region. */
  lemma WholeScreenScrollBreaks(c: Caps, k: ScrollCaps, v: View, t: Term, oy: int, ox: int, top: int, bot: int, n: nat)
    requires Ready(c, t, oy, ox, top, bot) && 0 < n
    requires ScrollsWholeScreen(c, k, top, bot) && bot < c.lines - 1
    ensures var r := Run(t, UpCmds(c, k, v, oy, ox, top, bot, n)); r.Garbled? && r.mishaps > t.mishaps
  {
    hide Run, Exec, Travel, UpCmds, ScrollsWholeScreen;
    var a := Travel(c, v, oy, ox, bot, 0);
    var first, rest := WholeScreenStart(c, k, v, oy, ox, top, bot, n);
    MarginRuns(c, v, t, oy, ox, bot);
    RunConcat(t, a, [first]);
    RunOne(t.(pos := At(bot, 0)), first);
    NotAtTheEdge(t.(pos := At(bot, 0)), first);
    RunConcat(t, a + [first], rest);
    GarbledStays(Run(t, a + [first]), rest);
    MishapsStay(Run(t, a + [first]), rest);
  }

  lemma WholeScreenStart(c: Caps, k: ScrollCaps, v: View, oy: int, ox: int, top: int, bot: int, n: nat)
    returns (first: Cmd, rest: seq<Cmd>)
    requires 0 < c.cols && ScrollsWholeScreen(c, k, top, bot) && 0 < n
    ensures first.ScrollUp? && UpCmds(c, k, v, oy, ox, top, bot, n) == (Travel(c, v, oy, ox, bot, 0) + [first]) + rest
  {
    hide Travel, Many;
    first := if k.SF then ScrollUp(n) else ScrollUp(1);
    var more := if k.SF then [] else Repeat(ScrollUp(1), n - 1);
    rest := more + Travel(c, v, top, 0, bot - n + 1, 0) + Many(k.AL, InsertLines(n), InsertLines(1), n)
      + Travel(c, v, bot - n + 1, 0, oy, ox);
    if !k.SF { RepeatStep(ScrollUp(1), n); }
  }

  lemma NotAtTheEdge(t: Term, cmd: Cmd)
    requires Sound(t) && t.pos.At? && t.pos.y != t.end - 1 && cmd.ScrollUp?
    ensures Exec(t, cmd) == Garbled(t.mishaps + 1)
  {
  }

  /** It does fall back: a screen of four lines on a terminal with SF, DL and AL but no
      scrolling region. */
  lemma WholeScreenScrollExample()
    ensures var c := Caps(true, true, true, false, false, false, false, None, None, None, None, None,
                          None, None, Some(1), (y, x) => 1, 4, 5);
      var k := ScrollCaps(false, true, true, true, false, false, false, false, false);
      var t := Term([BlankRow(5), BlankRow(5), BlankRow(5), BlankRow(5)], 5, At(0, 4), 0, 4, false, true, true, 0);
      && !NoQuickChange(c, k) && ScrollsWholeScreen(c, k, 0, 2)
      && Run(t, UpCmds(c, k, Refresh(t.rows, false), 0, 4, 0, 2, 1)).Garbled?
  {
    var c := Caps(true, true, true, false, false, false, false, None, None, None, None, None,
                  None, None, Some(1), (y, x) => 1, 4, 5);
    var k := ScrollCaps(false, true, true, true, false, false, false, false, false);
    var t := Term([BlankRow(5), BlankRow(5), BlankRow(5), BlankRow(5)], 5, At(0, 4), 0, 4, false, true, true, 0);
    hide Run, UpCmds;
    WholeScreenScrollBreaks(c, k, Refresh(t.rows, false), t, 0, 4, 0, 2, 1);
  }

  // ---------- a region that ends on the last line ----------

  /** Scrolling the whole screen leaves the cursor on the last line, while the code takes it
      to be on line 0 and moves on to line bot - n + 1.  It gets there if it addresses the
      cursor, or if its plan starts at the lower left corner. */
  predicate FindsBottom(c: Caps, v: View, bot: int, n: nat)
    requires 0 < c.cols
  {
    !UsesPlan(c, v, 0, 0, bot - n + 1, 0) || (c.ho.Some? && c.ll.Some? && 2 * n < bot && (n == 1 || c.up.Some?))
  }

  /** Otherwise it sends that many line feeds. */
  lemma PlanDown(c: Caps, v: View, n: nat)
    requires 0 < c.cols && 0 < n < c.lines && !c.nc && UsesPlan(c, v, 0, 0, c.lines - n, 0)
    ensures var cs := Motion(c, v, 0, 0, c.lines - n, 0);
      if FindsBottom(c, v, c.lines - 1, n) then cs != [] && cs[0] == LowerLeft else cs == Repeat(LineFeed, c.lines - n)
  {
    hide HomeLeg, Plan, UsesPlan, FindsBottom;
    HomesDown(c, v, n);
    if FindsBottom(c, v, c.lines - 1, n) {
      PlanStartsHome(c, v, c.lines - n);
    } else {
      FeedsDown(c, v, c.lines - n);
    }
  }

  lemma HomesDown(c: Caps, v: View, n: nat)
    requires 0 < c.cols && 0 < n < c.lines && UsesPlan(c, v, 0, 0, c.lines - n, 0)
    ensures HomeLeg(c, 0, 0, c.lines - n, 0) ==
      if FindsBottom(c, v, c.lines - 1, n) then Leg([LowerLeft], c.lines - 1, 0) else Leg([], 0, 0)
  {
    hide UsesPlan;
  }

  lemma PlanStartsHome(c: Caps, v: View, d: int)
    requires 0 < c.cols && 0 < d && HomeLeg(c, 0, 0, d, 0).cmds == [LowerLeft]
    ensures var cs := Plan(c, v, 0, 0, d, 0); cs != [] && cs[0] == LowerLeft
  {
    hide HomeLeg, ReturnLeg, DownLeg, LeftLeg, UpLeg, TabLeg, Rights;
  }

  lemma FeedsDown(c: Caps, v: View, d: int)
    requires 0 < c.cols && 0 < d && !c.nc && HomeLeg(c, 0, 0, d, 0) == Leg([], 0, 0)
    ensures Plan(c, v, 0, 0, d, 0) == Repeat(LineFeed, d)
  {
    hide HomeLeg;
    assert ReturnLeg(c, 0, 0, d, 0) == Leg([], 0, 0);
    assert FrontLeg(c, 0, 0, d, 0) == Leg(Repeat(LineFeed, d), d, 0);
  }

  /** From the last line, the motion the code makes from line 0. */
  lemma FromTheBottom(c: Caps, v: View, t: Term, n: nat)
    requires Matches(c, t) && !c.nc && c.ca && t.first == 0 && t.end == c.lines
    requires 0 < n < c.lines && t.pos == At(c.lines - 1, 0)
    ensures var d := c.lines - n;
      Run(t, Motion(c, v, 0, 0, d, 0)) ==
        if FindsBottom(c, v, c.lines - 1, n) then t.(pos := At(d, 0))
        else t.(rows := ShiftUp(t.rows, t.cols, 0, t.end, d), mishaps := t.mishaps + d)
  {
    hide Run, Exec, Plan, UsesPlan, FrontLeg, Rights;
    var d := c.lines - n;
    var cs := Motion(c, v, 0, 0, d, 0);
    if !UsesPlan(c, v, 0, 0, d, 0) {
      RunOne(t, Goto(d, 0));
      GotoExec(t, d, 0);
    } else if FindsBottom(c, v, c.lines - 1, n) {
      PlanDown(c, v, n);
      HomeForgets(t, t.(pos := At(0, 0)), cs);
      MotionToMarginIsHarmless(c, v, t.(pos := At(0, 0)), 0, 0, d);
    } else {
      PlanDown(c, v, n);
      FeedsScroll(t, 0, d);
    }
  }

  /** The commands up to the insertion. */
  function ToInsertion(c: Caps, v: View, oy: int, ox: int, n: nat): seq<Cmd>
    requires 0 < c.cols
  {
    Travel(c, v, oy, ox, c.lines - 1, 0) + [ScrollUp(n)] + Travel(c, v, 0, 0, c.lines - n, 0)
  }

  lemma ToInsertionRuns(c: Caps, v: View, t: Term, oy: int, ox: int, n: nat)
    requires Ready(c, t, oy, ox, 0, c.lines - 1) && 0 < n < c.lines
    ensures var s := Scrolled(t, 0, c.lines - 1, true, n);
      Run(t, ToInsertion(c, v, oy, ox, n)) ==
        if FindsBottom(c, v, c.lines - 1, n) then s.(pos := At(c.lines - n, 0))
        else s.(pos := At(c.lines - 1, 0), rows := seq(c.lines, _ => BlankRow(t.cols)), mishaps := t.mishaps + (c.lines - n))
  {
    hide Run, Travel, FindsBottom, Motion;
    var a, b := Travel(c, v, oy, ox, c.lines - 1, 0), Travel(c, v, 0, 0, c.lines - n, 0);
    var t1 := t.(pos := At(c.lines - 1, 0));
    MarginRuns(c, v, t, oy, ox, c.lines - 1);
    RunOne(t1, ScrollUp(n));
    ShiftsKeepWidth(t1, 0, c.lines, n);
    var t2 := Scrolled(t1, 0, c.lines - 1, true, n);
    TravelOnScreen(c, v, 0, 0, c.lines - n, 0);
    FromTheBottom(c, v, t2, n);
    ShiftUpCompose(t.rows, t.cols, 0, c.lines, n, c.lines - n);
    assert ShiftUp(t.rows, t.cols, 0, c.lines, c.lines) == seq(c.lines, _ => BlankRow(t.cols));
    RunConcat(t, a, [ScrollUp(n)]);
    RunConcat(t, a + [ScrollUp(n)], b);
  }

  lemma WholeScreenParts(c: Caps, k: ScrollCaps, v: View, oy: int, ox: int, n: nat)
    requires 0 < c.cols && 0 < n < c.lines && !NoQuickChange(c, k) && ScrollsWholeScreen(c, k, 0, c.lines - 1)
    ensures UpCmds(c, k, v, oy, ox, 0, c.lines - 1, n)
      == ToInsertion(c, v, oy, ox, n) + Many(k.AL, InsertLines(n), InsertLines(1), n) + Travel(c, v, c.lines - n, 0, oy, ox)
  {
    hide Travel, Many;
  }

  /** If it gets there, the region is scrolled. */
  lemma WholeScreenScrollWorks(c: Caps, k: ScrollCaps, v: View, t: Term, oy: int, ox: int, n: nat)
    requires Ready(c, t, oy, ox, 0, c.lines - 1) && 0 < n < c.lines
    requires !NoQuickChange(c, k) && ScrollsWholeScreen(c, k, 0, c.lines - 1) && FindsBottom(c, v, c.lines - 1, n)
    requires ShowsResult(c, v, Scrolled(t, 0, c.lines - 1, true, n), oy)
    ensures Run(t, UpCmds(c, k, v, oy, ox, 0, c.lines - 1, n)) == Scrolled(t, 0, c.lines - 1, true, n).(pos := At(oy, ox))
  {
    hide Run, Exec, Travel, Many, FindsBottom, UpCmds, NoQuickChange, ScrollsWholeScreen;
    var a, ins := ToInsertion(c, v, oy, ox, n), Many(k.AL, InsertLines(n), InsertLines(1), n);
    var s := Scrolled(t, 0, c.lines - 1, true, n).(pos := At(c.lines - n, 0));
    WholeScreenParts(c, k, v, oy, ox, n);
    ToInsertionRuns(c, v, t, oy, ox, n);
    ShiftsKeepWidth(t, 0, c.lines, n);
    ManyInsert(s, k.AL, n);
    BlankInserts(t.rows, t.cols, n);
    FinalMotion(c, v, s, c.lines - n, oy, ox);
    RunConcat(t, a, ins);
    RunConcat(t, a + ins, Travel(c, v, c.lines - n, 0, oy, ox));
  }

  /** Blank lines inserted over blank lines. */
  lemma BlankInserts(rows: seq<seq<Cell>>, cols: nat, n: nat)
    requires n <= |rows|
    ensures ShiftDown(ShiftUp(rows, cols, 0, |rows|, n), cols, |rows| - n, |rows|, n) == ShiftUp(rows, cols, 0, |rows|, n)
  {
  }

  // ---------- what is left on a screen that was blanked ----------

  /** Every row but r is blank. */
  ghost predicate BlankBut(c: Caps, t: Term, r: int, standout: bool) {
    t.Term? ==> && |t.rows| == c.lines && t.cols == c.cols && t.standout == standout
                && forall i :: 0 <= i < c.lines && i != r ==> t.rows[i] == BlankRow(c.cols)
  }

  predicate Printless(cmd: Cmd) {
    Quiet(cmd) || cmd.LineFeed? || cmd.Tab? || cmd.InsertLines?
  }

  lemma {:induction false} PrintlessRun(c: Caps, t: Term, cs: seq<Cmd>, standout: bool)
    requires BlankBut(c, t, -1, standout) && Silent(cs)
    ensures BlankBut(c, Run(t, cs), -1, standout)
    decreases |cs|
  {
    if cs != [] {
      PrintlessExec(c, t, cs[0], standout);
      hide Exec, BlankBut;
      PrintlessRun(c, Exec(t, cs[0]), cs[1..], standout);
    }
  }

  lemma PrintlessExec(c: Caps, t: Term, cmd: Cmd, standout: bool)
    requires BlankBut(c, t, -1, standout) && Printless(cmd)
    ensures BlankBut(c, Exec(t, cmd), -1, standout)
  {
  }

  ghost predicate Silent(cs: seq<Cmd>) {
    forall k :: 0 <= k < |cs| ==> Printless(cs[k])
  }

  lemma SilentBoth(a: seq<Cmd>, b: seq<Cmd>)
    requires Silent(a) && Silent(b)
    ensures Silent(a + b)
  {
  }

  lemma {:induction false} TabRunIsSilent(c: Caps, y: int, x: int, dx: int)
    requires 0 < c.cols
    ensures Silent(TabRun(c, y, x, dx).cmds)
    decreases dx - x
  {
    var i := TabCol(c, x, HARDTABS);
    if x < i <= dx {
      TabRunIsSilent(c, y, i, dx);
      SilentBoth([Tab], TabRun(c, y, i, dx).cmds);
    }
  }

  lemma TabLegIsSilent(c: Caps, y: int, x: int, dx: int)
    requires 0 < c.cols
    ensures Silent(TabLeg(c, y, x, dx).cmds)
  {
    var run := TabRun(c, y, x, dx);
    TabRunIsSilent(c, y, x, dx);
    OvertabIsSilent(c, y, run.x, dx);
    SilentBoth(run.cmds, OvertabLeg(c, y, run.x, dx).cmds);
    hide Silent, TabRun, OvertabLeg;
  }

  lemma OvertabIsSilent(c: Caps, y: int, x: int, dx: int)
    requires 0 < c.cols
    ensures Silent(OvertabLeg(c, y, x, dx).cmds)
  {
    hide TabCol;
  }

  lemma OpeningIsSilent(c: Caps, y: int, x: int, dy: int, dx: int)
    requires 0 < c.cols
    ensures Silent(HomeLeg(c, y, x, dy, dx).cmds) && Silent(ReturnLeg(c, y, x, dy, dx).cmds)
  {
    hide HomeColumnCost, LocalCost, TabbedCost;
  }

  lemma MiddleIsSilent(c: Caps, y: int, x: int, dy: int, dx: int)
    ensures Silent(DownLeg(c, y, x, dy).cmds) && Silent(LeftLeg(y, x, dx).cmds) && Silent(UpLeg(y, x, dy).cmds)
  {
  }

  lemma FrontIsSilent(c: Caps, oy: int, ox: int, dy: int, dx: int)
    requires 0 < c.cols
    ensures Silent(FrontLeg(c, oy, ox, dy, dx).cmds)
  {
    hide Silent, HomeLeg, ReturnLeg, DownLeg, LeftLeg, UpLeg, TabLeg;
    var h := HomeLeg(c, oy, ox, dy, dx);
    var r := ReturnLeg(c, h.y, h.x, dy, dx);
    var d := DownLeg(c, r.y, r.x, dy);
    var l := LeftLeg(d.y, d.x, dx);
    var u := UpLeg(l.y, l.x, dy);
    var tb := TabLeg(c, u.y, u.x, dx);
    OpeningIsSilent(c, oy, ox, dy, dx);
    OpeningIsSilent(c, h.y, h.x, dy, dx);
    MiddleIsSilent(c, r.y, r.x, dy, dx);
    MiddleIsSilent(c, d.y, d.x, dy, dx);
    MiddleIsSilent(c, l.y, l.x, dy, dx);
    TabLegIsSilent(c, u.y, u.x, dx);
    SilentBoth(h.cmds, r.cmds);
    SilentBoth(h.cmds + r.cmds, d.cmds);
    SilentBoth(h.cmds + r.cmds + d.cmds, l.cmds);
    SilentBoth(h.cmds + r.cmds + d.cmds + l.cmds, u.cmds);
    SilentBoth(h.cmds + r.cmds + d.cmds + l.cmds + u.cmds, tb.cmds);
  }

  /** Right moves and printing stay in the cursor's row. */
  lemma {:induction false} RightsStay(c: Caps, t: Term, r: int, cs: seq<Cmd>, standout: bool)
    requires BlankBut(c, t, r, standout) && (t.Term? && t.pos.At? ==> t.pos.y == r)
    requires forall k :: 0 <= k < |cs| ==> cs[k].Right? || cs[k].Put?
    ensures BlankBut(c, Run(t, cs), r, standout)
    decreases |cs|
  {
    if cs != [] {
      RightStays(c, t, r, cs[0], standout);
      hide Exec, BlankBut;
      RightsStay(c, Exec(t, cs[0]), r, cs[1..], standout);
    }
  }

  lemma RightStays(c: Caps, t: Term, r: int, cmd: Cmd, standout: bool)
    requires BlankBut(c, t, r, standout) && (t.Term? && t.pos.At? ==> t.pos.y == r) && (cmd.Right? || cmd.Put?)
    ensures var t1 := Exec(t, cmd); BlankBut(c, t1, r, standout) && (t1.Term? && t1.pos.At? ==> t1.pos.y == r)
  {
  }

  /** Printing blanks leaves a blank screen blank. */
  lemma {:induction false} BlanksStay(c: Caps, t: Term, cs: seq<Cmd>, standout: bool)
    requires BlankBut(c, t, -1, standout)
    requires forall k :: 0 <= k < |cs| ==> cs[k].Right? || (cs[k] == Put(' ') && !standout)
    ensures BlankBut(c, Run(t, cs), -1, standout)
    decreases |cs|
  {
    if cs != [] {
      BlankStays(c, t, cs[0], standout);
      hide Exec, BlankBut;
      BlanksStay(c, Exec(t, cs[0]), cs[1..], standout);
    }
  }

  lemma BlankStays(c: Caps, t: Term, cmd: Cmd, standout: bool)
    requires BlankBut(c, t, -1, standout) && (cmd.Right? || (cmd == Put(' ') && !standout))
    ensures BlankBut(c, Exec(t, cmd), -1, standout)
  {
    if t.Term? && t.pos.At? && 0 <= t.pos.y < |t.rows| && 0 <= t.pos.x < c.cols && cmd.Put? {
      assert BlankRow(c.cols)[t.pos.x := BLANK] == BlankRow(c.cols);
      assert t.rows[t.pos.y] == BlankRow(c.cols);
    }
  }

  /** A motion over a blank screen prints in one row at most, and blanks only if the row it
      retraces is blank. */
  lemma MotionOverBlank(c: Caps, v: View, t: Term, oy: int, ox: int, dy: int, dx: int, standout: bool) returns (r: int)
    requires BlankBut(c, t, -1, standout) && OnScreen(c, dy, dx) && c.ca
    requires v.Refresh? && v.standout == standout && |v.rows| == c.lines && |v.rows[dy]| == c.cols
    requires c.nd.Some? || !standout
    ensures BlankBut(c, Run(t, Motion(c, v, oy, ox, dy, dx)), r, standout)
    ensures v.rows[dy] == BlankRow(c.cols) ==> r == -1
  {
    if UsesPlan(c, v, oy, ox, dy, dx) {
      hide UsesPlan, Exec, Run, Motion, FrontLeg, BlankBut, Rights, BlankRow;
      var f := FrontLeg(c, oy, ox, dy, dx);
      var cs := Rights(c, v, f.y, f.x, dx);
      PlanParts(c, v, oy, ox, dy, dx);
      FrontIsSilent(c, oy, ox, dy, dx);
      PrintlessRun(c, t, f.cmds, standout);
      var t1 := Run(t, f.cmds);
      RunConcat(t, f.cmds, cs);
      if v.rows[dy] == BlankRow(c.cols) {
        r := -1;
        BlankRights(c, v, dy, f.x, dx);
        BlanksStay(c, t1, cs, standout);
      } else {
        r := if t1.Term? && t1.pos.At? then t1.pos.y else -1;
        OneRowLess(c, t1, r, standout);
        RightsAreRights(c, v, f.y, f.x, dx);
        RightsStay(c, t1, r, cs, standout);
      }
    } else {
      r := -1;
      assert Motion(c, v, oy, ox, dy, dx) == [Goto(dy, dx)];
      PrintlessRun(c, t, [Goto(dy, dx)], standout);
    }
  }

  lemma RightsAreRights(c: Caps, v: View, y: int, x: int, dx: int)
    ensures var cs := Rights(c, v, y, x, dx); forall k :: 0 <= k < |cs| ==> cs[k].Right? || cs[k].Put?
  {
    forall k | 0 <= k < |Rights(c, v, y, x, dx)|
      ensures var cmd := Rights(c, v, y, x, dx)[k]; cmd.Right? || cmd.Put?
    {
      assert Rights(c, v, y, x, dx)[k] == RightCmd(c, v, y, x + k);
    }
  }

  lemma OneRowLess(c: Caps, t: Term, r: int, standout: bool)
    requires BlankBut(c, t, -1, standout)
    ensures BlankBut(c, t, r, standout)
  {
  }

  lemma PlanParts(c: Caps, v: View, oy: int, ox: int, dy: int, dx: int)
    requires 0 < c.cols && c.ca && UsesPlan(c, v, oy, ox, dy, dx)
    ensures var f := FrontLeg(c, oy, ox, dy, dx);
      f.y == dy && Motion(c, v, oy, ox, dy, dx) == f.cmds + Rights(c, v, f.y, f.x, dx)
  {
  }

  lemma BlankRights(c: Caps, v: View, y: int, x: int, dx: int)
    requires OnScreen(c, y, dx) && v.Refresh? && |v.rows| == c.lines && v.rows[y] == BlankRow(c.cols)
    requires c.nd.Some? || !v.standout
    ensures var cs := Rights(c, v, y, x, dx); forall k :: 0 <= k < |cs| ==> cs[k].Right? || (cs[k] == Put(' ') && !v.standout)
  {
    hide BlankRow;
    forall k | 0 <= k < |Rights(c, v, y, x, dx)|
      ensures var cmd := Rights(c, v, y, x, dx)[k]; cmd.Right? || (cmd == Put(' ') && !v.standout)
    {
      BlankRight(c, v, y, x + k);
      assert Rights(c, v, y, x, dx)[k] == RightCmd(c, v, y, x + k);
    }
  }

  lemma BlankRight(c: Caps, v: View, y: int, x: int)
    requires v.Refresh? && 0 <= y < c.lines == |v.rows| && 0 < c.cols && v.rows[y] == BlankRow(c.cols)
    requires c.nd.Some? || !v.standout
    ensures var cmd := RightCmd(c, v, y, x); cmd.Right? || (cmd == Put(' ') && !v.standout)
  {
  }

  /** If it does not get there, everything is blank before the cursor is sent back. */
  lemma WholeScreenScrollBlanks(c: Caps, k: ScrollCaps, v: View, t: Term, oy: int, ox: int, n: nat) returns (r: int)
    requires Ready(c, t, oy, ox, 0, c.lines - 1) && 0 < n < c.lines
    requires !NoQuickChange(c, k) && ScrollsWholeScreen(c, k, 0, c.lines - 1) && !FindsBottom(c, v, c.lines - 1, n)
    requires ShowsResult(c, v, Scrolled(t, 0, c.lines - 1, true, n), oy)
    ensures var u := Run(t, UpCmds(c, k, v, oy, ox, 0, c.lines - 1, n));
      u.mishaps > t.mishaps && BlankBut(c, u, r, t.standout)
    ensures v.rows[oy] == BlankRow(c.cols) ==> r == -1
  {
    hide Run, Exec, Travel, Many, FindsBottom, UpCmds, NoQuickChange, ScrollsWholeScreen, Motion, Silent, ToInsertion;
    var a, ins, g := ToInsertion(c, v, oy, ox, n), Many(k.AL, InsertLines(n), InsertLines(1), n), Travel(c, v, c.lines - n, 0, oy, ox);
    WholeScreenParts(c, k, v, oy, ox, n);
    ToInsertionRuns(c, v, t, oy, ox, n);
    var t1, t2 := Run(t, a), Run(Run(t, a), ins);
    assert BlankBut(c, t1, -1, t.standout);
    InsertIsSilent(k, n);
    PrintlessRun(c, t1, ins, t.standout);
    TravelOnScreen(c, v, c.lines - n, 0, oy, ox);
    ShiftsKeepWidth(t, 0, c.lines, n);
    r := MotionOverBlank(c, v, t2, c.lines - n, 0, oy, ox, t.standout);
    RunConcat(t, a, ins);
    RunConcat(t, a + ins, g);
    MishapsStay(t1, ins);
    MishapsStay(t2, g);
  }

  lemma InsertIsSilent(k: ScrollCaps, n: nat)
    ensures Silent(Many(k.AL, InsertLines(n), InsertLines(1), n))
  {
  }

  /** A scroll of the whole screen is a scroll of the region, with nothing else changed,
      exactly if the code gets from the last line to where it inserts.  That shows as soon as
      some row of the result but the cursor's is not blank. */
  lemma WholeScreenScrollIff(c: Caps, k: ScrollCaps, v: View, t: Term, oy: int, ox: int, n: nat)
    requires Ready(c, t, oy, ox, 0, c.lines - 1) && 0 < n < c.lines
    requires !NoQuickChange(c, k) && ScrollsWholeScreen(c, k, 0, c.lines - 1)
    requires ShowsResult(c, v, Scrolled(t, 0, c.lines - 1, true, n), oy)
    ensures var s, r := Scrolled(t, 0, c.lines - 1, true, n), Run(t, UpCmds(c, k, v, oy, ox, 0, c.lines - 1, n));
      && (r == s.(pos := At(oy, ox)) <==> FindsBottom(c, v, c.lines - 1, n))
      && (r.mishaps > t.mishaps <==> !FindsBottom(c, v, c.lines - 1, n))
      && ((exists y :: 0 <= y < c.lines && y != oy && s.rows[y] != BlankRow(c.cols)) ==>
            (r.Term? && r.rows == s.rows <==> FindsBottom(c, v, c.lines - 1, n)))
  {
    hide Run, UpCmds, FindsBottom, NoQuickChange, ScrollsWholeScreen, BlankRow;
    if FindsBottom(c, v, c.lines - 1, n) {
      WholeScreenScrollWorks(c, k, v, t, oy, ox, n);
    } else {
      var r := WholeScreenScrollBlanks(c, k, v, t, oy, ox, n);
    }
  }

  /** The code does not fall back to scrolling the whole screen, or does so for a region that
      ends on the last line and gets from there to where it inserts. */
  predicate ScrollWorks(c: Caps, k: ScrollCaps, v: View, top: int, bot: int, n: nat)
    requires 0 < c.cols
  {
    ScrollsWholeScreen(c, k, top, bot) ==> bot == c.lines - 1 && FindsBottom(c, v, bot, n)
  }

  /** Scrolling up works exactly then; otherwise something goes astray. */
  lemma ScrollUpWorksIff(c: Caps, k: ScrollCaps, v: View, t: Term, oy: int, ox: int, top: int, bot: int, n: nat)
    requires Ready(c, t, oy, ox, top, bot) && 0 < n <= bot - top
    requires !NoQuickChange(c, k) && ShowsResult(c, v, Scrolled(t, top, bot, true, n), oy)
    ensures var r := Run(t, UpCmds(c, k, v, oy, ox, top, bot, n));
      && (r == Scrolled(t, top, bot, true, n).(pos := At(oy, ox)) <==> ScrollWorks(c, k, v, top, bot, n))
      && (r.mishaps > t.mishaps <==> !ScrollWorks(c, k, v, top, bot, n))
  {
    hide Run, UpCmds, FindsBottom;
    if !ScrollsWholeScreen(c, k, top, bot) {
      ScrollUpEffect(c, k, v, t, oy, ox, top, bot, n);
    } else if bot < c.lines - 1 {
      WholeScreenScrollBreaks(c, k, v, t, oy, ox, top, bot, n);
    } else {
      WholeScreenScrollIff(c, k, v, t, oy, ox, n);
    }
  }

  /** It does not where line feeds are cheaper than CM: the same terminal, if addressing its
      cursor takes eight characters. */
  lemma WholeScreenFeedsExample(v: View)
    ensures var c := Caps(true, true, true, false, false, false, false, None, None, None, None, None,
                          None, None, Some(1), (y, x) => 8, 4, 5);
      var k := ScrollCaps(false, true, true, true, false, false, false, false, false);
      !NoQuickChange(c, k) && ScrollsWholeScreen(c, k, 0, 3) && !FindsBottom(c, v, 3, 1)
  {
    var c := Caps(true, true, true, false, false, false, false, None, None, None, None, None,
                  None, None, Some(1), (y, x) => 8, 4, 5);
    var cs := Repeat(LineFeed, 3);
    assert FrontLeg(c, 0, 0, 3, 0).cmds == cs && FrontLeg(c, 0, 0, 3, 0).x == 0;
    hide FrontLeg;
    assert cs == [LineFeed, LineFeed, LineFeed] && cs[1..] == [LineFeed, LineFeed] && cs[1..][1..] == [LineFeed];
    TotalCostOne(c, LineFeed);
    assert TotalCost(c, cs) == 3;
  }

  lemma {:induction false} GarbledStays(t: Term, cs: seq<Cmd>)
    requires t.Garbled?
    ensures Run(t, cs).Garbled?
    decreases |cs|
  {
    if cs != [] { GarbledStays(Exec(t, cs[0]), cs[1..]); }
  }
}
