/** Cursor motion planning (Libcurses/cr_put.c).

    `__mvcur` moves the terminal cursor either with one absolute addressing string
    or with a plan of local motions that `plod` first prices in a dry run.  The first
    module says which commands a plan consists of and what they do to a terminal;
    the second is the code that produces them. */
module CursorPlan {
  import opened Options
  import opened Terminal

  /** The capabilities cr_put.c consults.  A string capability is represented by its
      length, which is all the planner looks at; `cm(y, x)` is the length of the
      cursor addressing string for that position. */
  datatype Caps = Caps(
    am: bool, bs: bool, ca: bool, gt: bool, nonl: bool, nc: bool, pfast: bool,
    ho: Option<nat>, ll: Option<nat>, cr: Option<nat>, nl: Option<nat>,
    bc: Option<nat>, up: Option<nat>, ta: Option<nat>, nd: Option<nat>,
    cm: (int, int) -> nat,
    lines: int, cols: int)

  /** What a right move prints: inside a refresh, the characters curscr holds. */
  datatype View = Plain | Refresh(rows: seq<seq<Cell>>, standout: bool)

  predicate OnScreen(c: Caps, y: int, x: int) {
    0 <= y < c.lines && 0 <= x < c.cols
  }

  predicate InLine(c: Caps, x: int) {
    0 <= x < c.cols
  }

  /** Cursor addressing strings are never empty. */
  ghost predicate Addressable(c: Caps) {
    c.ca ==> forall y, x :: c.cm(y, x) > 0
  }

  predicate CanBackUp(c: Caps) {
    c.bs || c.bc.Some?
  }

  /** The terminal or the tty driver turns a line feed into carriage return + line feed. */
  predicate FeedReturns(c: Caps) {
    c.nonl || !c.pfast
  }

  function LengthOr(o: Option<nat>, default: nat): nat {
    if o.Some? then o.value else default
  }

  /** Characters sent for one command. */
  function Cost(c: Caps, cmd: Cmd): nat {
    match cmd
    case Home => LengthOr(c.ho, 0)
    case LowerLeft => LengthOr(c.ll, 0)
    case Return => LengthOr(c.cr, 1)
    case LineFeed => LengthOr(c.nl, 1)
    case Left => LengthOr(c.bc, 1)
    case Up => LengthOr(c.up, 0)
    case Tab => LengthOr(c.ta, 1)
    case Right => LengthOr(c.nd, 1)
    case Put(_) => 1
    case Goto(y, x) => c.cm(y, x)
    case _ => 0
  }

  function TotalCost(c: Caps, cs: seq<Cmd>): nat {
    if cs == [] then 0 else Cost(c, cs[0]) + TotalCost(c, cs[1..])
  }

  lemma {:induction false} TotalCostConcat(c: Caps, a: seq<Cmd>, b: seq<Cmd>)
    ensures TotalCost(c, a + b) == TotalCost(c, a) + TotalCost(c, b)
    decreases |a|
  {
    if a == [] {
      assert a + b == b;
    } else {
      assert (a + b)[0] == a[0] && (a + b)[1..] == a[1..] + b;
      TotalCostConcat(c, a[1..], b);
    }
  }

  lemma TotalCostOne(c: Caps, cmd: Cmd)
    ensures TotalCost(c, [cmd]) == Cost(c, cmd)
  {
    assert [cmd][1..] == [];
  }

  // ---------- the legs of a plan ----------

  /** Commands together with the position they are meant to end at. */
  datatype Leg = Leg(cmds: seq<Cmd>, y: int, x: int)

  function TabCol(c: Caps, col: int, ts: int): int
    requires 0 < ts && 0 < c.cols
  {
    if col >= c.cols then
      var offset := c.cols * (col / c.cols);
      (col - offset) + ts - ((col - offset) % ts) + offset
    else col + ts - col % ts
  }

  function TabbedCost(c: Caps, dx: int): int {
    if c.gt then dx / HARDTABS + dx % HARDTABS else dx
  }

  predicate CheaperBack(c: Caps, ox: int, dx: int) {
    dx < ox && ox - dx <= TabbedCost(c, dx) && CanBackUp(c)
  }

  /** Estimated cost of reaching the column after homing. */
  function HomeColumnCost(c: Caps, ox: int, dx: int): int {
    if CheaperBack(c, ox, dx) then ox - dx else TabbedCost(c, dx)
  }

  /** Estimated cost of moving locally. */
  function LocalCost(c: Caps, oy: int, ox: int, dy: int, dx: int): int {
    (if dx >= ox then
       var j := dx / HARDTABS - ox / HARDTABS;
       if c.gt && j != 0 then j + dx % HARDTABS else dx - ox
     else if CheaperBack(c, ox, dx) then ox - dx
     else TabbedCost(c, dx) + 1)
    + (if oy - dy < 0 then dy - oy else oy - dy)
  }

  function HomeLeg(c: Caps, oy: int, ox: int, dy: int, dx: int): Leg {
    if c.ho.None? then Leg([], oy, ox)
    else
      var i := HomeColumnCost(c, ox, dx);
      var j := LocalCost(c, oy, ox, dy, dx);
      if i + dy < j || (c.up.None? && dy < oy) then Leg([Home], 0, 0)
      else if c.ll.Some? then
        var k := c.lines - 1 - dy;
        if i + k + 2 < j && (k <= 0 || c.up.Some?) then Leg([LowerLeft], c.lines - 1, 0) else Leg([], oy, ox)
      else Leg([], oy, ox)
  }

  /** Neither homing nor moving up is possible, but the destination is above. */
  predicate Stuck(c: Caps, oy: int, dy: int) {
    c.ho.None? && c.up.None? && dy < oy
  }

  function ReturnLeg(c: Caps, y: int, x: int, dy: int, dx: int): Leg {
    if FeedReturns(c) && y < dy then Leg([], y, x)
    else if c.nc && y >= dy then Leg([], y, x)
    else if x - dx > TabbedCost(c, dx) + 1 || (x > dx && !CanBackUp(c)) then
      if c.nc then Leg([Return, LineFeed], y + 1, 0) else Leg([Return], y, 0)
    else Leg([], y, x)
  }

  function DownLeg(c: Caps, y: int, x: int, dy: int): Leg {
    if y < dy then Leg(Repeat(LineFeed, dy - y), dy, if FeedReturns(c) then 0 else x) else Leg([], y, x)
  }

  function LeftLeg(y: int, x: int, dx: int): Leg {
    if dx < x then Leg(Repeat(Left, x - dx), y, dx) else Leg([], y, x)
  }

  function UpLeg(y: int, x: int, dy: int): Leg {
    if dy < y then Leg(Repeat(Up, y - dy), dy, x) else Leg([], y, x)
  }

  /** Tabs while they do not overshoot. */
  function TabRun(c: Caps, y: int, x: int, dx: int): Leg
    requires 0 < c.cols
    decreases dx - x
  {
    var i := TabCol(c, x, HARDTABS);
    if i > dx || i <= x then Leg([], y, x)
    else
      var rest := TabRun(c, y, i, dx);
      Leg([Tab] + rest.cmds, y, rest.x)
  }

  /** One tab past the destination, then backspaces. */
  function OvertabLeg(c: Caps, y: int, x: int, dx: int): Leg
    requires 0 < c.cols
  {
    var i := TabCol(c, x, HARDTABS);
    if dx - x > 4 && dx <= i < c.cols && CanBackUp(c) then Leg([Tab] + Repeat(Left, i - dx), y, dx)
    else Leg([], y, x)
  }

  function TabLeg(c: Caps, y: int, x: int, dx: int): Leg
    requires 0 < c.cols
  {
    if c.gt && dx - x > 1 then
      var run := TabRun(c, y, x, dx);
      var over := OvertabLeg(c, y, run.x, dx);
      Leg(run.cmds + over.cmds, y, over.x)
    else Leg([], y, x)
  }

  function RightCmd(c: Caps, v: View, y: int, x: int): Cmd {
    if v.Refresh? && 0 <= y < |v.rows| && 0 <= x < |v.rows[y]| && !v.rows[y][x].standout && !v.standout
    then Put(v.rows[y][x].ch)
    else if c.nd.Some? then Right
    else Put(' ')
  }

  function Rights(c: Caps, v: View, y: int, x: int, dx: int): seq<Cmd> {
    if x < dx then seq(dx - x, k requires 0 <= k < dx - x => RightCmd(c, v, y, x + k)) else []
  }

  /** Everything but the final right moves. */
  function FrontLeg(c: Caps, oy: int, ox: int, dy: int, dx: int): Leg
    requires 0 < c.cols
  {
    var h := HomeLeg(c, oy, ox, dy, dx);
    var r := ReturnLeg(c, h.y, h.x, dy, dx);
    var d := DownLeg(c, r.y, r.x, dy);
    var l := LeftLeg(d.y, d.x, dx);
    var u := UpLeg(l.y, l.x, dy);
    var t := TabLeg(c, u.y, u.x, dx);
    Leg(h.cmds + r.cmds + d.cmds + l.cmds + u.cmds + t.cmds, t.y, t.x)
  }

  /** The whole plan of local motions. */
  function Plan(c: Caps, v: View, oy: int, ox: int, dy: int, dx: int): seq<Cmd>
    requires 0 < c.cols
  {
    if Stuck(c, oy, dy) then []
    else
      var f := FrontLeg(c, oy, ox, dy, dx);
      f.cmds + Rights(c, v, f.y, f.x, dx)
  }

  /** What the dry run charges: inside a refresh every right move counts as one character. */
  function DryCost(c: Caps, v: View, oy: int, ox: int, dy: int, dx: int): nat
    requires 0 < c.cols
  {
    var f := FrontLeg(c, oy, ox, dy, dx);
    var rights := Rights(c, v, f.y, f.x, dx);
    TotalCost(c, f.cmds) + (if v.Refresh? then |rights| else TotalCost(c, rights))
  }

  /** Outside a refresh the dry run charges exactly what the plan sends. */
  lemma DryCostIsExact(c: Caps, oy: int, ox: int, dy: int, dx: int)
    requires 0 < c.cols && !Stuck(c, oy, dy)
    ensures DryCost(c, Plain, oy, ox, dy, dx) == TotalCost(c, Plan(c, Plain, oy, ox, dy, dx))
  {
    var f := FrontLeg(c, oy, ox, dy, dx);
    TotalCostConcat(c, f.cmds, Rights(c, Plain, f.y, f.x, dx));
  }

  /** Inside a refresh it does where nothing is in standout. */
  lemma DryCostInRefresh(c: Caps, rows: seq<seq<Cell>>, oy: int, ox: int, dy: int, dx: int)
    requires OnScreen(c, oy, ox) && OnScreen(c, dy, dx) && !Stuck(c, oy, dy)
    requires |rows| == c.lines && |rows[dy]| == c.cols && forall x :: 0 <= x < c.cols ==> !rows[dy][x].standout
    ensures var v := Refresh(rows, false); DryCost(c, v, oy, ox, dy, dx) == TotalCost(c, Plan(c, v, oy, ox, dy, dx))
  {
    var v, f := Refresh(rows, false), FrontLeg(c, oy, ox, dy, dx);
    var rights := Rights(c, v, f.y, f.x, dx);
    TotalCostConcat(c, f.cmds, rights);
    FrontRow(c, oy, ox, dy, dx);
    hide FrontLeg;
    assert forall i :: 0 <= i < |rights| ==> rights[i] == RightCmd(c, v, dy, f.x + i);
    PutsCostOne(c, rights);
  }

  lemma FrontRow(c: Caps, oy: int, ox: int, dy: int, dx: int)
    requires OnScreen(c, oy, ox) && OnScreen(c, dy, dx)
    ensures FrontLeg(c, oy, ox, dy, dx).y == dy && 0 <= FrontLeg(c, oy, ox, dy, dx).x
  {
    var h := HomeLeg(c, oy, ox, dy, dx);
    HomeLegShape(c, oy, ox, dy, dx);
    hide HomeLeg, TabbedCost, CanBackUp;
    var r := ReturnLeg(c, h.y, h.x, dy, dx);
    var d := DownLeg(c, r.y, r.x, dy);
    var l := LeftLeg(d.y, d.x, dx);
    var u := UpLeg(l.y, l.x, dy);
    assert u.y == dy && 0 <= u.x <= dx;
    TabLegRow(c, u.y, u.x, dx);
    TabRunCount(c, u.x, dx);
    hide TabRun;
  }

  lemma {:induction false} PutsCostOne(c: Caps, cs: seq<Cmd>)
    requires forall i :: 0 <= i < |cs| ==> cs[i].Put?
    ensures TotalCost(c, cs) == |cs|
    decreases |cs|
  {
    if cs != [] { PutsCostOne(c, cs[1..]); }
  }

  predicate UsesPlan(c: Caps, v: View, oy: int, ox: int, dy: int, dx: int)
    requires 0 < c.cols
  {
    !c.ca ||
    (ox != c.cols - 1 && !Stuck(c, oy, dy) &&
     DryCost(c, v, oy, ox, dy, dx) < c.cm(dy, dx))
  }

  /** The commands `__mvcur` sends for an on-screen move. */
  function Motion(c: Caps, v: View, oy: int, ox: int, dy: int, dx: int): seq<Cmd>
    requires 0 < c.cols
  {
    if UsesPlan(c, v, oy, ox, dy, dx) then Plan(c, v, oy, ox, dy, dx) else [Goto(dy, dx)]
  }

  /** Addressing the cursor absolutely is given up only for a plan that is strictly
      shorter, outside a refresh. */
  lemma LocalOnlyIfShorter(c: Caps, oy: int, ox: int, dy: int, dx: int)
    requires c.ca && 0 < c.cols
    ensures TotalCost(c, Motion(c, Plain, oy, ox, dy, dx)) <= c.cm(dy, dx)
    ensures UsesPlan(c, Plain, oy, ox, dy, dx) <==>
      ox != c.cols - 1 && !Stuck(c, oy, dy) && TotalCost(c, Plan(c, Plain, oy, ox, dy, dx)) < c.cm(dy, dx)
  {
    hide FrontLeg, TotalCost, Cost;
    if !Stuck(c, oy, dy) {
      DryCostIsExact(c, oy, ox, dy, dx);
    }
    TotalCostOne(c, Goto(dy, dx));
    assert Cost(c, Goto(dy, dx)) == c.cm(dy, dx) by { CostOfGoto(c, dy, dx); }
  }

  lemma CostOfGoto(c: Caps, dy: int, dx: int)
    ensures Cost(c, Goto(dy, dx)) == c.cm(dy, dx)
  {
  }

  /** The terminal has the capability the command stands for.  A line feed, a carriage
      return and an overprinted character are always available. */
  predicate Has(c: Caps, cmd: Cmd) {
    match cmd
    case Home => c.ho.Some?
    case LowerLeft => c.ll.Some?
    case Left => CanBackUp(c)
    case Up => c.up.Some?
    case Tab => c.gt
    case Right => c.nd.Some?
    case Goto(_, _) => c.ca
    case _ => true
  }

  ghost predicate HasAll(c: Caps, cs: seq<Cmd>) {
    forall k :: 0 <= k < |cs| ==> Has(c, cs[k])
  }

  lemma {:induction false} TabRunHas(c: Caps, y: int, x: int, dx: int)
    requires 0 < c.cols && c.gt
    ensures HasAll(c, TabRun(c, y, x, dx).cmds)
    decreases dx - x
  {
    var i := TabCol(c, x, HARDTABS);
    if x < i <= dx { TabRunHas(c, y, i, dx); }
  }

  lemma OvertabHas(c: Caps, y: int, x: int, dx: int)
    requires 0 < c.cols && c.gt
    ensures HasAll(c, OvertabLeg(c, y, x, dx).cmds)
  {
  }

  lemma TabLegHas(c: Caps, y: int, x: int, dx: int)
    requires 0 < c.cols
    ensures HasAll(c, TabLeg(c, y, x, dx).cmds)
  {
    hide TabRun, OvertabLeg;
    if c.gt {
      TabRunHas(c, y, x, dx);
      OvertabHas(c, y, TabRun(c, y, x, dx).x, dx);
    }
  }

  lemma RightsHas(c: Caps, v: View, y: int, x: int, dx: int)
    ensures HasAll(c, Rights(c, v, y, x, dx))
  {
    forall k | 0 <= k < |Rights(c, v, y, x, dx)|
      ensures Has(c, Rights(c, v, y, x, dx)[k])
    {
      assert Rights(c, v, y, x, dx)[k] == RightCmd(c, v, y, x + k);
    }
  }

  /** A motion never sends what the terminal does not have: in particular no backspace
      without a way to back up, and no cursor-up without UP. */
  lemma MotionUsesWhatItHas(c: Caps, v: View, oy: int, ox: int, dy: int, dx: int)
    requires OnScreen(c, oy, ox) && OnScreen(c, dy, dx) && !c.nc
    ensures HasAll(c, Motion(c, v, oy, ox, dy, dx))
  {
    hide HomeLeg, ReturnLeg, DownLeg, LeftLeg, UpLeg, TabLeg, Rights, Has, HasAll, Stuck;
    if Stuck(c, oy, dy) {
      HasNothing(c);
    } else {
      LocalLegsHave(c, oy, ox, dy, dx);
      var h := HomeLeg(c, oy, ox, dy, dx);
      var r := ReturnLeg(c, h.y, h.x, dy, dx);
      var d := DownLeg(c, r.y, r.x, dy);
      var l := LeftLeg(d.y, d.x, dx);
      var u := UpLeg(l.y, l.x, dy);
      var t := TabLeg(c, u.y, u.x, dx);
      TabLegHas(c, u.y, u.x, dx);
      RightsHas(c, v, t.y, t.x, dx);
      HasBoth(c, h.cmds, r.cmds);
      HasBoth(c, h.cmds + r.cmds, d.cmds);
      HasBoth(c, h.cmds + r.cmds + d.cmds, l.cmds);
      HasBoth(c, h.cmds + r.cmds + d.cmds + l.cmds, u.cmds);
      HasBoth(c, h.cmds + r.cmds + d.cmds + l.cmds + u.cmds, t.cmds);
      HasBoth(c, FrontLeg(c, oy, ox, dy, dx).cmds, Rights(c, v, t.y, t.x, dx));
    }
    if !UsesPlan(c, v, oy, ox, dy, dx) {
      HasGoto(c, dy, dx);
    }
  }

  lemma HasNothing(c: Caps)
    ensures HasAll(c, [])
  {
  }

  lemma HasBoth(c: Caps, a: seq<Cmd>, b: seq<Cmd>)
    requires HasAll(c, a) && HasAll(c, b)
    ensures HasAll(c, a + b)
  {
  }

  lemma HasGoto(c: Caps, y: int, x: int)
    requires c.ca
    ensures HasAll(c, [Goto(y, x)])
  {
  }

  lemma LocalLegsHave(c: Caps, oy: int, ox: int, dy: int, dx: int)
    requires OnScreen(c, oy, ox) && OnScreen(c, dy, dx) && !c.nc && !Stuck(c, oy, dy)
    ensures var h := HomeLeg(c, oy, ox, dy, dx);
      var r := ReturnLeg(c, h.y, h.x, dy, dx);
      var d := DownLeg(c, r.y, r.x, dy);
      var l := LeftLeg(d.y, d.x, dx);
      var u := UpLeg(l.y, l.x, dy);
      HasAll(c, h.cmds) && HasAll(c, r.cmds) && HasAll(c, d.cmds) && HasAll(c, l.cmds) && HasAll(c, u.cmds)
  {
  }

  // ---------- what homing is good for ----------

  /** The commands of the moves across the columns of a row, to the right. */
  function Across(c: Caps, x: int, dx: int): int
    requires 0 < c.cols
  {
    var t := TabLeg(c, 0, x, dx);
    |t.cmds| + if t.x < dx then dx - t.x else 0
  }

  /** The number of commands of a plan that does not home. */
  function Directly(c: Caps, y: int, x: int, dy: int, dx: int): int
    requires 0 < c.cols
  {
    var r := ReturnLeg(c, y, x, dy, dx);
    var d := DownLeg(c, r.y, r.x, dy);
    var l := LeftLeg(d.y, d.x, dx);
    var u := UpLeg(l.y, l.x, dy);
    |r.cmds| + |d.cmds| + |l.cmds| + |u.cmds| + Across(c, u.x, dx)
  }

  /** The numbers of commands by way of the upper left and of the lower left corner. */
  function ViaTop(c: Caps, dy: int, dx: int): int
    requires 0 < c.cols
  {
    1 + Directly(c, 0, 0, dy, dx)
  }

  function ViaBottom(c: Caps, dy: int, dx: int): int
    requires 0 < c.cols
  {
    1 + Directly(c, c.lines - 1, 0, dy, dx)
  }

  /** A plan is as long as that. */
  lemma PlanLength(c: Caps, v: View, oy: int, ox: int, dy: int, dx: int)
    requires 0 < c.cols && !Stuck(c, oy, dy)
    ensures var h := HomeLeg(c, oy, ox, dy, dx); var n := |Plan(c, v, oy, ox, dy, dx)|;
      && n == |h.cmds| + Directly(c, h.y, h.x, dy, dx)
      && (h.cmds == [] ==> n == Directly(c, oy, ox, dy, dx))
      && (h.cmds == [Home] ==> n == ViaTop(c, dy, dx))
      && (h.cmds == [LowerLeft] ==> n == ViaBottom(c, dy, dx))
      && h.cmds in [[], [Home], [LowerLeft]]
  {
    var h := HomeLeg(c, oy, ox, dy, dx);
    HomeLegShape(c, oy, ox, dy, dx);
    hide HomeLeg, ReturnLeg, DownLeg, LeftLeg, UpLeg;
    var r := ReturnLeg(c, h.y, h.x, dy, dx);
    var d := DownLeg(c, r.y, r.x, dy);
    var l := LeftLeg(d.y, d.x, dx);
    var u := UpLeg(l.y, l.x, dy);
    TabLegRow(c, u.y, u.x, dx);
    hide TabLeg;
  }

  lemma HomeLegShape(c: Caps, oy: int, ox: int, dy: int, dx: int)
    ensures HomeLeg(c, oy, ox, dy, dx) in [Leg([], oy, ox), Leg([Home], 0, 0), Leg([LowerLeft], c.lines - 1, 0)]
  {
    hide HomeColumnCost, LocalCost;
  }

  /** The row plays no part in moving across. */
  lemma TabLegRow(c: Caps, y: int, x: int, dx: int)
    requires 0 < c.cols
    ensures TabLeg(c, y, x, dx) == Leg(TabLeg(c, 0, x, dx).cmds, y, TabLeg(c, 0, x, dx).x)
  {
    TabRunRow(c, y, x, dx);
    hide TabRun, TabCol;
  }

  lemma {:induction false} TabRunRow(c: Caps, y: int, x: int, dx: int)
    requires 0 < c.cols
    ensures TabRun(c, y, x, dx) == Leg(TabRun(c, 0, x, dx).cmds, y, TabRun(c, 0, x, dx).x)
    decreases dx - x
  {
    var i := TabCol(c, x, HARDTABS);
    if x < i <= dx { TabRunRow(c, y, i, dx); }
    hide TabCol;
  }

  /** Tabs pass the stops; a last one too far and backspaces may save the rest. */
  lemma {:induction false} TabRunCount(c: Caps, x: int, dx: int)
    requires 0 <= x <= dx < c.cols
    ensures var r := TabRun(c, 0, x, dx);
      |r.cmds| == dx / HARDTABS - x / HARDTABS && r.x == if dx / HARDTABS > x / HARDTABS then dx - dx % HARDTABS else x
    decreases dx - x
  {
    var i := x + HARDTABS - x % HARDTABS;
    assert TabCol(c, x, HARDTABS) == i;
    if i <= dx { TabRunCount(c, i, dx); }
  }

  /** What is left to do in the last eight columns. */
  function Rest(c: Caps, x: int, dx: int): int {
    var stop := dx - dx % HARDTABS + HARDTABS;
    if c.gt && dx - x > 4 && stop < c.cols && CanBackUp(c) then 1 + stop - dx else dx - x
  }

  lemma AcrossCount(c: Caps, x: int, dx: int)
    requires 0 <= x <= dx < c.cols
    ensures Across(c, x, dx) ==
      if c.gt && dx - x > 1 && dx / HARDTABS > x / HARDTABS
      then dx / HARDTABS - x / HARDTABS + Rest(c, dx - dx % HARDTABS, dx)
      else Rest(c, x, dx)
  {
    TabRunCount(c, x, dx);
    hide TabRun;
  }

  /** The estimates are those numbers but for the saving in the last columns, which is never
      less after homing. */
  lemma EstimatesHold(c: Caps, x: int, dx: int)
    requires 0 <= x <= dx < c.cols
    ensures var t := TabbedCost(c, dx);
      var l := if c.gt && dx / HARDTABS > x / HARDTABS then dx / HARDTABS - x / HARDTABS + dx % HARDTABS else dx - x;
      && Across(c, 0, dx) <= t && Across(c, x, dx) <= l && l - Across(c, x, dx) <= t - Across(c, 0, dx)
      && (!c.gt ==> Across(c, 0, dx) == dx && Across(c, x, dx) == dx - x)
  {
    AcrossCount(c, 0, dx);
    AcrossCount(c, x, dx);
    hide Across;
  }

  /** Directly, spelled out: up and down as many rows as lie between; across from where the
      cursor is, by backspaces, or from the margin. */
  lemma DirectlyCounts(c: Caps, y: int, x: int, dy: int, dx: int)
    requires OnScreen(c, y, x) && OnScreen(c, dy, dx) && !c.nc
    ensures Directly(c, y, x, dy, dx) ==
      (if y < dy then dy - y else y - dy) +
      if y < dy && FeedReturns(c) then Across(c, 0, dx)
      else if dx >= x then Across(c, x, dx)
      else if x - dx > TabbedCost(c, dx) + 1 || !CanBackUp(c) then 1 + Across(c, 0, dx)
      else x - dx
  {
    AcrossCount(c, dx, dx);
    hide Across, TabbedCost, CanBackUp, FeedReturns;
  }

  /** Backing up looks cheaper to the code than crossing the row from its start. */
  predicate Backs(c: Caps, ox: int, dx: int) {
    dx < ox && CanBackUp(c) && ox - dx <= if c.gt then dx / HARDTABS + dx % HARDTABS else dx
  }

  /** Within its row the cursor is never homed, but from row 0 where it has to go left and
      does not back up. */
  lemma SameRowHomes(c: Caps, y: int, ox: int, dx: int)
    requires OnScreen(c, y, ox) && OnScreen(c, y, dx) && c.ho.Some?
    ensures HomeLeg(c, y, ox, y, dx).cmds == [Home] <==> y == 0 && dx < ox && !Backs(c, ox, dx)
  {
  }

  /** By way of a corner: down or up from there, and across from the margin. */
  lemma ViaCounts(c: Caps, dy: int, dx: int)
    requires OnScreen(c, dy, dx) && !c.nc
    ensures ViaTop(c, dy, dx) == 1 + dy + Across(c, 0, dx)
    ensures ViaBottom(c, dy, dx) == 1 + (c.lines - 1 - dy) + Across(c, 0, dx)
  {
    DirectlyCounts(c, 0, 0, dy, dx);
    DirectlyCounts(c, c.lines - 1, 0, dy, dx);
    hide Directly, Across;
  }

  /** Without tabs, homing is chosen if and only if it takes no more commands than the direct
      way, with two exceptions.  Where the code would back up, it leaves the way across the row
      out of account and homes from everywhere more than twice as far down; and it homes on its
      way down and left from row 0. */
  lemma HomesIff(c: Caps, oy: int, ox: int, dy: int, dx: int)
    requires OnScreen(c, oy, ox) && OnScreen(c, dy, dx) && !c.nc && !c.gt && c.ho.Some? && (c.up.Some? || oy <= dy)
    ensures HomeLeg(c, oy, ox, dy, dx).cmds == [Home] <==>
      if Backs(c, ox, dx) then 2 * dy < oy
      else ViaTop(c, dy, dx) <= Directly(c, oy, ox, dy, dx) || (dx < ox && oy == 0 && 0 < dy)
  {
    DirectlyCounts(c, oy, ox, dy, dx);
    ViaCounts(c, dy, dx);
    if dx >= ox { EstimatesHold(c, ox, dx); } else { EstimatesHold(c, 0, dx); }
    hide Directly, Across, ViaTop, ViaBottom;
  }

  /** With tabs too, a cursor that is homed though it could go directly takes no more commands
      for it, if and only if neither of those exceptions costs some. */
  lemma HomingPays(c: Caps, oy: int, ox: int, dy: int, dx: int)
    requires OnScreen(c, oy, ox) && OnScreen(c, dy, dx) && !c.nc && c.ho.Some? && (c.up.Some? || oy <= dy)
    requires HomeLeg(c, oy, ox, dy, dx).cmds == [Home]
    ensures ViaTop(c, dy, dx) <= Directly(c, oy, ox, dy, dx) <==>
      if Backs(c, ox, dx) then 1 + dy + Across(c, 0, dx) <= (ox - dx) + (oy - dy)
      else !(dx < ox && oy == 0 && 0 < dy && FeedReturns(c))
  {
    DirectlyCounts(c, oy, ox, dy, dx);
    ViaCounts(c, dy, dx);
    if dx >= ox { EstimatesHold(c, ox, dx); } else { EstimatesHold(c, 0, dx); }
    hide Directly, Across, ViaTop, ViaBottom;
  }

  /** A cursor that goes directly takes at most five commands more than by way of the upper left
      corner, those that a tab too far would have saved behind the margin, and none without
      tabs. */
  lemma NotHomingPays(c: Caps, oy: int, ox: int, dy: int, dx: int)
    requires OnScreen(c, oy, ox) && OnScreen(c, dy, dx) && !c.nc && c.ho.Some?
    requires HomeLeg(c, oy, ox, dy, dx).cmds == []
    ensures Directly(c, oy, ox, dy, dx) <= ViaTop(c, dy, dx) + if c.gt then 5 else 0
  {
    DirectlyCounts(c, oy, ox, dy, dx);
    ViaCounts(c, dy, dx);
    OvertabSaves(c, dx);
    if dx >= ox { EstimatesHold(c, ox, dx); }
    hide Directly, Across, ViaTop, ViaBottom;
  }

  lemma OvertabSaves(c: Caps, dx: int)
    requires 0 <= dx < c.cols
    ensures TabbedCost(c, dx) - (if c.gt then 5 else 0) <= Across(c, 0, dx) <= TabbedCost(c, dx)
  {
    AcrossCount(c, 0, dx);
    hide Across;
  }

  /** Nor does it lose more than one more against the way by the lower left corner, if the line
      feeds on its way do not return to the margin, which the code leaves out of account. */
  lemma NotLowerLeftPays(c: Caps, oy: int, ox: int, dy: int, dx: int)
    requires OnScreen(c, oy, ox) && OnScreen(c, dy, dx) && !c.nc && c.ho.Some?
    requires HomeLeg(c, oy, ox, dy, dx).cmds == [] && c.ll.Some? && (c.up.Some? || dy == c.lines - 1)
    requires !(FeedReturns(c) && oy < dy)
    ensures Directly(c, oy, ox, dy, dx) <= ViaBottom(c, dy, dx) + 1 + if c.gt then 5 else 0
  {
    DirectlyCounts(c, oy, ox, dy, dx);
    ViaCounts(c, dy, dx);
    OvertabSaves(c, dx);
    if dx >= ox { EstimatesHold(c, ox, dx); }
    hide Directly, Across, ViaTop, ViaBottom, FeedReturns;
  }

  /** A return is sent where backspaces are impossible, or more than the return and the way
      from the margin; else the backspaces are at most as many, but for those five. */
  lemma ReturnPays(c: Caps, y: int, x: int, dy: int, dx: int)
    requires OnScreen(c, y, x) && OnScreen(c, dy, dx) && !c.nc && !(FeedReturns(c) && y < dy)
    ensures ReturnLeg(c, y, x, dy, dx).cmds in [[], [Return]]
    ensures ReturnLeg(c, y, x, dy, dx).cmds == [Return] ==> dx < x && (!CanBackUp(c) || 1 + Across(c, 0, dx) < x - dx)
    ensures ReturnLeg(c, y, x, dy, dx).cmds == [] && dx < x ==>
      CanBackUp(c) && x - dx <= 1 + Across(c, 0, dx) + if c.gt then 5 else 0
  {
    OvertabSaves(c, dx);
    hide Across;
  }

  /** A tab too far is taken only if the backspaces after it still save something; from a stop,
      whenever they do. */
  lemma OvertabPays(c: Caps, y: int, x: int, dx: int)
    requires 0 <= x <= dx < c.cols && dx / HARDTABS == x / HARDTABS
    ensures var o := OvertabLeg(c, y, x, dx); var stop := dx - dx % HARDTABS + HARDTABS;
      && (o.cmds != [] ==> |o.cmds| == 1 + stop - dx < dx - x)
      && (x % HARDTABS == 0 && CanBackUp(c) && stop < c.cols ==> (o.cmds != [] <==> 1 + stop - dx < dx - x))
  {
  }

  /** Going by way of the lower left corner always pays, unless the code would back up. */
  lemma LowerLeftPays(c: Caps, oy: int, ox: int, dy: int, dx: int)
    requires OnScreen(c, oy, ox) && OnScreen(c, dy, dx) && !c.nc
    requires HomeLeg(c, oy, ox, dy, dx).cmds == [LowerLeft]
    ensures ViaBottom(c, dy, dx) < Directly(c, oy, ox, dy, dx) <==>
      (Backs(c, ox, dx) ==> 1 + (c.lines - 1 - dy) + Across(c, 0, dx) <
                            (dy - oy) + if FeedReturns(c) then Across(c, 0, dx) else ox - dx)
  {
    DirectlyCounts(c, oy, ox, dy, dx);
    ViaCounts(c, dy, dx);
    if dx >= ox { EstimatesHold(c, ox, dx); } else { EstimatesHold(c, 0, dx); }
    hide Directly, Across, ViaTop, ViaBottom;
  }

  /** The first exception: five columns back and eighteen rows up become a way of 68 commands. */
  lemma HomingExample()
    ensures var c := Caps(true, true, true, false, false, false, true, Some(1), None, None, None, None, Some(1),
                          None, Some(1), (y, x) => 8, 24, 80);
      && HomeLeg(c, 20, 70, 2, 65).cmds == [Home]
      && ViaTop(c, 2, 65) == 68 && Directly(c, 20, 70, 2, 65) == 23
  {
    var c := Caps(true, true, true, false, false, false, true, Some(1), None, None, None, None, Some(1),
                  None, Some(1), (y, x) => 8, 24, 80);
    DirectlyCounts(c, 20, 70, 2, 65);
    ViaCounts(c, 2, 65);
    EstimatesHold(c, 0, 65);
    hide Directly, Across, ViaTop;
  }

  // ---------- positions off the screen ----------

  /** A pending trip: commands already sent, where they left the cursor, where to go. */
  datatype Trip = Trip(cmds: seq<Cmd>, oy: int, ox: int, dy: int, dx: int)

  /** Simulates l automatic wraps on a terminal that has none. */
  function Rolls(c: Caps, l: nat): seq<Cmd> {
    if l == 0 then [] else (if c.pfast then [Return] else []) + [LineFeed] + Rolls(c, l - 1)
  }

  /** Columns past the right margin count as positions on the following lines. */
  function Fold(c: Caps, oy: int, ox: int, dy: int, dx: int): Trip
    requires 0 < c.cols
  {
    var dy1 := if dx >= c.cols then dy + dx / c.cols else dy;
    var dx1 := if dx >= c.cols then dx % c.cols else dx;
    if ox >= c.cols then
      var l := (ox + 1) / c.cols;
      var cmds := if c.am || l < 0 then [] else Rolls(c, l);
      var ox1 := if c.am then ox % c.cols else 0;
      if oy + l > c.lines - 1 then Trip(cmds, c.lines - 1, ox1, dy1 - (oy + l - (c.lines - 1)), dx1)
      else Trip(cmds, oy + l, ox1, dy1, dx1)
    else Trip([], oy, ox, dy1, dx1)
  }

  /** A terminal that cannot go up stays where it is. */
  function Reachable(c: Caps, oy: int, dy: int): int {
    if dy < oy && !(c.ca || c.up.Some?) then oy else dy
  }

  /** A destination below the screen scrolls it up from the last line. */
  function Descend(c: Caps, v: View, oy: int, ox: int, dy: int, dx: int): Trip
    requires 0 < c.cols
  {
    if dy < c.lines then Trip([], oy, ox, dy, dx)
    else
      var col := if !c.pfast && !c.ca then 0 else dx;
      var down := oy < c.lines - 1;
      var cmds := if down then Motion(c, v, oy, ox, c.lines - 1, col) else [];
      var x := if !c.pfast then 0 else if down then col else ox;
      Trip(cmds + Repeat(LineFeed, dy - c.lines + 1), if down then c.lines - 1 else oy, x, c.lines - 1, dx)
  }

  /** Everything `__mvcur` sends, for any source and destination. */
  function Travel(c: Caps, v: View, oy: int, ox: int, dy: int, dx: int): seq<Cmd>
    requires 0 < c.cols
  {
    var f := Fold(c, oy, ox, dy, dx);
    var t := Descend(c, v, f.oy, f.ox, f.dy, f.dx);
    f.cmds + t.cmds + Motion(c, v, t.oy, t.ox, Reachable(c, t.oy, t.dy), t.dx)
  }

  /** Between positions on the screen only the motion itself is sent. */
  lemma TravelOnScreen(c: Caps, v: View, oy: int, ox: int, dy: int, dx: int)
    requires InLine(c, ox) && InLine(c, dx) && dy < c.lines
    requires c.ca || c.up.Some?
    ensures Travel(c, v, oy, ox, dy, dx) == Motion(c, v, oy, ox, dy, dx)
  {
  }

  // ---------- what the legs do to a terminal ----------

  ghost predicate Matches(c: Caps, t: Term) {
    Sound(t) && |t.rows| == c.lines && t.cols == c.cols && t.crlf == FeedReturns(c)
  }

  lemma {:induction false} LeftsRun(t: Term, y: int, x: int, n: nat)
    requires Sound(t) && t.pos == At(y, x) && n <= x
    ensures Run(t, Repeat(Left, n)) == t.(pos := At(y, x - n))
    decreases n
  {
    if n > 0 {
      RepeatStep(Left, n);
      assert Repeat(Left, n)[1..] == Repeat(Left, n - 1);
      LeftsRun(t.(pos := At(y, x - 1)), y, x - 1, n - 1);
    }
  }

  lemma {:induction false} UpsRun(t: Term, y: int, x: int, n: nat)
    requires Sound(t) && t.pos == At(y, x) && n <= y
    ensures Run(t, Repeat(Up, n)) == t.(pos := At(y - n, x))
    decreases n
  {
    if n > 0 {
      RepeatStep(Up, n);
      assert Repeat(Up, n)[1..] == Repeat(Up, n - 1);
      UpsRun(t.(pos := At(y - 1, x)), y - 1, x, n - 1);
    }
  }

  /** Line feeds move down without scrolling while the region's last line is not crossed. */
  lemma {:induction false} FeedsRun(t: Term, y: int, x: int, n: nat)
    requires Sound(t) && t.pos == At(y, x) && y + n < |t.rows|
    requires y + n < t.end || t.end <= y
    ensures Run(t, Repeat(LineFeed, n)) == t.(pos := At(y + n, if n > 0 && t.crlf then 0 else x))
    decreases n
  {
    if n > 0 {
      RepeatStep(LineFeed, n);
      assert Repeat(LineFeed, n)[1..] == Repeat(LineFeed, n - 1);
      var x' := if t.crlf then 0 else x;
      FeedsRun(t.(pos := At(y + 1, x')), y + 1, x', n - 1);
    }
  }

  lemma {:induction false} TabRunRuns(c: Caps, t: Term, y: int, x: int, dx: int)
    requires Matches(c, t) && t.pos == At(y, x) && x <= dx < c.cols
    ensures var leg := TabRun(c, y, x, dx);
      Run(t, leg.cmds) == t.(pos := At(y, leg.x)) && leg.y == y && x <= leg.x <= dx
      && TabCol(c, leg.x, HARDTABS) > dx
    decreases dx - x
  {
    var i := TabCol(c, x, HARDTABS);
    if i <= dx {
      var rest := TabRun(c, y, i, dx);
      TabRunRuns(c, t.(pos := At(y, i)), y, i, dx);
      assert ([Tab] + rest.cmds)[1..] == rest.cmds;
    }
  }

  lemma TabRunStep(c: Caps, y: int, x: int, dx: int)
    requires 0 < c.cols
    ensures var i := TabCol(c, x, HARDTABS); var run := TabRun(c, y, x, dx);
      if x < i <= dx then run.cmds == [Tab] + TabRun(c, y, i, dx).cmds && run.x == TabRun(c, y, i, dx).x
      else run.cmds == [] && run.x == x
  {
  }

  lemma TabColGrows(c: Caps, x: int)
    requires 0 < c.cols
    ensures x < TabCol(c, x, HARDTABS)
  {
  }

  /** A tab goes where tabcol says, while that is on the screen. */
  lemma TabMoves(c: Caps, t: Term, y: int, x: int)
    requires Matches(c, t) && t.pos == At(y, x) && x < c.cols && TabCol(c, x, HARDTABS) < c.cols
    ensures Run(t, [Tab]) == t.(pos := At(y, TabCol(c, x, HARDTABS)))
  {
    RunOne(t, Tab);
  }

  lemma RunNothing(t: Term)
    ensures Run(t, []) == t
  {
  }

  lemma OvertabRuns(c: Caps, t: Term, y: int, x: int, dx: int)
    requires Matches(c, t) && t.pos == At(y, x) && x <= dx < c.cols && TabCol(c, x, HARDTABS) > dx
    ensures var leg := OvertabLeg(c, y, x, dx);
      Run(t, leg.cmds) == t.(pos := At(y, leg.x)) && leg.y == y && x <= leg.x <= dx
  {
    hide Run, Repeat;
    var over := OvertabLeg(c, y, x, dx);
    var i := TabCol(c, x, HARDTABS);
    if over.cmds != [] {
      TabMoves(c, t, y, x);
      LeftsRun(t.(pos := At(y, i)), y, i, i - dx);
      RunConcat(t, [Tab], Repeat(Left, i - dx));
    } else {
      RunNothing(t);
    }
  }

  lemma TabLegRuns(c: Caps, t: Term, y: int, x: int, dx: int)
    requires Matches(c, t) && t.pos == At(y, x) && x <= dx < c.cols
    ensures var leg := TabLeg(c, y, x, dx);
      Run(t, leg.cmds) == t.(pos := At(y, leg.x)) && leg.y == y && leg.x <= dx
      && (x == dx ==> leg.x == dx) && x <= leg.x
  {
    if c.gt && dx - x > 1 {
      hide Run, Exec, TabRun, OvertabLeg, TabCol;
      var run := TabRun(c, y, x, dx);
      TabRunRuns(c, t, y, x, dx);
      var over := OvertabLeg(c, y, run.x, dx);
      RunConcat(t, run.cmds, over.cmds);
      OvertabRuns(c, t.(pos := At(y, run.x)), y, run.x, dx);
    }
  }

  /** Homing and the carriage return. */
  lemma OpeningRuns(c: Caps, t: Term, oy: int, ox: int, dy: int, dx: int)
    requires Matches(c, t) && !c.nc && t.pos == At(oy, ox)
    requires OnScreen(c, oy, ox) && OnScreen(c, dy, dx) && !Stuck(c, oy, dy)
    ensures var h := HomeLeg(c, oy, ox, dy, dx);
      var r := ReturnLeg(c, h.y, h.x, dy, dx);
      && Run(t, h.cmds + r.cmds) == t.(pos := At(r.y, r.x))
      && OnScreen(c, r.y, r.x)
      && (dy < r.y ==> c.up.Some?)
      && (dx < r.x ==> CanBackUp(c) || (FeedReturns(c) && r.y < dy))
  {
    var h := HomeLeg(c, oy, ox, dy, dx);
    var r := ReturnLeg(c, h.y, h.x, dy, dx);
    if h.cmds != [] { RunOne(t, h.cmds[0]); }
    assert Run(t, h.cmds) == t.(pos := At(h.y, h.x));
    var t1 := t.(pos := At(h.y, h.x));
    if r.cmds != [] { RunOne(t1, Return); }
    RunConcat(t, h.cmds, r.cmds);
  }

  lemma DownLegRuns(c: Caps, t: Term, y: int, x: int, dy: int)
    requires Matches(c, t) && t.pos == At(y, x) && dy < |t.rows| && dy < t.end
    ensures var d := DownLeg(c, y, x, dy);
      Run(t, d.cmds) == t.(pos := At(d.y, d.x)) && dy <= d.y && y <= d.y < |t.rows| && 0 <= d.x <= x
  {
    if y < dy { FeedsRun(t, y, x, dy - y); }
  }

  lemma LeftLegRuns(t: Term, y: int, x: int, dx: int)
    requires Sound(t) && t.pos == At(y, x) && 0 <= dx
    ensures var l := LeftLeg(y, x, dx); Run(t, l.cmds) == t.(pos := At(y, l.x)) && l.y == y && 0 <= l.x <= dx
  {
    if dx < x { LeftsRun(t, y, x, x - dx); }
  }

  lemma UpLegRuns(t: Term, y: int, x: int, dy: int)
    requires Sound(t) && t.pos == At(y, x) && 0 <= dy
    ensures var u := UpLeg(y, x, dy); Run(t, u.cmds) == t.(pos := At(u.y, x)) && u.x == x && u.y <= dy
  {
    if dy < y { UpsRun(t, y, x, y - dy); }
  }

  /** Down, left and up. */
  lemma MiddleRuns(c: Caps, t: Term, y: int, x: int, dy: int, dx: int)
    requires Matches(c, t) && t.pos == At(y, x)
    requires OnScreen(c, y, x) && OnScreen(c, dy, dx) && dy < t.end
    ensures var d := DownLeg(c, y, x, dy);
      var l := LeftLeg(d.y, d.x, dx);
      var u := UpLeg(l.y, l.x, dy);
      Run(t, d.cmds + l.cmds + u.cmds) == t.(pos := At(u.y, u.x)) && u.y == dy && 0 <= u.x <= dx
  {
    hide Run, Exec;
    var d := DownLeg(c, y, x, dy);
    var l := LeftLeg(d.y, d.x, dx);
    var u := UpLeg(l.y, l.x, dy);
    DownLegRuns(c, t, y, x, dy);
    var t1 := t.(pos := At(d.y, d.x));
    LeftLegRuns(t1, d.y, d.x, dx);
    var t2 := t.(pos := At(l.y, l.x));
    UpLegRuns(t2, l.y, l.x, dy);
    RunConcat(t, d.cmds, l.cmds);
    RunConcat(t, d.cmds + l.cmds, u.cmds);
  }

  /** Everything before the right moves only moves the cursor: to the destination
      row, at or left of the destination column. */
  lemma FrontRuns(c: Caps, t: Term, oy: int, ox: int, dy: int, dx: int)
    requires Matches(c, t) && !c.nc && t.pos == At(oy, ox)
    requires OnScreen(c, oy, ox) && OnScreen(c, dy, dx) && !Stuck(c, oy, dy)
    requires dy < t.end
    ensures var f := FrontLeg(c, oy, ox, dy, dx);
      Run(t, f.cmds) == t.(pos := At(dy, f.x)) && f.y == dy && 0 <= f.x <= dx
  {
    hide Run, Exec, HomeLeg, ReturnLeg, DownLeg, LeftLeg, UpLeg, TabLeg;
    var h := HomeLeg(c, oy, ox, dy, dx);
    var r := ReturnLeg(c, h.y, h.x, dy, dx);
    var d := DownLeg(c, r.y, r.x, dy);
    var l := LeftLeg(d.y, d.x, dx);
    var u := UpLeg(l.y, l.x, dy);
    var tb := TabLeg(c, u.y, u.x, dx);
    OpeningRuns(c, t, oy, ox, dy, dx);
    var t1 := t.(pos := At(r.y, r.x));
    MiddleRuns(c, t1, r.y, r.x, dy, dx);
    var t2 := t.(pos := At(u.y, u.x));
    TabLegRuns(c, t2, u.y, u.x, dx);
    var opening, middle := h.cmds + r.cmds, d.cmds + l.cmds + u.cmds;
    RunConcat(t, opening, middle);
    RunConcat(t, opening + middle, tb.cmds);
    assert FrontLeg(c, oy, ox, dy, dx).cmds == opening + middle + tb.cmds;
  }

  /** The cell left behind when the cursor passes over (y, x) to the right. */
  function Passed(c: Caps, v: View, t: Term, y: int, x: int): Cell
    requires t.Term? && 0 <= y < |t.rows| && 0 <= x < |t.rows[y]|
  {
    match RightCmd(c, v, y, x)
    case Put(ch) => Cell(ch, t.standout)
    case _ => t.rows[y][x]
  }

  /** Right moves end at the destination and touch nothing but the cells passed over. */
  lemma {:induction false} RightsRun(c: Caps, v: View, t: Term, y: int, x: int, dx: int)
    requires Matches(c, t) && t.pos == At(y, x) && x <= dx < c.cols
    ensures var r := Run(t, Rights(c, v, y, x, dx));
      r.Term? && Sound(r) && r == t.(pos := At(y, dx), rows := r.rows) && |r.rows| == |t.rows|
      && (forall i :: 0 <= i < |t.rows| && i != y ==> r.rows[i] == t.rows[i])
      && (forall k :: 0 <= k < t.cols ==>
            r.rows[y][k] == if x <= k < dx then Passed(c, v, t, y, k) else t.rows[y][k])
    decreases dx - x
  {
    if x < dx {
      hide Exec, RightCmd;
      var cmds := Rights(c, v, y, x, dx);
      assert cmds[1..] == Rights(c, v, y, x + 1, dx);
      assert cmds[0] == RightCmd(c, v, y, x);
      var t1 := Exec(t, cmds[0]);
      RightMoves(c, v, t, y, x);
      RightsRun(c, v, t1, y, x + 1, dx);
    }
  }

  /** One column to the right, on or short of the last but one: only the cell passed over
      may change. */
  lemma RightMoves(c: Caps, v: View, t: Term, y: int, x: int)
    requires Matches(c, t) && t.pos == At(y, x) && 0 <= x < c.cols - 1
    ensures var r := Exec(t, RightCmd(c, v, y, x));
      && Matches(c, r) && r.pos == At(y, x + 1)
      && r == t.(pos := At(y, x + 1), rows := t.rows[y := t.rows[y][x := Passed(c, v, t, y, x)]])
      && forall k :: x < k < c.cols ==> Passed(c, v, r, y, k) == Passed(c, v, t, y, k)
  {
    var row := t.rows[y];
    assert row[x := row[x]] == row;
    assert t.rows[y := row] == t.rows;
  }

  /** Passing over row y from column x to dx leaves every cell as it was. */
  ghost predicate Harmless(c: Caps, v: View, t: Term, y: int, x: int, dx: int)
    requires Sound(t) && 0 <= y < |t.rows| && 0 <= x && dx <= t.cols
  {
    forall k :: x <= k < dx ==> Passed(c, v, t, y, k) == t.rows[y][k]
  }

  /** Where `__mvcur` may start from: the terminal is where the caller says it is, or
      the caller says "last column", from which only absolute addressing is used. */
  ghost predicate StartsAt(c: Caps, t: Term, oy: int, ox: int) {
    t.Term? && (t.pos == At(oy, ox) || (c.ca && ox == c.cols - 1))
  }

  /** The column from which the plan moves right by passing over cells. */
  function RightsFrom(c: Caps, v: View, oy: int, ox: int, dy: int, dx: int): int
    requires 0 < c.cols
  {
    if UsesPlan(c, v, oy, ox, dy, dx) then FrontLeg(c, oy, ox, dy, dx).x else dx
  }

  /** The commands always take the cursor from any on-screen position to any other,
      and the screen is unchanged exactly when every cell passed over on the final
      right moves is reprinted as it was. */
  lemma MotionReaches(c: Caps, v: View, t: Term, oy: int, ox: int, dy: int, dx: int)
    requires Matches(c, t) && StartsAt(c, t, oy, ox)
    requires !c.nc && (c.ca || c.up.Some?)
    requires OnScreen(c, oy, ox) && OnScreen(c, dy, dx) && dy < t.end
    ensures var r := Run(t, Motion(c, v, oy, ox, dy, dx));
      && r.Term? && Sound(r)
      && r == t.(pos := At(dy, dx), rows := r.rows) && |r.rows| == |t.rows|
      && 0 <= RightsFrom(c, v, oy, ox, dy, dx) <= dx
      && (r.rows == t.rows <==> Harmless(c, v, t, dy, RightsFrom(c, v, oy, ox, dy, dx), dx))
  {
    if UsesPlan(c, v, oy, ox, dy, dx) {
      PlanReaches(c, v, t, oy, ox, dy, dx);
    } else {
      hide Run, Exec, FrontLeg, UsesPlan, Passed;
      RunOne(t, Goto(dy, dx));
      GotoExec(t, dy, dx);
    }
  }

  lemma GotoExec(t: Term, y: int, x: int)
    requires Sound(t) && 0 <= y < |t.rows| && 0 <= x < t.cols
    ensures Exec(t, Goto(y, x)) == t.(pos := At(y, x))
  {
  }

  lemma PlanReaches(c: Caps, v: View, t: Term, oy: int, ox: int, dy: int, dx: int)
    requires Matches(c, t) && StartsAt(c, t, oy, ox)
    requires !c.nc && (c.ca || c.up.Some?)
    requires OnScreen(c, oy, ox) && OnScreen(c, dy, dx) && dy < t.end
    requires UsesPlan(c, v, oy, ox, dy, dx)
    ensures var r := Run(t, Motion(c, v, oy, ox, dy, dx));
      && r.Term? && Sound(r)
      && r == t.(pos := At(dy, dx), rows := r.rows) && |r.rows| == |t.rows|
      && 0 <= FrontLeg(c, oy, ox, dy, dx).x <= dx
      && (r.rows == t.rows <==> Harmless(c, v, t, dy, FrontLeg(c, oy, ox, dy, dx).x, dx))
  {
    hide Run, Exec, FrontLeg, Rights, DryCost, Harmless, Passed, FeedReturns;
    var f := FrontLeg(c, oy, ox, dy, dx);
    FrontRuns(c, t, oy, ox, dy, dx);
    var t1 := t.(pos := At(dy, f.x));
    RunConcat(t, f.cmds, Rights(c, v, f.y, f.x, dx));
    RightsRun(c, v, t1, dy, f.x, dx);
    PassingOver(c, v, t, t1, Run(t1, Rights(c, v, dy, f.x, dx)), dy, f.x, dx);
  }

  /** The row passed over is unchanged exactly when every cell is. */
  lemma PassingOver(c: Caps, v: View, t: Term, t1: Term, r: Term, y: int, x: int, dx: int)
    requires Matches(c, t) && 0 <= y < |t.rows| && 0 <= x <= dx < c.cols && t1.Term? && t1 == t.(pos := t1.pos)
    requires r.Term? && Sound(r) && |r.rows| == |t.rows| && r.cols == t.cols
    requires forall i :: 0 <= i < |t.rows| && i != y ==> r.rows[i] == t.rows[i]
    requires forall k :: 0 <= k < t.cols ==>
      r.rows[y][k] == if x <= k < dx then Passed(c, v, t1, y, k) else t.rows[y][k]
    ensures r.rows == t.rows <==> Harmless(c, v, t, y, x, dx)
  {
    assert forall k :: x <= k < dx ==> Passed(c, v, t1, y, k) == Passed(c, v, t, y, k);
    hide Passed;
    if Harmless(c, v, t, y, x, dx) {
      assert r.rows[y] == t.rows[y];
      assert r.rows == t.rows;
    } else {
      var k :| x <= k < dx && Passed(c, v, t, y, k) != t.rows[y][k];
      assert r.rows[y][k] != t.rows[y][k];
    }
  }

  /** The view a caller has of the screen is right: outside a refresh it has none, inside
      one it is what curscr shows. */
  ghost predicate SeesScreen(v: View, t: Term)
    requires t.Term?
  {
    v.Plain? || (v.rows == t.rows && v.standout == t.standout)
  }

  /** Nothing can be lost between columns x and dx of row y: the terminal can move right
      without printing, or every cell there is printed as it is by a refresh outside
      standout, or is the blank that is printed instead. */
  ghost predicate Untouched(c: Caps, v: View, t: Term, y: int, x: int, dx: int)
    requires Sound(t) && 0 <= y < |t.rows| && 0 <= x && dx <= t.cols
  {
    c.nd.Some? || forall k :: x <= k < dx ==>
      (v.Refresh? && !t.standout && !t.rows[y][k].standout) || t.rows[y][k] == Cell(' ', t.standout)
  }

  lemma HarmlessIff(c: Caps, v: View, t: Term, y: int, x: int, dx: int)
    requires Sound(t) && 0 <= y < |t.rows| && 0 <= x && dx <= t.cols && SeesScreen(v, t)
    ensures Harmless(c, v, t, y, x, dx) <==> Untouched(c, v, t, y, x, dx)
  {
    assert |t.rows[y]| == t.cols;
  }

  /** A motion leaves the screen as it is exactly when nothing can be lost on its final
      right moves, which is for the caller to see before the call. */
  lemma MotionKeepsScreenIff(c: Caps, v: View, t: Term, oy: int, ox: int, dy: int, dx: int)
    requires Matches(c, t) && StartsAt(c, t, oy, ox) && SeesScreen(v, t)
    requires !c.nc && (c.ca || c.up.Some?)
    requires OnScreen(c, oy, ox) && OnScreen(c, dy, dx) && dy < t.end
    ensures 0 <= RightsFrom(c, v, oy, ox, dy, dx) <= dx
    ensures Run(t, Motion(c, v, oy, ox, dy, dx)) == t.(pos := At(dy, dx)) <==>
      Untouched(c, v, t, dy, RightsFrom(c, v, oy, ox, dy, dx), dx)
  {
    hide Run, Motion, Harmless, Untouched, RightsFrom;
    MotionReaches(c, v, t, oy, ox, dy, dx);
    HarmlessIff(c, v, t, dy, RightsFrom(c, v, oy, ox, dy, dx), dx);
  }

  /** Without non-destructive space a refresh can wipe a standout cell: three columns
      right over one standout character, on a terminal that has only CM and UP. */
  lemma WithoutNdStandoutIsWiped()
    ensures var c := Caps(true, true, true, false, false, false, false, None, None, None, None, None,
                          Some(1), None, None, (y, x) => 9, 1, 5);
      var row := [Cell('a', false), Cell('b', true), BLANK, BLANK, BLANK];
      var t := Term([row], 5, At(0, 0), 0, 1, false, true, true, 0);
      var v := Refresh([row], false);
      Run(t, Motion(c, v, 0, 0, 0, 3)).Term? && Run(t, Motion(c, v, 0, 0, 0, 3)).rows != t.rows
  {
    hide Run, Exec;
    var c := Caps(true, true, true, false, false, false, false, None, None, None, None, None,
                  Some(1), None, None, (y, x) => 9, 1, 5);
    var row := [Cell('a', false), Cell('b', true), BLANK, BLANK, BLANK];
    var t := Term([row], 5, At(0, 0), 0, 1, false, true, true, 0);
    var v := Refresh([row], false);
    var f := FrontLeg(c, 0, 0, 0, 3);
    assert f.cmds == [] && f.x == 0 && f.y == 0;
    assert |Rights(c, v, 0, 0, 3)| == 3;
    assert UsesPlan(c, v, 0, 0, 0, 3);
    MotionReaches(c, v, t, 0, 0, 0, 3);
    assert Passed(c, v, t, 0, 1) == Cell(' ', false);
    assert t.rows[0][1] == Cell('b', true);
    assert !Harmless(c, v, t, 0, 0, 3);
  }

  /** A move to column 0 prints nothing, so the screen is never touched. */
  lemma MotionToMarginIsHarmless(c: Caps, v: View, t: Term, oy: int, ox: int, dy: int)
    requires Matches(c, t) && StartsAt(c, t, oy, ox)
    requires !c.nc && (c.ca || c.up.Some?)
    requires OnScreen(c, oy, ox) && 0 <= dy < c.lines && dy < t.end
    ensures Run(t, Motion(c, v, oy, ox, dy, 0)) == t.(pos := At(dy, 0))
  {
    MotionReaches(c, v, t, oy, ox, dy, 0);
  }

  predicate Quiet(cmd: Cmd) {
    cmd.Home? || cmd.LowerLeft? || cmd.Return? || cmd.Left? || cmd.Up? || cmd.Goto?
  }

  lemma QuietExec(t: Term, cmd: Cmd)
    requires Sound(t) && Quiet(cmd)
    ensures var r := Exec(t, cmd); r.Term? && Sound(r) && r == t.(pos := r.pos)
  {
  }

  /** Quiet commands move the cursor at most, wherever it is. */
  lemma {:induction false} QuietRun(t: Term, cs: seq<Cmd>)
    requires Sound(t) && forall k :: 0 <= k < |cs| ==> Quiet(cs[k])
    ensures var r := Run(t, cs); r.Term? && Sound(r) && r == t.(pos := r.pos)
    decreases |cs|
  {
    if cs != [] {
      QuietExec(t, cs[0]);
      hide Exec;
      QuietRun(Exec(t, cs[0]), cs[1..]);
    }
  }

  /** A motion to column 0 of the row it starts from moves nothing but the cursor, even if
      the terminal's cursor is in another column than the library believes. */
  lemma MarginFromAnywhere(c: Caps, v: View, t: Term, oy: int, ox: int, x: int)
    requires Matches(c, t) && !c.nc && c.ca && OnScreen(c, oy, ox) && OnScreen(c, oy, x)
    requires oy < t.end && t.pos == At(oy, x)
    ensures var r := Run(t, Motion(c, v, oy, ox, oy, 0)); r.Term? && Sound(r) && r == t.(pos := r.pos)
  {
    hide Run, Motion, HomeLeg, UsesPlan;
    var cs := Motion(c, v, oy, ox, oy, 0);
    if UsesPlan(c, v, oy, ox, oy, 0) && HomeLeg(c, oy, ox, oy, 0).cmds != [] {
      var t' := t.(pos := At(oy, ox));
      HomeComesFirst(c, v, oy, ox, oy, 0);
      HomeForgets(t, t', cs);
      MotionToMarginIsHarmless(c, v, t', oy, ox, oy);
    } else {
      SameRowIsQuiet(c, v, oy, ox);
      QuietRun(t, cs);
    }
  }

  /** Homing forgets where the cursor was. */
  lemma HomeForgets(t: Term, t': Term, cs: seq<Cmd>)
    requires t.Term? && t'.Term? && t' == t.(pos := t'.pos) && cs != [] && (cs[0] == Home || cs[0] == LowerLeft)
    ensures Run(t, cs) == Run(t', cs)
  {
  }

  lemma HomeComesFirst(c: Caps, v: View, oy: int, ox: int, dy: int, dx: int)
    requires 0 < c.cols && UsesPlan(c, v, oy, ox, dy, dx) && !Stuck(c, oy, dy) && HomeLeg(c, oy, ox, dy, dx).cmds != []
    ensures var cs := Motion(c, v, oy, ox, dy, dx); cs != [] && (cs[0] == Home || cs[0] == LowerLeft)
  {
    hide ReturnLeg, DownLeg, LeftLeg, UpLeg, TabLeg, Rights, DryCost;
  }

  lemma SameRowIsQuiet(c: Caps, v: View, oy: int, ox: int)
    requires OnScreen(c, oy, ox) && !c.nc && c.ca
    requires UsesPlan(c, v, oy, ox, oy, 0) ==> HomeLeg(c, oy, ox, oy, 0).cmds == []
    ensures forall k :: 0 <= k < |Motion(c, v, oy, ox, oy, 0)| ==> Quiet(Motion(c, v, oy, ox, oy, 0)[k])
  {
    if UsesPlan(c, v, oy, ox, oy, 0) {
      var h := HomeLeg(c, oy, ox, oy, 0);
      assert h.y == oy && h.x == ox;
      var r := ReturnLeg(c, oy, ox, oy, 0);
      var d := DownLeg(c, r.y, r.x, oy);
      var l := LeftLeg(d.y, d.x, 0);
      var u := UpLeg(l.y, l.x, oy);
      assert d.cmds == [] && u.cmds == [] && TabLeg(c, u.y, u.x, 0).cmds == [];
      assert FrontLeg(c, oy, ox, oy, 0).cmds == r.cmds + l.cmds;
      assert FrontLeg(c, oy, ox, oy, 0).x == 0;
    }
  }

  /** Going one line below the screen from its last line scrolls it up by a line. */
  lemma BelowTheScreenScrolls(c: Caps, v: View, t: Term, ox: int)
    requires Matches(c, t) && !c.nc && c.ca
    requires t.first == 0 && t.end == c.lines && 0 <= ox < c.cols && t.pos == At(c.lines - 1, ox)
    ensures var r := Run(t, Travel(c, v, c.lines - 1, ox, c.lines, 0));
      && r.Term? && r == t.(rows := ShiftUp(t.rows, t.cols, 0, c.lines, 1), pos := r.pos, mishaps := t.mishaps + 1)
      && ((c.nonl ==> !c.pfast) ==> r.pos == At(c.lines - 1, 0))
  {
    hide Run, Motion;
    // Where the library believes the cursor to be after the line feed, and where it is.
    var x, x' := if !c.pfast then 0 else ox, if t.crlf then 0 else ox;
    RepeatStep(LineFeed, 1);
    assert Repeat(LineFeed, 0) == [] && [LineFeed] + [] == [LineFeed];
    assert Travel(c, v, c.lines - 1, ox, c.lines, 0) == [LineFeed] + Motion(c, v, c.lines - 1, x, c.lines - 1, 0);
    RunOne(t, LineFeed);
    var t1 := t.(rows := ShiftUp(t.rows, t.cols, 0, c.lines, 1), pos := At(c.lines - 1, x'), mishaps := t.mishaps + 1);
    assert Run(t, [LineFeed]) == t1;
    forall i | 0 <= i < |t1.rows|
      ensures |t1.rows[i]| == t.cols
    {
      if i + 1 < c.lines {
        assert t1.rows[i] == t.rows[i + 1];
      } else {
        assert t1.rows[i] == BlankRow(t.cols);
      }
    }
    RunConcat(t, [LineFeed], Motion(c, v, c.lines - 1, x, c.lines - 1, 0));
    if x == x' {
      MotionToMarginIsHarmless(c, v, t1, c.lines - 1, x, c.lines - 1);
    } else {
      MarginFromAnywhere(c, v, t1, c.lines - 1, x, x');
    }
  }

  lemma {:induction false} FeedsScroll(t: Term, x: int, n: nat)
    requires Sound(t) && t.first == 0 && t.end == |t.rows| && t.pos == At(|t.rows| - 1, x)
    ensures var r := t.(rows := ShiftUp(t.rows, t.cols, 0, t.end, n), pos := At(|t.rows| - 1, if n > 0 && t.crlf then 0 else x),
                        mishaps := t.mishaps + n);
      Run(t, Repeat(LineFeed, n)) == r && Sound(r)
    decreases n
  {
    hide Run, ShiftUp;
    RowsKeepWidth(t, t.end, n);
    if n == 0 {
      ShiftNone(t.rows, t.cols, t.end);
      RunNothing(t);
    } else {
      RepeatStep(LineFeed, n);
      RunConcat(t, [LineFeed], Repeat(LineFeed, n - 1));
      RunOne(t, LineFeed);
      RowsKeepWidth(t, t.end, 1);
      ShiftUpCompose(t.rows, t.cols, 0, t.end, 1, n - 1);
      FeedsScroll(Run(t, [LineFeed]), if t.crlf then 0 else x, n - 1);
    }
  }

  /** From anywhere, going n lines below the screen scrolls it up by n lines and arrives in the
      destination column of the last one, where line feeds move as the library believes. */
  lemma FarBelowScrolls(c: Caps, v: View, t: Term, oy: int, ox: int, n: nat, dx: int)
    requires Matches(c, t) && t.first == 0 && t.end == c.lines && t.pos == At(oy, ox) && 0 < n
    requires !c.nc && c.ca && (c.nonl ==> !c.pfast) && OnScreen(c, oy, ox) && 0 <= dx < c.cols
    ensures var r := Run(t, Travel(c, v, oy, ox, c.lines - 1 + n, dx));
      && r.Term? && r.pos == At(c.lines - 1, dx) && r.mishaps == t.mishaps + n
      && (v == Plain && c.nd.Some? ==> r.rows == ShiftUp(t.rows, t.cols, 0, c.lines, n))
  {
    hide Run, Motion, ShiftUp;
    var down := oy < c.lines - 1;
    var a := if down then Motion(c, v, oy, ox, c.lines - 1, dx) else [];
    if down {
      ReachesBottom(c, v, t, oy, ox, dx);
    } else {
      RunNothing(t);
    }
    var t1 := Run(t, a);
    var x1 := if down then dx else ox;
    BottomFeeds(c, t1, x1, n);
    var t2 := Run(t1, Repeat(LineFeed, n));
    var x2 := if !c.pfast then 0 else x1;
    ReachesBottom(c, v, t2, c.lines - 1, x2, dx);
    FarBelowParts(c, v, oy, ox, n, dx);
    RunConcat(t, a, Repeat(LineFeed, n));
    RunConcat(t, a + Repeat(LineFeed, n), Motion(c, v, c.lines - 1, x2, c.lines - 1, dx));
  }

  lemma ReachesBottom(c: Caps, v: View, t: Term, oy: int, ox: int, dx: int)
    requires Matches(c, t) && t.first == 0 && t.end == c.lines && t.pos == At(oy, ox)
    requires !c.nc && c.ca && OnScreen(c, oy, ox) && 0 <= dx < c.cols
    ensures var r := Run(t, Motion(c, v, oy, ox, c.lines - 1, dx));
      && r.Term? && Matches(c, r) && r == t.(pos := At(c.lines - 1, dx), rows := r.rows)
      && (v == Plain && c.nd.Some? ==> r.rows == t.rows)
  {
    hide Run, Motion, Harmless;
    MotionReaches(c, v, t, oy, ox, c.lines - 1, dx);
    NothingIsWiped(c, t, c.lines - 1, RightsFrom(c, v, oy, ox, c.lines - 1, dx), dx);
  }

  lemma BottomFeeds(c: Caps, t: Term, x: int, n: nat)
    requires t.Term? && Matches(c, t) && t.first == 0 && t.end == c.lines && t.pos == At(c.lines - 1, x) && 0 < n
    requires c.nonl ==> !c.pfast
    ensures var r := t.(rows := ShiftUp(t.rows, t.cols, 0, c.lines, n), pos := At(c.lines - 1, if !c.pfast then 0 else x),
                        mishaps := t.mishaps + n);
      Run(t, Repeat(LineFeed, n)) == r && Matches(c, r)
  {
    hide Run, ShiftUp;
    RowsKeepWidth(t, c.lines, n);
    FeedsScroll(t, x, n);
  }

  lemma NothingIsWiped(c: Caps, t: Term, y: int, x: int, dx: int)
    requires Sound(t) && 0 <= y < |t.rows| && 0 <= x && dx <= t.cols
    ensures c.nd.Some? ==> Harmless(c, Plain, t, y, x, dx)
  {
  }

  lemma FarBelowParts(c: Caps, v: View, oy: int, ox: int, n: nat, dx: int)
    requires c.ca && OnScreen(c, oy, ox) && 0 <= dx < c.cols && 0 < n
    ensures var a := if oy < c.lines - 1 then Motion(c, v, oy, ox, c.lines - 1, dx) else [];
      var x := if !c.pfast then 0 else if oy < c.lines - 1 then dx else ox;
      Travel(c, v, oy, ox, c.lines - 1 + n, dx) == a + Repeat(LineFeed, n) + Motion(c, v, c.lines - 1, x, c.lines - 1, dx)
  {
    hide Motion;
  }

  // ---------- columns past the margin ----------

  /** A destination past the right margin is the position on a later row that comes as many
      cells after the start of its own. */
  lemma DestinationFolds(c: Caps, v: View, oy: int, ox: int, dy: int, dx: int)
    requires 0 < c.cols && 0 <= dx && ox < c.cols
    ensures var y, x := dy + dx / c.cols, dx % c.cols;
      && 0 <= x < c.cols && y * c.cols + x == dy * c.cols + dx
      && Travel(c, v, oy, ox, dy, dx) == Travel(c, v, oy, ox, y, x)
  {
    hide Descend, Motion;
    var q := dx / c.cols;
    assert (dy + q) * c.cols == dy * c.cols + q * c.cols;
  }

  /** Printing in the last column of a terminal with AM has wrapped: the column behind it is
      the start of the next row, and of the last one when the terminal has scrolled. */
  lemma SourceWraps(c: Caps, v: View, oy: int, dy: int, dx: int)
    requires 1 < c.cols && c.am && InLine(c, dx)
    ensures Travel(c, v, oy, c.cols, dy, dx) ==
      if oy + 1 < c.lines then Travel(c, v, oy + 1, 0, dy, dx) else Travel(c, v, c.lines - 1, 0, dy - (oy + 2 - c.lines), dx)
  {
    hide Descend, Motion;
    assert (c.cols + 1) / c.cols == 1;
  }

  /** How far the screen scrolls if l rows are stepped down from row y. */
  function Excess(c: Caps, y: int, l: nat): (e: nat)
    requires y < c.lines
  {
    if y + l < c.lines then 0 else y + l - (c.lines - 1)
  }

  /** The terminal after l steps from row y to the start of the next row. */
  function Rolled(c: Caps, t: Term, y: int, l: nat): Term
    requires t.Term? && 0 <= c.lines <= |t.rows| && y < c.lines
  {
    var e := Excess(c, y, l);
    t.(pos := At(y + l - e, 0), rows := ShiftUp(t.rows, t.cols, 0, c.lines, e), mishaps := t.mishaps + e)
  }

  /** Without AM the wraps are carried out: each goes to the start of the next row, or scrolls
      the screen on the last one. */
  lemma {:induction false} RollsRun(c: Caps, t: Term, y: int, x: int, l: nat)
    requires Matches(c, t) && t.first == 0 && t.end == c.lines && t.pos == At(y, x) && 0 < l
    ensures Matches(c, Rolled(c, t, y, l)) && Run(t, Rolls(c, l)) == Rolled(c, t, y, l)
    decreases l
  {
    hide Run, Exec, Rolled, Rolls, Excess;
    OneRoll(c, t, y, x);
    RollsSplit(c, l);
    if l > 1 {
      var t1 := Rolled(c, t, y, 1);
      RunConcat(t, Rolls(c, 1), Rolls(c, l - 1));
      RolledKeeps(c, t, y, 1);
      RollsRun(c, t1, t1.pos.y, 0, l - 1);
      RolledTwice(c, t, y, l);
    }
  }

  lemma RollsSplit(c: Caps, l: nat)
    requires 0 < l
    ensures Rolls(c, 1) == (if c.pfast then [Return] else []) + [LineFeed]
    ensures Rolls(c, l) == Rolls(c, 1) + Rolls(c, l - 1) && Rolls(c, 0) == []
  {
    var one := (if c.pfast then [Return] else []) + [LineFeed];
    assert Rolls(c, 1) == one + Rolls(c, 0) && one + [] == one;
  }

  lemma RolledKeeps(c: Caps, t: Term, y: int, l: nat)
    requires Matches(c, t) && t.first == 0 && t.end == c.lines && 0 <= y < c.lines
    ensures var r := Rolled(c, t, y, l);
      Matches(c, r) && r.first == 0 && r.end == c.lines && r.pos.At? && r.pos.x == 0
  {
    RowsKeepWidth(t, c.lines, Excess(c, y, l));
    hide ShiftUp;
  }

  lemma RolledTwice(c: Caps, t: Term, y: int, l: nat)
    requires Matches(c, t) && 0 <= y < c.lines && 1 < l
    ensures var t1 := Rolled(c, t, y, 1); t1.pos.At? && t1.pos.y < c.lines && Rolled(c, t1, t1.pos.y, l - 1) == Rolled(c, t, y, l)
  {
    var t1 := Rolled(c, t, y, 1);
    ShiftUpCompose(t.rows, t.cols, 0, c.lines, Excess(c, y, 1), Excess(c, t1.pos.y, l - 1));
    hide ShiftUp;
  }

  lemma OneRoll(c: Caps, t: Term, y: int, x: int)
    requires Matches(c, t) && t.first == 0 && t.end == c.lines && t.pos == At(y, x)
    ensures Matches(c, Rolled(c, t, y, 1)) && Run(t, Rolls(c, 1)) == Rolled(c, t, y, 1)
  {
    hide ShiftUp, Run;
    ShiftNone(t.rows, t.cols, c.lines);
    RolledKeeps(c, t, y, 1);
    RollsSplit(c, 1);
    var u := if c.pfast then t.(pos := At(y, 0)) else t;
    if c.pfast {
      RunConcat(t, [Return], [LineFeed]);
      RunOne(t, Return);
    } else {
      assert [] + [LineFeed] == [LineFeed];
    }
    RunOne(u, LineFeed);
  }

  lemma ShiftNone(rows: seq<seq<Cell>>, cols: nat, hi: int)
    requires 0 <= hi <= |rows|
    ensures ShiftUp(rows, cols, 0, hi, 0) == rows
  {
  }

  /** So a motion from past the margin arrives at its destination too, which has moved up with
      the screen if that was scrolled, whatever column the terminal's cursor was in. */
  lemma PastMarginReaches(c: Caps, v: View, t: Term, y: int, x: int, ox: int, dy: int, dx: int)
    requires Matches(c, t) && t.first == 0 && t.end == c.lines && t.pos == At(y, x)
    requires !c.am && !c.nc && c.ca && c.cols <= ox
    requires OnScreen(c, dy - Excess(c, y, (ox + 1) / c.cols), dx)
    ensures var l := (ox + 1) / c.cols; var e := Excess(c, y, l); var r := Run(t, Travel(c, v, y, ox, dy, dx));
      r.Term? && r.pos == At(dy - e, dx) && r.mishaps == t.mishaps + e
  {
    hide Run, Rolls, Motion, Exec, ShiftUp, Harmless;
    var l := (ox + 1) / c.cols;
    var e := Excess(c, y, l);
    WrapsAtLeastOnce(ox, c.cols);
    RollsRun(c, t, y, x, l);
    RolledKeeps(c, t, y, l);
    var t1 := Rolled(c, t, y, l);
    MotionReaches(c, v, t1, y + l - e, 0, dy - e, dx);
    PastMarginParts(c, v, y, ox, dy, dx);
    RunConcat(t, Rolls(c, l), Motion(c, v, y + l - e, 0, dy - e, dx));
  }

  lemma PastMarginParts(c: Caps, v: View, y: int, ox: int, dy: int, dx: int)
    requires !c.am && c.ca && 0 < c.cols <= ox && 0 <= y < c.lines && (ox + 1) / c.cols >= 1
    requires OnScreen(c, dy - Excess(c, y, (ox + 1) / c.cols), dx)
    ensures var l := (ox + 1) / c.cols; var e := Excess(c, y, l);
      Travel(c, v, y, ox, dy, dx) == Rolls(c, l) + Motion(c, v, y + l - e, 0, dy - e, dx)
  {
    hide Rolls, Motion;
  }

  lemma WrapsAtLeastOnce(ox: int, cols: int)
    requires 0 < cols <= ox
    ensures (ox + 1) / cols >= 1
  {
  }

  lemma RowsKeepWidth(t: Term, hi: int, n: nat)
    requires Sound(t) && 0 <= hi <= |t.rows|
    ensures forall i :: 0 <= i < |t.rows| ==> |ShiftUp(t.rows, t.cols, 0, hi, n)[i]| == t.cols
  {
    forall i | 0 <= i < |t.rows|
      ensures |ShiftUp(t.rows, t.cols, 0, hi, n)[i]| == t.cols
    {
      assert ShiftUp(t.rows, t.cols, 0, hi, n)[i] ==
        if hi <= i then t.rows[i] else if i + n < hi then t.rows[i + n] else BlankRow(t.cols);
    }
  }

  /** Only a blank screen looks the same after that. */
  lemma ScrollShowsUnlessBlank(rows: seq<seq<Cell>>, cols: nat)
    requires rows != []
    ensures ShiftUp(rows, cols, 0, |rows|, 1) == rows <==> forall y :: 0 <= y < |rows| ==> rows[y] == BlankRow(cols)
  {
    var s := ShiftUp(rows, cols, 0, |rows|, 1);
    if s == rows {
      var y := |rows| - 1;
      while y >= 0
        invariant -1 <= y < |rows|
        invariant forall i :: y < i < |rows| ==> rows[i] == BlankRow(cols)
      {
        assert rows[y] == s[y];
        y := y - 1;
      }
    }
  }
}

/** The code of cr_put.c: `plod` sends a plan, or prices it without sending it. */
module CursorMotion {
  import opened Options
  import opened Terminal
  import opened CursorPlan

  class Mover {
    const c: Caps
    var outline: int
    var outcol: int
    var destline: int
    var destcol: int
    var plodcnt: int
    var plodflg: int
    /** Everything sent to the terminal so far. */
    var out: seq<Cmd>

    constructor (c: Caps)
      ensures this.c == c && out == []
    {
      this.c := c;
      outline, outcol, destline, destcol, plodcnt, plodflg := 0, 0, 0, 0, 0, 0;
      out := [];
    }

    /** `cmds` went out, or, in a dry run, were charged for at `price`. */
    twostate predicate Sent(cmds: seq<Cmd>, price: int)
      reads this
    {
      && plodflg == old(plodflg) && destline == old(destline) && destcol == old(destcol)
      && (if plodflg == 0 then out == old(out) + cmds && plodcnt == old(plodcnt)
          else out == old(out) && plodcnt == old(plodcnt) - price)
    }

    /** A dry run that has already spent more than its allowance stops early. */
    twostate predicate GaveUp(price: int)
      reads this
    {
      && plodflg == old(plodflg) != 0 && destline == old(destline) && destcol == old(destcol)
      && out == old(out) && plodcnt < 0 && old(plodcnt) < price
    }

    method Plodput(cmd: Cmd)
      modifies this`out, this`plodcnt
      ensures Sent([cmd], TotalCost(c, [cmd]))
    {
      TotalCostOne(c, cmd);
      if plodflg != 0 {
        plodcnt := plodcnt - Cost(c, cmd);
      } else {
        out := out + [cmd];
      }
    }

    /** Homing, when the estimates favour it or there is no other way up. */
    method ConsiderHoming()
      modifies this`out, this`plodcnt, this`outline, this`outcol
      ensures var h := HomeLeg(c, old(outline), old(outcol), destline, destcol);
        Sent(h.cmds, TotalCost(c, h.cmds)) && outline == h.y && outcol == h.x
    {
      if c.ho.Some? {
        var i, j, k;
        if c.gt {
          i := destcol / HARDTABS + destcol % HARDTABS;
        } else {
          i := destcol;
        }
        if destcol >= outcol {
          j := destcol / HARDTABS - outcol / HARDTABS;
          if c.gt && j != 0 {
            j := j + destcol % HARDTABS;
          } else {
            j := destcol - outcol;
          }
        } else if outcol - destcol <= i && (c.bs || c.bc.Some?) {
          i, j := outcol - destcol, outcol - destcol;
        } else {
          j := i + 1;
        }
        k := outline - destline;
        if k < 0 {
          k := -k;
        }
        j := j + k;
        assert i == HomeColumnCost(c, outcol, destcol);
        assert j == LocalCost(c, outline, outcol, destline, destcol);
        hide HomeColumnCost, LocalCost, TotalCost;
        if i + destline < j || (c.up.None? && destline < outline) {
          Plodput(Home);
          outcol, outline := 0, 0;
        } else if c.ll.Some? {
          k := c.lines - 1 - destline;
          if i + k + 2 < j && (k <= 0 || c.up.Some?) {
            Plodput(LowerLeft);
            outcol, outline := 0, c.lines - 1;
          }
        }
      }
    }

    method ConsiderReturn()
      modifies this`out, this`plodcnt, this`outline, this`outcol
      ensures var r := ReturnLeg(c, old(outline), old(outcol), destline, destcol);
        Sent(r.cmds, TotalCost(c, r.cmds)) && outline == r.y && outcol == r.x
    {
      var i := if c.gt then destcol % HARDTABS + destcol / HARDTABS else destcol;
      var j := outcol - destcol;
      if (c.nonl || !c.pfast) && outline < destline {
        return;
      }
      if c.nc && outline >= destline {
        return;
      }
      if j > i + 1 || (outcol > destcol && !c.bs && c.bc.None?) {
        Plodput(Return);
        if c.nc {
          TotalCostConcat(c, [Return], [LineFeed]);
          assert [Return] + [LineFeed] == [Return, LineFeed];
          Plodput(LineFeed);
          outline := outline + 1;
        }
        outcol := 0;
      }
    }

    method FeedDown() returns (stop: bool)
      requires plodflg == 0 ==> plodcnt >= 0
      modifies this`out, this`plodcnt, this`outline, this`outcol
      ensures var d := DownLeg(c, old(outline), old(outcol), destline);
        if stop then GaveUp(TotalCost(c, d.cmds))
        else Sent(d.cmds, TotalCost(c, d.cmds)) && outline == d.y && outcol == d.x
    {
      ghost var y0, x0 := outline, outcol;
      ghost var all := DownLeg(c, y0, x0, destline).cmds;
      hide TotalCost, Repeat;
      RepeatNone(c, LineFeed);
      while outline < destline
        invariant y0 <= outline && (y0 < destline ==> outline <= destline) && (destline <= y0 ==> outline == y0)
        invariant outcol == if FeedReturns(c) && y0 < outline then 0 else x0
        invariant Sent(Repeat(LineFeed, outline - y0), TotalCost(c, Repeat(LineFeed, outline - y0)))
      {
        outline := outline + 1;
        RepeatMore(c, LineFeed, outline - y0 - 1);
        Plodput(LineFeed);
        if plodcnt < 0 {
          RepeatRest(c, LineFeed, outline - y0, destline - outline);
          return true;
        }
        if c.nonl || !c.pfast {
          outcol := 0;
        }
      }
      return false;
    }

    method BackUp() returns (stop: bool)
      requires plodflg == 0 ==> plodcnt >= 0
      modifies this`out, this`plodcnt, this`outcol
      ensures var l := LeftLeg(outline, old(outcol), destcol);
        if stop then GaveUp(TotalCost(c, l.cmds))
        else Sent(l.cmds, TotalCost(c, l.cmds)) && outcol == l.x
    {
      ghost var x0 := outcol;
      ghost var all := LeftLeg(outline, x0, destcol).cmds;
      hide TotalCost, Repeat;
      RepeatNone(c, Left);
      while outcol > destcol
        invariant outcol <= x0 && (destcol < x0 ==> destcol <= outcol) && (x0 <= destcol ==> outcol == x0)
        invariant Sent(Repeat(Left, x0 - outcol), TotalCost(c, Repeat(Left, x0 - outcol)))
      {
        if plodcnt < 0 {
          RepeatRest(c, Left, x0 - outcol, outcol - destcol);
          return true;
        }
        outcol := outcol - 1;
        RepeatMore(c, Left, x0 - outcol - 1);
        Plodput(Left);
      }
      return false;
    }

    method ClimbUp() returns (stop: bool)
      requires plodflg == 0 ==> plodcnt >= 0
      modifies this`out, this`plodcnt, this`outline
      ensures var u := UpLeg(old(outline), outcol, destline);
        if stop then GaveUp(TotalCost(c, u.cmds))
        else Sent(u.cmds, TotalCost(c, u.cmds)) && outline == u.y
    {
      ghost var y0 := outline;
      ghost var all := UpLeg(y0, outcol, destline).cmds;
      hide TotalCost, Repeat;
      RepeatNone(c, Up);
      while outline > destline
        invariant outline <= y0 && (destline < y0 ==> destline <= outline) && (y0 <= destline ==> outline == y0)
        invariant Sent(Repeat(Up, y0 - outline), TotalCost(c, Repeat(Up, y0 - outline)))
      {
        outline := outline - 1;
        RepeatMore(c, Up, y0 - outline - 1);
        Plodput(Up);
        if plodcnt < 0 {
          RepeatRest(c, Up, y0 - outline, outline - destline);
          return true;
        }
      }
      return false;
    }

    method TabTowards() returns (i: int)
      requires 0 < c.cols && outcol <= destcol < c.cols
      modifies this`out, this`plodcnt, this`outcol
      ensures var t := TabRun(c, outline, old(outcol), destcol);
        Sent(t.cmds, TotalCost(c, t.cmds)) && outcol == t.x
      ensures outcol <= destcol < i == TabCol(c, outcol, HARDTABS)
    {
      hide TabRun, TabCol, TotalCost;
      ghost var run := TabRun(c, outline, outcol, destcol);
      ghost var done: seq<Cmd> := [];
      NoCost(c);
      i := TabCol(c, outcol, HARDTABS);
      TabColGrows(c, outcol);
      while i <= destcol
        invariant outcol <= destcol && i == TabCol(c, outcol, HARDTABS) && outcol < i
        invariant Sent(done, TotalCost(c, done))
        invariant var rest := TabRun(c, outline, outcol, destcol); run.cmds == done + rest.cmds && run.x == rest.x
        decreases destcol - outcol
      {
        ghost var next := TabRun(c, outline, i, destcol);
        TabRunStep(c, outline, outcol, destcol);
        TotalCostConcat(c, done, [Tab]);
        TotalCostOne(c, Tab);
        Plodput(Tab);
        outcol := i;
        assert done + ([Tab] + next.cmds) == (done + [Tab]) + next.cmds;
        done := done + [Tab];
        i := TabCol(c, outcol, HARDTABS);
        TabColGrows(c, outcol);
      }
      TabRunStep(c, outline, outcol, destcol);
      assert run.cmds == done;
    }

    method Overtab(i: int)
      requires 0 < c.cols && i == TabCol(c, outcol, HARDTABS) && destcol <= i
      modifies this`out, this`plodcnt, this`outcol
      ensures var t := OvertabLeg(c, outline, old(outcol), destcol);
        Sent(t.cmds, TotalCost(c, t.cmds)) && outcol == t.x
    {
      hide TabCol, TotalCost, Repeat;
      NoCost(c);
      if destcol - outcol > 4 && i < c.cols && (c.bc.Some? || c.bs) {
        Plodput(Tab);
        outcol := i;
        ghost var n := 0;
        TabThenNone(c);
        while outcol > destcol
          invariant destcol <= outcol <= i && n == i - outcol
          invariant Sent([Tab] + Repeat(Left, n), TotalCost(c, [Tab] + Repeat(Left, n)))
        {
          outcol := outcol - 1;
          TabThenMore(c, n);
          n := n + 1;
          Plodput(Left);
        }
      }
    }

    /** Tabs towards the destination, and one tab past it when backing up is cheap. */
    method TabAcross()
      requires 0 < c.cols && outcol < c.cols && destcol < c.cols
      modifies this`out, this`plodcnt, this`outcol
      ensures var t := TabLeg(c, outline, old(outcol), destcol);
        Sent(t.cmds, TotalCost(c, t.cmds)) && outcol == t.x
    {
      hide TabCol, TotalCost, TabRun, OvertabLeg;
      if c.gt && destcol - outcol > 1 {
        ghost var run := TabRun(c, outline, outcol, destcol);
        ghost var over := OvertabLeg(c, outline, run.x, destcol);
        TotalCostConcat(c, run.cmds, over.cmds);
        var i := TabTowards();
        Overtab(i);
      } else {
        NoCost(c);
      }
    }

    /** One column to the right.  A dry run inside a refresh charges one character. */
    method StepRight(v: View)
      requires 0 <= outcol < c.cols
      modifies this`out, this`plodcnt, this`outcol
      ensures outcol == old(outcol) + 1
      ensures var cmd := RightCmd(c, v, outline, old(outcol));
        Sent([cmd], if v.Refresh? then 1 else TotalCost(c, [cmd]))
    {
      TotalCostOne(c, Right);
      TotalCostOne(c, Put(' '));
      if v.Refresh? && plodflg != 0 {
        plodcnt := plodcnt - 1;
      } else if v.Refresh? && 0 <= outline < |v.rows| && outcol < |v.rows[outline]|
                && !v.rows[outline][outcol].standout && !v.standout {
        out := out + [Put(v.rows[outline][outcol].ch)];
      } else if c.nd.Some? {
        Plodput(Right);
      } else {
        Plodput(Put(' '));
      }
      outcol := outcol + 1;
    }

    /** The final right moves. */
    method MoveRight(v: View) returns (stop: bool)
      requires plodflg == 0 ==> plodcnt >= 0
      requires 0 <= outcol <= destcol <= c.cols
      modifies this`out, this`plodcnt, this`outcol
      ensures var r := Rights(c, v, outline, old(outcol), destcol);
        var price := if v.Refresh? then |r| else TotalCost(c, r);
        if stop then GaveUp(price) else Sent(r, price)
    {
      ghost var x0 := outcol;
      ghost var all := Rights(c, v, outline, x0, destcol);
      NoCost(c);
      assert |all| == destcol - x0;
      hide TotalCost, Rights;
      while outcol < destcol
        invariant x0 <= outcol <= destcol && |all| == destcol - x0
        invariant Sent(all[..outcol - x0], if v.Refresh? then outcol - x0 else TotalCost(c, all[..outcol - x0]))
      {
        ghost var k := outcol - x0;
        RightsAt(c, v, outline, x0, destcol, k);
        PriceOfPrefix(c, all, k);
        StepRight(v);
        if plodcnt < 0 {
          return true;
        }
      }
      assert all[..destcol - x0] == all;
      return false;
    }

    /** Down, left and up. */
    method PlodMiddle() returns (stop: bool)
      requires plodflg == 0 ==> plodcnt >= 0
      modifies this`out, this`plodcnt, this`outline, this`outcol
      ensures var d := DownLeg(c, old(outline), old(outcol), destline);
        var l := LeftLeg(d.y, d.x, destcol);
        var u := UpLeg(l.y, l.x, destline);
        var price := TotalCost(c, d.cmds) + TotalCost(c, l.cmds) + TotalCost(c, u.cmds);
        if stop then GaveUp(price)
        else Sent(d.cmds + l.cmds + u.cmds, price) && outline == u.y && outcol == u.x
    {
      hide DownLeg, LeftLeg, UpLeg, TotalCost;
      ghost var d := DownLeg(c, outline, outcol, destline);
      ghost var l := LeftLeg(d.y, d.x, destcol);
      ghost var u := UpLeg(l.y, l.x, destline);
      LegsAreStraight(d.y, d.x, destcol, l.x, destline);
      stop := FeedDown();
      if stop { return; }
      stop := BackUp();
      if stop { return; }
      assert plodflg == 0 ==> out == old(out) + (d.cmds + l.cmds);
      stop := ClimbUp();
      if stop { return; }
      assert plodflg == 0 ==> out == old(out) + (d.cmds + l.cmds + u.cmds);
    }

    /** Everything but the final right moves. */
    method PlodFront() returns (stop: bool)
      requires plodflg == 0 ==> plodcnt >= 0
      requires InLine(c, outcol) && InLine(c, destcol)
      modifies this`out, this`plodcnt, this`outline, this`outcol
      ensures var f := FrontLeg(c, old(outline), old(outcol), destline, destcol);
        if stop then GaveUp(TotalCost(c, f.cmds))
        else Sent(f.cmds, TotalCost(c, f.cmds)) && outline == f.y && outcol == f.x
    {
      hide HomeLeg, ReturnLeg, DownLeg, LeftLeg, UpLeg, TabLeg, FrontLeg, TotalCost;
      ghost var h := HomeLeg(c, outline, outcol, destline, destcol);
      ghost var rt := ReturnLeg(c, h.y, h.x, destline, destcol);
      ghost var d := DownLeg(c, rt.y, rt.x, destline);
      ghost var l := LeftLeg(d.y, d.x, destcol);
      ghost var u := UpLeg(l.y, l.x, destline);
      ghost var t := TabLeg(c, u.y, u.x, destcol);
      FrontShape(c, outline, outcol, destline, destcol, out);
      ConsiderHoming();
      ConsiderReturn();
      stop := PlodMiddle();
      if stop { return; }
      TabAcross();
    }

    /** Moves to the destination with local motions (cnt == 0), or prices doing so.
        The price check is exact: the answer is positive exactly when the plan costs
        less than `cnt`, even though the dry run may stop as soon as it has overspent. */
    method Plod(cnt: nat, v: View) returns (r: int)
      requires InLine(c, outcol) && InLine(c, destcol)
      modifies this`out, this`plodcnt, this`plodflg, this`outline, this`outcol
      ensures cnt == 0 ==> out == old(out) + Plan(c, v, old(outline), old(outcol), destline, destcol)
      ensures cnt > 0 ==> out == old(out) && outline == old(outline) && outcol == old(outcol)
      ensures cnt > 0 ==>
        (r > 0 <==> !Stuck(c, old(outline), destline) &&
                    DryCost(c, v, old(outline), old(outcol), destline, destcol) < cnt)
    {
      plodcnt, plodflg := cnt, cnt;
      var soutcol, soutline := outcol, outline;
      if c.ho.None? && c.up.None? && destline < outline {
        return -1;
      }
      ghost var f := FrontLeg(c, outline, outcol, destline, destcol);
      LegsStay(c, outline, outcol, destline, destcol);
      assert f.y == destline && 0 <= f.x <= destcol;
      hide FrontLeg, Rights, TotalCost;
      var stop := PlodFront();
      if !stop {
        stop := MoveRight(v);
      }
      if plodflg != 0 {
        outcol, outline := soutcol, soutline;
      }
      return plodcnt;
    }

    /** Brings the terminal cursor to the destination, by whichever way is shorter:
        the end of `fgoto`, once both columns are on the line. */
    method Reach(v: View)
      requires InLine(c, outcol) && InLine(c, destcol) && Addressable(c)
      modifies this`out, this`plodcnt, this`plodflg, this`outline, this`outcol, this`destline
      ensures destline == Reachable(c, old(outline), old(destline))
      ensures out == old(out) + Motion(c, v, old(outline), old(outcol), destline, destcol)
      ensures outline == destline && outcol == destcol
    {
      hide Plan, DryCost, FrontLeg, Rights;
      if destline < outline && !(c.ca || c.up.Some?) {
        destline := outline;
      }
      if c.ca {
        var cheap := false;
        if outcol != c.cols - 1 {
          var left := Plod(c.cm(destline, destcol), v);
          cheap := left > 0;
        }
        if cheap {
          var _ := Plod(0, v);
        } else {
          out := out + [Goto(destline, destcol)];
        }
      } else {
        var _ := Plod(0, v);
      }
      outline, outcol := destline, destcol;
    }

    /** Accounts for a source column past the margin. */
    method Unwrap()
      requires 0 < c.cols && 0 <= outcol && 0 <= destcol
      modifies this`out, this`outline, this`outcol, this`destline, this`destcol
      ensures var t := Fold(c, old(outline), old(outcol), old(destline), old(destcol));
        out == old(out) + t.cmds && outline == t.oy && outcol == t.ox && destline == t.dy && destcol == t.dx
      ensures InLine(c, outcol) && InLine(c, destcol)
    {
      if destcol >= c.cols {
        destline := destline + destcol / c.cols;
        destcol := destcol % c.cols;
      }
      if outcol >= c.cols {
        var l := (outcol + 1) / c.cols;
        outline := outline + l;
        outcol := outcol % c.cols;
        if !c.am {
          ghost var all := l;
          while l > 0
            invariant 0 <= l <= all
            invariant out + Rolls(c, l) == old(out) + Rolls(c, all)
            modifies this`out
          {
            if c.pfast {
              out := out + [Return];
            }
            out := out + [LineFeed];
            l := l - 1;
          }
          outcol := 0;
        }
        if outline > c.lines - 1 {
          destline := destline - (outline - (c.lines - 1));
          outline := c.lines - 1;
        }
      }
    }

    /** Line feeds on the last line scroll the destination onto the screen. */
    method FeedPast(line: int)
      requires line >= c.lines
      modifies this`out, this`outcol
      ensures out == old(out) + Repeat(LineFeed, line - c.lines + 1)
      ensures outcol == if c.pfast then old(outcol) else 0
    {
      var l := line;
      while l >= c.lines
        invariant c.lines - 1 <= l <= line
        invariant out == old(out) + Repeat(LineFeed, line - l)
        invariant outcol == if !c.pfast && l < line then 0 else old(outcol)
      {
        RepeatStep(LineFeed, line - l + 1);
        out := out + [LineFeed];
        l := l - 1;
        if !c.pfast {
          outcol := 0;
        }
      }
    }

    /** A destination below the last line: go to the last line, then scroll. */
    method Sink(v: View)
      requires InLine(c, outcol) && InLine(c, destcol) && Addressable(c)
      modifies this`out, this`plodcnt, this`plodflg, this`outline, this`outcol, this`destline, this`destcol
      ensures var t := Descend(c, v, old(outline), old(outcol), old(destline), old(destcol));
        out == old(out) + t.cmds && outline == t.oy && outcol == t.ox && destline == t.dy && destcol == t.dx
      ensures InLine(c, outcol) && InLine(c, destcol)
    {
      hide Motion;
      if destline >= c.lines {
        var l := destline;
        destline := c.lines - 1;
        if outline < c.lines - 1 {
          var col := destcol;
          if !c.pfast && !c.ca {
            destcol := 0;
          }
          Reach(v);
          destcol := col;
          destline := c.lines - 1;
        }
        FeedPast(l);
      }
    }

    /** Moves the cursor, first folding positions off the screen back onto it.  The
        nested call of the original finds both columns on the line and the destination
        on the screen, so it comes down to `Reach`. */
    method Fgoto(v: View)
      requires 0 < c.cols && 0 <= outcol && 0 <= destcol && Addressable(c)
      modifies this`out, this`plodcnt, this`plodflg, this`outline, this`outcol, this`destline, this`destcol
      ensures out == old(out) + Travel(c, v, old(outline), old(outcol), old(destline), old(destcol))
      ensures outline == destline && outcol == destcol
    {
      hide Motion, Fold, Descend;
      Unwrap();
      Sink(v);
      Reach(v);
    }

    method Mvcur(ly: int, lx: int, y: int, x: int, v: View)
      requires 0 < c.cols && 0 <= lx && 0 <= x && Addressable(c)
      modifies this`out, this`plodcnt, this`plodflg, this`outline, this`outcol, this`destline, this`destcol
      ensures out == old(out) + Travel(c, v, ly, lx, y, x)
    {
      destcol, destline := x, y;
      outcol, outline := lx, ly;
      Fgoto(v);
    }
  }

  lemma LegsAreStraight(y: int, x: int, dx: int, x': int, dy: int)
    ensures LeftLeg(y, x, dx).y == y && UpLeg(y, x', dy).x == x'
  {
  }

  lemma PriceOfLegs(c: Caps, h: seq<Cmd>, r: seq<Cmd>, d: seq<Cmd>, l: seq<Cmd>, u: seq<Cmd>, t: seq<Cmd>)
    ensures TotalCost(c, h + r + d + l + u + t)
         == TotalCost(c, h) + TotalCost(c, r) + TotalCost(c, d) + TotalCost(c, l) + TotalCost(c, u) + TotalCost(c, t)
  {
    TotalCostConcat(c, h, r);
    TotalCostConcat(c, h + r, d);
    TotalCostConcat(c, h + r + d, l);
    TotalCostConcat(c, h + r + d + l, u);
    TotalCostConcat(c, h + r + d + l + u, t);
  }

  /** A plan's front, leg by leg: what it sends, what it costs, where it ends. */
  lemma FrontShape(c: Caps, oy: int, ox: int, dy: int, dx: int, o: seq<Cmd>)
    requires InLine(c, ox) && InLine(c, dx)
    ensures var h := HomeLeg(c, oy, ox, dy, dx);
      var r := ReturnLeg(c, h.y, h.x, dy, dx);
      var d := DownLeg(c, r.y, r.x, dy);
      var l := LeftLeg(d.y, d.x, dx);
      var u := UpLeg(l.y, l.x, dy);
      var t := TabLeg(c, u.y, u.x, dx);
      var f := FrontLeg(c, oy, ox, dy, dx);
      && u.y == dy && 0 <= u.x <= dx && f.y == dy && f.x == t.x
      && ((o + h.cmds) + r.cmds) + (d.cmds + l.cmds + u.cmds) + t.cmds == o + f.cmds
      && TotalCost(c, f.cmds) == TotalCost(c, h.cmds) + TotalCost(c, r.cmds) + TotalCost(c, d.cmds)
           + TotalCost(c, l.cmds) + TotalCost(c, u.cmds) + TotalCost(c, t.cmds)
  {
    hide HomeLeg, ReturnLeg, DownLeg, LeftLeg, UpLeg, TabLeg, TotalCost;
    var h := HomeLeg(c, oy, ox, dy, dx);
    var r := ReturnLeg(c, h.y, h.x, dy, dx);
    var d := DownLeg(c, r.y, r.x, dy);
    var l := LeftLeg(d.y, d.x, dx);
    var u := UpLeg(l.y, l.x, dy);
    var t := TabLeg(c, u.y, u.x, dx);
    LegsStay(c, oy, ox, dy, dx);
    PriceOfLegs(c, h.cmds, r.cmds, d.cmds, l.cmds, u.cmds, t.cmds);
    Regroup(o, h.cmds, r.cmds, d.cmds, l.cmds, u.cmds, t.cmds);
  }

  lemma Regroup(o: seq<Cmd>, h: seq<Cmd>, r: seq<Cmd>, d: seq<Cmd>, l: seq<Cmd>, u: seq<Cmd>, t: seq<Cmd>)
    ensures ((o + h) + r) + (d + l + u) + t == o + (h + r + d + l + u + t)
  {
    assert (o + h) + r == o + (h + r);
    var a := h + r;
    assert (o + a) + (d + l + u) == o + (a + (d + l + u));
    assert a + (d + l + u) == a + d + l + u;
    var b := a + d + l + u;
    assert (o + b) + t == o + (b + t);
  }

  lemma RepeatNone(c: Caps, cmd: Cmd)
    ensures Repeat(cmd, 0) == [] && TotalCost(c, Repeat(cmd, 0)) == 0
  {
  }

  lemma RepeatMore(c: Caps, cmd: Cmd, n: nat)
    ensures Repeat(cmd, n + 1) == Repeat(cmd, n) + [cmd]
    ensures TotalCost(c, Repeat(cmd, n + 1)) == TotalCost(c, Repeat(cmd, n)) + TotalCost(c, [cmd])
  {
    RepeatStep(cmd, n + 1);
    TotalCostConcat(c, Repeat(cmd, n), [cmd]);
  }

  lemma RepeatRest(c: Caps, cmd: Cmd, m: nat, n: nat)
    ensures TotalCost(c, Repeat(cmd, m + n)) == TotalCost(c, Repeat(cmd, m)) + TotalCost(c, Repeat(cmd, n))
  {
    RepeatSplit(cmd, m, n);
    TotalCostConcat(c, Repeat(cmd, m), Repeat(cmd, n));
  }

  lemma TabThenNone(c: Caps)
    ensures [Tab] + Repeat(Left, 0) == [Tab]
  {
  }

  lemma TabThenMore(c: Caps, n: nat)
    ensures var w := [Tab] + Repeat(Left, n);
      && [Tab] + Repeat(Left, n + 1) == w + [Left]
      && TotalCost(c, [Tab] + Repeat(Left, n + 1)) == TotalCost(c, w) + TotalCost(c, [Left])
  {
    hide TotalCost;
    RepeatStep(Left, n + 1);
    assert [Tab] + Repeat(Left, n + 1) == ([Tab] + Repeat(Left, n)) + [Left];
    TotalCostConcat(c, [Tab] + Repeat(Left, n), [Left]);
  }

  lemma NoCost(c: Caps)
    ensures TotalCost(c, []) == 0
  {
  }

  lemma RightsAt(c: Caps, v: View, y: int, x: int, dx: int, k: nat)
    requires k < dx - x
    ensures k < |Rights(c, v, y, x, dx)| && Rights(c, v, y, x, dx)[k] == RightCmd(c, v, y, x + k)
  {
  }

  lemma PriceOfPrefix(c: Caps, all: seq<Cmd>, k: nat)
    requires k < |all|
    ensures all[..k + 1] == all[..k] + [all[k]]
    ensures TotalCost(c, all[..k + 1]) == TotalCost(c, all[..k]) + TotalCost(c, [all[k]])
    ensures TotalCost(c, all[..k + 1]) <= TotalCost(c, all)
  {
    assert all[..k + 1] == all[..k] + [all[k]];
    assert all == all[..k + 1] + all[k + 1..];
    TotalCostConcat(c, all[..k], [all[k]]);
    TotalCostConcat(c, all[..k + 1], all[k + 1..]);
  }

  /** The legs of a plan stay on the screen and close in on the destination. */
  lemma LegsStay(c: Caps, oy: int, ox: int, dy: int, dx: int)
    requires InLine(c, ox) && InLine(c, dx)
    ensures var h := HomeLeg(c, oy, ox, dy, dx);
      var r := ReturnLeg(c, h.y, h.x, dy, dx);
      var d := DownLeg(c, r.y, r.x, dy);
      var l := LeftLeg(d.y, d.x, dx);
      var u := UpLeg(l.y, l.x, dy);
      var t := TabLeg(c, u.y, u.x, dx);
      l.y == d.y && u.x == l.x && u.y == dy && 0 <= u.x <= dx && t.y == dy && 0 <= t.x <= dx
  {
    var h := HomeLeg(c, oy, ox, dy, dx);
    var r := ReturnLeg(c, h.y, h.x, dy, dx);
    var d := DownLeg(c, r.y, r.x, dy);
    var l := LeftLeg(d.y, d.x, dx);
    var u := UpLeg(l.y, l.x, dy);
    TabLegStays(c, u.y, u.x, dx);
  }

  lemma {:induction false} TabRunStays(c: Caps, y: int, x: int, dx: int)
    requires 0 < c.cols && x <= dx
    ensures x <= TabRun(c, y, x, dx).x <= dx
    decreases dx - x
  {
    var i := TabCol(c, x, HARDTABS);
    if x < i <= dx { TabRunStays(c, y, i, dx); }
  }

  lemma TabLegStays(c: Caps, y: int, x: int, dx: int)
    requires 0 < c.cols && x <= dx
    ensures x <= TabLeg(c, y, x, dx).x <= dx
  {
    TabRunStays(c, y, x, dx);
  }
}
