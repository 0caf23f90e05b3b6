/** The lightning of app/storm1.py: the bolt path generator and `update_lightning`,
    which counts the flicker, rumble and flash timers down, ages the ground strikes and
    now and then strikes a new bolt, with branches, out of a foreground cloud. */
module Storm1Lightning {
  import opened PyNum
  import opened PySort
  import opened PyStr
  import opened StormConfig
  import opened Storm1
  import opened StormCommon
  import opened Storm1Globals

  /** The draws behind one step of a bolt: the `randint` deviation, whether the 30%
      "wild" choice replaces it, and that choice from [-2, 2]. */
  datatype BoltDraw = BoltDraw(dev: nat, wild: bool, pick: nat)

  /** How far one step of a bolt with maximum deviation `md` may move sideways: the wild
      choice can move two columns even when `md` is one, and nothing moves when `md` is 0. */
  function Reach(md: nat): nat {
    if md == 0 then 0 else Max(md, 2)
  }

  /** The sideways step of one bolt row. */
  function Deviation(md: nat, d: BoltDraw): (r: int)
    ensures -(Reach(md) as int) <= r <= Reach(md)
    ensures md == 0 ==> r == 0
  {
    if d.wild then (if md > 0 then Pick(-2, 2, d.pick) else 0) else Pick(-(md as int), md as int, d.dev)
  }

  /** The column of a bolt from column `x` after `i` steps, step `j` drawing `ds(j)`:
      each step moves the column by its deviation and clamps it to the screen. */
  function Column(x: int, md: nat, width: int, ds: nat -> BoltDraw, i: nat): int
    requires width >= 1
  {
    if i == 0 then x else Clamp(Column(x, md, width, ds, i - 1) + Deviation(md, ds(i - 1)), 0, width - 1)
  }

  /** The bolt from row `y` down to row `yEnd` starting in column `x`: one point per row,
      the point on row `y + i` in column `Column(x, md, width, ds, i)`, built up from the
      last row. */
  function BoltRows(x: int, y: int, yEnd: int, md: nat, width: int, ds: nat -> BoltDraw): (p: seq<(int, int)>)
    requires width >= 1
    ensures |p| == (if y > yEnd then 0 else yEnd - y + 1)
    ensures forall i :: 0 <= i < |p| ==> p[i] == (Column(x, md, width, ds, i), y + i)
    decreases yEnd - y + 1
  {
    if y > yEnd then [] else BoltRows(x, y, yEnd - 1, md, width, ds) + [(Column(x, md, width, ds, yEnd - y), yEnd)]
  }

  /** Every column of a bolt after its first is on screen. */
  lemma ColumnOnScreen(x: int, md: nat, width: int, ds: nat -> BoltDraw, i: nat)
    requires width >= 1 && i >= 1
    ensures 0 <= Column(x, md, width, ds, i) < width
  {
  }

  /** From an on-screen column a bolt's next column is at most `Reach(md)` away. */
  lemma ColumnStep(x: int, md: nat, width: int, ds: nat -> BoltDraw, i: nat)
    requires width >= 1 && 0 <= Column(x, md, width, ds, i) < width
    ensures -(Reach(md) as int) <= Column(x, md, width, ds, i + 1) - Column(x, md, width, ds, i) <= Reach(md)
  {
    ClampStep(Column(x, md, width, ds, i), Deviation(md, ds(i)), width, Reach(md));
  }

  /** Clamping to the screen never moves an on-screen column further than it was pushed. */
  lemma ClampStep(x: int, dev: int, width: int, reach: nat)
    requires 0 <= x < width && -(reach as int) <= dev <= reach
    ensures -(reach as int) <= Clamp(x + dev, 0, width - 1) - x <= reach
  {
  }

  /** `generate_bolt_path(x_start, y_start, y_end, max_deviation)`: a start row below
      the end row is first raised to it, then the loop walks the rows. */
  method GenerateBoltPath(xStart: int, yStart: int, yEnd: int, md: nat, width: int, ds: nat -> BoltDraw)
    returns (path: seq<(int, int)>)
    requires width >= 1
    ensures path == BoltRows(xStart, if yStart > yEnd then yEnd else yStart, yEnd, md, width, ds)
  {
    var y0 := yStart;
    if y0 > yEnd {
      y0 := yEnd;
    }
    path := [];
    var x := xStart;
    var y := y0;
    while y <= yEnd
      invariant y0 <= y <= yEnd + 1
      invariant y <= yEnd ==> x == Column(xStart, md, width, ds, y - y0)
      invariant path == BoltRows(xStart, y0, y - 1, md, width, ds)
      decreases yEnd - y
    {
      BoltRowsSnoc(xStart, y0, y, md, width, ds);
      path := path + [(x, y)];
      if y < yEnd {
        x := Deviate(x, md, width, ds((y - y0) as nat));
      }
      y := y + 1;
    }
  }

  /** A bolt one row longer is the shorter bolt and one more point. */
  lemma BoltRowsSnoc(x: int, y: int, yEnd: int, md: nat, width: int, ds: nat -> BoltDraw)
    requires width >= 1 && y <= yEnd
    ensures BoltRows(x, y, yEnd, md, width, ds) == BoltRows(x, y, yEnd - 1, md, width, ds) + [(Column(x, md, width, ds, yEnd - y), yEnd)]
  {
  }

  /** One sideways step of `generate_bolt_path`: the deviation drawn, then the column
      clamped to the screen. */
  method Deviate(x: int, md: nat, width: int, d: BoltDraw) returns (x': int)
    requires width >= 1
    ensures x' == Clamp(x + Deviation(md, d), 0, width - 1)
  {
    var deviation := Pick(-(md as int), md as int, d.dev);
    if d.wild {
      deviation := if md > 0 then Pick(-2, 2, d.pick) else 0;
    }
    x' := x + deviation;
    x' := Max(0, Min(width - 1, x'));
  }

  /** The draws behind one branch: its start point on the main bolt, the
      `uniform(0.5, 1.0)` length factor, its end row, its glyph and its steps. */
  datatype BranchDraw = BranchDraw(start: nat, u: real, yEnd: nat, glyph: nat, path: nat -> BoltDraw)

  /** The draws behind one call of `update_lightning`: whether the 3% chance fires, the
      rumble length and caption, whether the bolt is complex, the source cloud, the start
      column and (with no source cloud) row, the end row, the main bolt's steps, the
      number of branches and each branch's draws. */
  datatype StrikeDraw = StrikeDraw(fire: bool, rumble: nat, text: nat, complex: bool, cloud: nat, x: nat, y: nat,
                                   yEnd: nat, path: nat -> BoltDraw, branches: nat, branch: nat -> BranchDraw)

  /** Python `s.find(c)` for one character: the first index holding `c`, or -1. */
  function FindChar(s: string, c: char): (i: int)
    ensures -1 <= i < |s|
    ensures i >= 0 ==> s[i] == c && forall j :: 0 <= j < i ==> s[j] != c
    ensures i == -1 ==> forall j :: 0 <= j < |s| ==> s[j] != c
  {
    if s == [] then -1
    else if s[0] == c then 0
    else var j := FindChar(s[1..], c); if j == -1 then -1 else j + 1
  }

  /** The foreground clouds that reach into the screen's columns. */
  function Sources(fg: seq<CloudV>, width: int): (r: seq<CloudV>)
    ensures forall c :: c in r ==> c in fg && Round(c.x) < width && Round(c.x) + |c.repr| > 0
  {
    Filter(fg, (c: CloudV) => Round(c.x) < width && Round(c.x) + |c.repr| > 0)
  }

  /** Where a new bolt starts: under a column of the source cloud's visible glyphs (or its
      middle), one row below it; with no source cloud, in the middle half of the screen
      and the top third of the storm area. Both coordinates end up clamped. */
  function StrikeStart(fg: seq<CloudV>, width: int, sah: int, d: StrikeDraw): (r: (int, int))
    requires width >= 1 && sah >= 1
  {
    var src := Sources(fg, width);
    if src != [] then
      var c := src[Pick(0, |src| - 1, d.cloud)];
      var stripped := Strip(c.repr);
      var sx := Round(c.x) + (if stripped != [] then FindChar(c.repr, stripped[0]) else 0);
      var x := if |stripped| > 0 then Pick(sx, sx + |stripped| - 1, d.x) else Round(c.x) + |c.repr| / 2;
      (Clamp(x, 0, width - 1), Clamp(c.y + 1, 0, sah - 1))
    else
      (Pick(width / 4, 3 * width / 4, d.x), Clamp(Pick(0, if sah >= 3 then sah / 3 else 0, d.y), 0, sah - 1))
  }

  /** A bolt starts on screen, in the storm area. */
  lemma StrikeStartOnScreen(fg: seq<CloudV>, width: int, sah: int, d: StrikeDraw)
    requires width >= 1 && sah >= 1
    ensures 0 <= StrikeStart(fg, width, sah, d).0 < width && 0 <= StrikeStart(fg, width, sah, d).1 < sah
  {
    if Sources(fg, width) == [] {
      assert 3 * width / 4 < width;
    }
  }

  /** The lowest row a bolt from row `y` may end on: two rows down, or the storm area's
      last row when that is nearer. */
  function LowestEnd(y: int, sah: int): int {
    Min(Max(y + 1, y + 2), sah - 1)
  }

  /** How many rows of the `dy` rows left to the main bolt's end a branch with length
      factor `u` may span: `int(dy * LIGHTNING_BRANCH_LENGTH_FACTOR * u)`. */
  function BranchSpan(dy: int, u: real): int {
    Trunc(dy as real * LIGHTNING_BRANCH_LENGTH_FACTOR * u)
  }

  /** The lowest row a branch from point `j` of the main bolt may end on: a fraction of
      the way down to the main bolt's end, and no lower than the storm area. */
  function BranchBottom(main: seq<(int, int)>, j: int, sah: int, u: real): int
    requires 0 <= j < |main|
  {
    Min(main[j].1 + BranchSpan(main[|main| - 1].1 - main[j].1, u), sah - 1)
  }

  /** The branch off point `j` of the main bolt `main`: it ends between one row further
      down and `BranchBottom`. When that range is empty there is no branch. */
  function BranchAt(main: seq<(int, int)>, j: int, width: int, sah: int, b: BranchDraw): seq<Bolt>
    requires width >= 1 && 0 <= j < |main|
  {
    var s := main[j];
    var upper := BranchBottom(main, j, sah, b.u);
    if s.1 + 1 <= upper then
      var path := BoltRows(s.0, s.1, Pick(s.1 + 1, upper, b.yEnd), 2, width, b.path);
      if path != [] then [Bolt(path, LIGHTNING_BOLT_CHARS[Pick(0, |LIGHTNING_BOLT_CHARS| - 1, b.glyph)])] else []
    else []
  }

  /** One branch off the main bolt `main`: it starts at a point of `main` other than the
      last. */
  function Branch(main: seq<(int, int)>, width: int, sah: int, b: BranchDraw): seq<Bolt>
    requires width >= 1
  {
    if |main| < 2 then [] else BranchAt(main, Pick(0, |main| - 2, b.start), width, sah, b)
  }

  /** The branches the first `n` branch draws add, in order. */
  function Branches(main: seq<(int, int)>, width: int, sah: int, n: nat, bs: nat -> BranchDraw): seq<Bolt>
    requires width >= 1
  {
    if n == 0 then [] else Branches(main, width, sah, n - 1, bs) + Branch(main, width, sah, bs(n - 1))
  }

  /** The timers one frame on: each positive one counts down by one. */
  function CountDown(n: nat): nat {
    if n > 0 then n - 1 else 0
  }

  /** The lightning state after the countdowns of `update_lightning`: the bolts go out
      when the flicker runs out, and the ground strikes age. */
  function Settle(l: Lightning): Lightning {
    Lightning(CountDown(l.flicker), if l.flicker == 1 then [] else l.bolts, CountDown(l.rumble), l.rumbleText,
              CountDown(l.flash), AgeEffects(l.groundStrikes))
  }

  /** A new strike fires when its chance comes up and both the rumble and the flicker
      have run out. */
  predicate Armed(l: Lightning, d: StrikeDraw) {
    d.fire && Settle(l).rumble == 0 && Settle(l).flicker == 0
  }

  /** The main bolt of a strike. */
  function MainBolt(fg: seq<CloudV>, width: int, sah: int, d: StrikeDraw): seq<(int, int)>
    requires width >= 1 && sah >= 1
  {
    var start := StrikeStart(fg, width, sah, d);
    var yEnd := Pick(LowestEnd(start.1, sah), sah - 1, d.yEnd);
    BoltRows(start.0, start.1, yEnd, 1, width, d.path)
  }

  /** The bolts of a strike with main bolt `main`: the main bolt in the primary glyph,
      then, for a complex strike of a main bolt of three points or more, its branches. */
  function StrikeBolts(main: seq<(int, int)>, width: int, sah: int, d: StrikeDraw): seq<Bolt>
    requires width >= 1
  {
    if main == [] then []
    else [Bolt(main, LIGHTNING_PRIMARY_BOLT_CHAR)]
         + (if d.complex && |main| >= 3 then Branches(main, width, sah, Pick(1, LIGHTNING_MAX_BRANCHES, d.branches), d.branch) else [])
  }

  /** The ground strikes after a strike with main bolt `main`: one more at the bolt's end
      when it reaches the row above the splash line or lower. */
  function StrikeGround(strikes: seq<Effect>, main: seq<(int, int)>, splashLine: int): seq<Effect> {
    if main != [] && main[|main| - 1].1 >= splashLine - 1
    then strikes + [Effect(main[|main| - 1].0, main[|main| - 1].1, GROUND_STRIKE_EFFECT_DURATION)]
    else strikes
  }

  /** A strike on the settled lightning state `s`: the timers restart, the caption is
      drawn, and the bolts and ground strike of its main bolt are added. */
  function Struck(s: Lightning, fg: seq<CloudV>, width: int, sah: int, splashLine: int, d: StrikeDraw): Lightning
    requires width >= 1 && sah >= 1
  {
    var main := MainBolt(fg, width, sah, d);
    Lightning(LIGHTNING_FLICKER_DURATION, StrikeBolts(main, width, sah, d), Pick(RUMBLE_DURATION_MIN, RUMBLE_DURATION_MAX, d.rumble),
              RUMBLE_TEXTS[Pick(0, |RUMBLE_TEXTS| - 1, d.text)], LIGHTNING_FLASH_DURATION, StrikeGround(s.groundStrikes, main, splashLine))
  }

  /** The specification of `update_lightning` on the lightning globals `l`, the foreground
      clouds `fg` and the screen geometry. */
  function NextLightning(l: Lightning, fg: seq<CloudV>, width: int, sah: int, splashLine: int, d: StrikeDraw): Lightning
    requires width >= 1 && sah >= 1
  {
    if Armed(l, d) then Struck(Settle(l), fg, width, sah, splashLine, d) else Settle(l)
  }

  /** One round of the branch loop: a branch needs a main bolt of two points or more and
      room below its start. */
  method BranchStep(main: seq<(int, int)>, width: int, sah: int, b: BranchDraw) returns (r: seq<Bolt>)
    requires width >= 1
    ensures r == Branch(main, width, sah, b)
  {
    r := [];
    if |main| >= 2 {
      r := BranchOff(main, Pick(0, |main| - 2, b.start), width, sah, b);
    }
  }

  /** The branch off point `j` of the main bolt. */
  method BranchOff(main: seq<(int, int)>, j: int, width: int, sah: int, b: BranchDraw) returns (r: seq<Bolt>)
    requires width >= 1 && 0 <= j < |main|
    ensures r == BranchAt(main, j, width, sah, b)
  {
    r := [];
    var s := main[j];
    var lower := s.1 + 1;
    var upper := s.1 + BranchSpan(main[|main| - 1].1 - s.1, b.u);
    upper := Min(upper, sah - 1);
    if lower <= upper {
      var yEnd := Pick(lower, upper, b.yEnd);
      var glyph := LIGHTNING_BOLT_CHARS[Pick(0, |LIGHTNING_BOLT_CHARS| - 1, b.glyph)];
      var path := GenerateBoltPath(s.0, s.1, yEnd, 2, width, b.path);
      if path != [] {
        r := [Bolt(path, glyph)];
      }
    }
  }

  /** The branch loop of `update_lightning`: `n` branch draws, appended in order. */
  method AddBranches(bolts: seq<Bolt>, main: seq<(int, int)>, width: int, sah: int, n: nat, bs: nat -> BranchDraw)
    returns (r: seq<Bolt>)
    requires width >= 1
    ensures r == bolts + Branches(main, width, sah, n, bs)
  {
    r := bolts;
    var i := 0;
    while i < n
      invariant 0 <= i <= n
      invariant r == bolts + Branches(main, width, sah, i, bs)
    {
      var more := BranchStep(main, width, sah, bs(i));
      r := r + more;
      i := i + 1;
    }
  }

  /** The main bolt of a strike. The branch of the program for a bolt with no room below
      its start cannot be taken: the lowest end row is clamped to the storm area first. */
  method MainPath(fg: seq<CloudV>, width: int, sah: int, d: StrikeDraw) returns (main: seq<(int, int)>)
    requires width >= 1 && sah >= 1
    ensures main == MainBolt(fg, width, sah, d)
  {
    var start := StrikeStart(fg, width, sah, d);
    var maxY := sah - 1;
    var lower := Min(Max(start.1 + 1, start.1 + 2), maxY);
    if lower > maxY {
      assert false;
    }
    StrikeStartOnScreen(fg, width, sah, d);
    main := GenerateBoltPath(start.0, start.1, Pick(lower, maxY, d.yEnd), 1, width, d.path);
  }

  /** The bolts a strike shows: its main bolt, then its branches. */
  method StrikeBoltsOf(main: seq<(int, int)>, width: int, sah: int, d: StrikeDraw) returns (bolts: seq<Bolt>)
    requires width >= 1
    ensures bolts == StrikeBolts(main, width, sah, d)
  {
    bolts := [];
    if main != [] {
      bolts := bolts + [Bolt(main, LIGHTNING_PRIMARY_BOLT_CHAR)];
      if d.complex && |main| >= 3 {
        bolts := AddBranches(bolts, main, width, sah, Pick(1, LIGHTNING_MAX_BRANCHES, d.branches), d.branch);
      }
    }
  }

  /** The ground strike at the end of a bolt that reaches the ground. */
  method GroundStrike(strikes: seq<Effect>, main: seq<(int, int)>, splashLine: int) returns (r: seq<Effect>)
    ensures r == StrikeGround(strikes, main, splashLine)
  {
    r := strikes;
    if main != [] {
      var last := main[|main| - 1];
      if last.1 >= splashLine - 1 {
        r := r + [Effect(last.0, last.1, GROUND_STRIKE_EFFECT_DURATION)];
      }
    }
  }

  /** The strike part of `update_lightning`, on the settled state `s`. */
  method Strike(s: Lightning, fg: seq<CloudV>, width: int, sah: int, splashLine: int, d: StrikeDraw) returns (r: Lightning)
    requires width >= 1 && sah >= 1
    ensures r == Struck(s, fg, width, sah, splashLine, d)
  {
    var main := MainPath(fg, width, sah, d);
    var bolts := StrikeBoltsOf(main, width, sah, d);
    var strikes := GroundStrike(s.groundStrikes, main, splashLine);
    r := Lightning(LIGHTNING_FLICKER_DURATION, bolts, Pick(RUMBLE_DURATION_MIN, RUMBLE_DURATION_MAX, d.rumble),
                   RUMBLE_TEXTS[Pick(0, |RUMBLE_TEXTS| - 1, d.text)], LIGHTNING_FLASH_DURATION, strikes);
  }

  /** `update_lightning` on the globals `g` with the draws `d`. Only the lightning globals
      change. */
  method UpdateLightning(g: Globals, d: StrikeDraw) returns (h: Globals)
    requires g.Geometry()
    ensures h == g.(lightning := NextLightning(g.lightning, CloudValues(g.cloudsFg), g.width, g.stormAreaHeight, g.splashLine, d))
  {
    var l := g.lightning;
    var flash := l.flash;
    if flash > 0 {
      flash := flash - 1;
    }
    var flicker := l.flicker;
    var bolts := l.bolts;
    if flicker > 0 {
      flicker := flicker - 1;
      if flicker == 0 {
        bolts := [];
      }
    }
    var rumble := l.rumble;
    if rumble > 0 {
      rumble := rumble - 1;
    }
    var strikes := AgeEffects(l.groundStrikes);
    var text := l.rumbleText;
    var l' := Lightning(flicker, bolts, rumble, text, flash, strikes);
    assert l' == Settle(l);
    var fg := CloudValues(g.cloudsFg);
    if d.fire && rumble == 0 && flicker == 0 {
      assert Armed(l, d);
      l' := Strike(l', fg, g.width, g.stormAreaHeight, g.splashLine, d);
    }
    h := g.(lightning := l');
  }

  /** A path of one point per row from its first row down, every point on screen, each
      step at most `reach` columns sideways. */
  ghost predicate Descends(p: seq<(int, int)>, width: int, sah: int, reach: nat) {
    && (forall i :: 0 <= i < |p| ==> p[i].1 == p[0].1 + i)
    && (forall i :: 0 <= i < |p| ==> 0 <= p[i].0 < width && 0 <= p[i].1 < sah)
    && (forall i, j :: 0 <= i < j < |p| && j == i + 1 ==> -(reach as int) <= p[j].0 - p[i].0 <= reach)
  }

  /** A bolt drawn from an on-screen point to a row of the storm area descends. */
  lemma BoltRowsDescend(x: int, y: int, yEnd: int, md: nat, width: int, sah: int, ds: nat -> BoltDraw)
    requires width >= 1 && 0 <= x < width && 0 <= y <= yEnd < sah
    ensures var p := BoltRows(x, y, yEnd, md, width, ds);
      |p| == yEnd - y + 1 && p[0] == (x, y) && Descends(p, width, sah, Reach(md))
  {
    var p := BoltRows(x, y, yEnd, md, width, ds);
    forall i | 1 <= i < |p|
      ensures 0 <= p[i].0 < width
    {
      ColumnOnScreen(x, md, width, ds, i);
    }
    forall i, j | 0 <= i < j < |p| && j == i + 1
      ensures -(Reach(md) as int) <= p[j].0 - p[i].0 <= Reach(md)
    {
      ColumnStep(x, md, width, ds, i);
    }
  }

  /** The main bolt of a strike starts at the strike's start point, on screen, and runs
      one point per row down to an end row at least two rows lower (or the storm area's
      last row), moving at most two columns per row. */
  lemma MainBoltShape(fg: seq<CloudV>, width: int, sah: int, d: StrikeDraw)
    requires width >= 1 && sah >= 1
    ensures var p := MainBolt(fg, width, sah, d);
      && p != [] && p[0] == StrikeStart(fg, width, sah, d)
      && Descends(p, width, sah, 2)
      && Min(p[0].1 + 2, sah - 1) <= p[|p| - 1].1 <= sah - 1
  {
    var start := StrikeStart(fg, width, sah, d);
    StrikeStartOnScreen(fg, width, sah, d);
    var yEnd := Pick(LowestEnd(start.1, sah), sah - 1, d.yEnd);
    BoltRowsDescend(start.0, start.1, yEnd, 1, width, sah, d.path);
  }

  /** A branch's row span, for a length factor of at most one, is less than the rows left
      to the main bolt's end. */
  lemma BranchSpanShorter(dy: int, u: real)
    requires dy > 0 && 0.0 <= u <= 1.0
    ensures 0 <= BranchSpan(dy, u) < dy
  {
    var a := dy as real * LIGHTNING_BRANCH_LENGTH_FACTOR;
    assert a * u <= a * 1.0;
  }

  /** What a branch is: a bolt of at least two points, drawn in one of the bolt glyphs,
      that leaves the main bolt at one of its points other than the last and descends. */
  ghost predicate BranchOf(main: seq<(int, int)>, b: Bolt, width: int, sah: int) {
    && |b.path| >= 2 && b.glyph in LIGHTNING_BOLT_CHARS
    && (exists j :: 0 <= j < |main| - 1 && b.path[0] == main[j])
    && Descends(b.path, width, sah, 2)
  }

  /** A bolt drawn from a point of the main bolt other than its last down to a lower row
      of the storm area is a branch of it. */
  lemma BranchFrom(main: seq<(int, int)>, j: int, yEnd: int, width: int, sah: int, ds: nat -> BoltDraw, glyph: char)
    requires width >= 1 && 0 <= j < |main| - 1 && Descends(main, width, sah, 2)
    requires main[j].1 < yEnd < sah && glyph in LIGHTNING_BOLT_CHARS
    ensures var p := BoltRows(main[j].0, main[j].1, yEnd, 2, width, ds);
      BranchOf(main, Bolt(p, glyph), width, sah) && p[|p| - 1].1 == yEnd
  {
    BoltRowsDescend(main[j].0, main[j].1, yEnd, 2, width, sah, ds);
  }

  /** A branch draw off a descending main bolt gives either nothing or one branch, and,
      with the length factor the program draws from [0.5, 1.0], that branch ends above the
      main bolt's last row. */
  lemma BranchShape(main: seq<(int, int)>, width: int, sah: int, b: BranchDraw)
    requires width >= 1 && sah >= 1 && main != [] && Descends(main, width, sah, 2)
    ensures var r := Branch(main, width, sah, b);
      && |r| <= 1
      && (r != [] ==> BranchOf(main, r[0], width, sah))
      && (r != [] && 0.5 <= b.u <= 1.0 ==> EndsAbove(r[0], main[|main| - 1].1))
  {
    if |main| >= 2 {
      BranchAtShape(main, Pick(0, |main| - 2, b.start), width, sah, b);
    }
  }

  /** When there is room below its start, the branch off point `j` is its bolt. */
  lemma BranchAtValue(main: seq<(int, int)>, j: int, width: int, sah: int, b: BranchDraw)
    requires width >= 1 && 0 <= j < |main| && main[j].1 + 1 <= BranchBottom(main, j, sah, b.u)
    ensures var yEnd := Pick(main[j].1 + 1, BranchBottom(main, j, sah, b.u), b.yEnd);
      BranchAt(main, j, width, sah, b)
      == [Bolt(BoltRows(main[j].0, main[j].1, yEnd, 2, width, b.path), LIGHTNING_BOLT_CHARS[Pick(0, |LIGHTNING_BOLT_CHARS| - 1, b.glyph)])]
  {
  }

  /** The branch off a point of the main bolt other than its last. */
  lemma BranchAtShape(main: seq<(int, int)>, j: int, width: int, sah: int, b: BranchDraw)
    requires width >= 1 && sah >= 1 && 0 <= j < |main| - 1 && Descends(main, width, sah, 2)
    ensures var r := BranchAt(main, j, width, sah, b);
      && |r| <= 1
      && (r != [] ==> BranchOf(main, r[0], width, sah))
      && (r != [] && 0.5 <= b.u <= 1.0 ==> EndsAbove(r[0], main[|main| - 1].1))
  {
    var upper := BranchBottom(main, j, sah, b.u);
    if main[j].1 + 1 <= upper {
      var yEnd := Pick(main[j].1 + 1, upper, b.yEnd);
      BranchFrom(main, j, yEnd, width, sah, b.path, LIGHTNING_BOLT_CHARS[Pick(0, |LIGHTNING_BOLT_CHARS| - 1, b.glyph)]);
      BranchAtValue(main, j, width, sah, b);
      if 0.5 <= b.u <= 1.0 {
        BranchBottomAbove(main, j, width, sah, b.u);
      }
    }
  }

  /** With a length factor of at most one, a branch off point `j` ends above the main
      bolt's last row. */
  lemma BranchBottomAbove(main: seq<(int, int)>, j: int, width: int, sah: int, u: real)
    requires 0 <= j < |main| - 1 && Descends(main, width, sah, 2) && 0.0 <= u <= 1.0
    ensures BranchBottom(main, j, sah, u) < main[|main| - 1].1
  {
    var dy := main[|main| - 1].1 - main[j].1;
    assert dy == |main| - 1 - j;
    BranchSpanShorter(dy, u);
  }

  /** Every branch a strike adds is a branch of its main bolt, and there are no more of
      them than branch draws. */
  lemma {:induction false} BranchesShape(main: seq<(int, int)>, width: int, sah: int, n: nat, bs: nat -> BranchDraw)
    requires width >= 1 && sah >= 1 && main != [] && Descends(main, width, sah, 2)
    ensures var r := Branches(main, width, sah, n, bs);
      |r| <= n && forall i :: 0 <= i < |r| ==> BranchOf(main, r[i], width, sah)
  {
    if n > 0 {
      BranchesShape(main, width, sah, n - 1, bs);
      BranchShape(main, width, sah, bs(n - 1));
      var q := Branches(main, width, sah, n - 1, bs);
      BranchesSnoc(q, Branch(main, width, sah, bs(n - 1)));
    }
  }

  /** A bolt that ends above row `row`. */
  predicate EndsAbove(b: Bolt, row: int) {
    b.path != [] && b.path[|b.path| - 1].1 < row
  }

  /** With length factors from [0.5, 1.0], every branch a strike adds ends above the main
      bolt's last row. */
  lemma {:induction false} BranchesEndAbove(main: seq<(int, int)>, width: int, sah: int, n: nat, bs: nat -> BranchDraw)
    requires width >= 1 && sah >= 1 && main != [] && Descends(main, width, sah, 2)
    requires forall k :: 0 <= k < n ==> 0.5 <= bs(k).u <= 1.0
    ensures var r := Branches(main, width, sah, n, bs);
      forall i :: 0 <= i < |r| ==> EndsAbove(r[i], main[|main| - 1].1)
  {
    if n > 0 {
      BranchesEndAbove(main, width, sah, n - 1, bs);
      assert 0.5 <= bs(n - 1).u <= 1.0;
      BranchEndsAbove(main, width, sah, bs(n - 1));
      var q := Branches(main, width, sah, n - 1, bs);
      var more := Branch(main, width, sah, bs(n - 1));
      assert var r := Branches(main, width, sah, n - 1, bs);
        forall i :: 0 <= i < |r| ==> EndsAbove(r[i], main[|main| - 1].1);
      assert |more| <= 1 && (more != [] ==> EndsAbove(more[0], main[|main| - 1].1));
      EndsAboveSnoc(q, more, main[|main| - 1].1);
      assert Branches(main, width, sah, n, bs) == q + more;
    }
  }

  /** Bolts that all end above `row`, followed by at most one more that does. */
  lemma EndsAboveSnoc(q: seq<Bolt>, more: seq<Bolt>, row: int)
    requires forall i :: 0 <= i < |q| ==> EndsAbove(q[i], row)
    requires |more| <= 1 && (more != [] ==> EndsAbove(more[0], row))
    ensures forall i :: 0 <= i < |q + more| ==> EndsAbove((q + more)[i], row)
  {
    BranchesSnoc(q, more);
  }

  /** The length part of `BranchShape` on its own. */
  lemma BranchEndsAbove(main: seq<(int, int)>, width: int, sah: int, b: BranchDraw)
    requires width >= 1 && sah >= 1 && main != [] && Descends(main, width, sah, 2)
    requires 0.5 <= b.u <= 1.0
    ensures var r := Branch(main, width, sah, b);
      |r| <= 1 && (r != [] ==> EndsAbove(r[0], main[|main| - 1].1))
  {
    BranchShape(main, width, sah, b);
  }

  /** Indexing into the branches after one more branch draw. */
  lemma BranchesSnoc(q: seq<Bolt>, more: seq<Bolt>)
    requires |more| <= 1
    ensures forall i :: 0 <= i < |q| ==> (q + more)[i] == q[i]
    ensures |more| == 1 ==> (q + more)[|q|] == more[0]
  {
  }

  /** The timers of `update_lightning`: a strike fires exactly when its chance comes up
      and neither the rumble nor the flicker has more than one frame left; otherwise every
      timer counts down, the bolts go out with the last frame of flicker, the caption
      stays and the ground strikes age. */
  lemma LightningTimers(l: Lightning, fg: seq<CloudV>, width: int, sah: int, splashLine: int, d: StrikeDraw)
    requires width >= 1 && sah >= 1
    ensures Armed(l, d) <==> d.fire && l.rumble <= 1 && l.flicker <= 1
    ensures var r := NextLightning(l, fg, width, sah, splashLine, d);
      !Armed(l, d) ==>
        && r.flicker == Max(0, l.flicker - 1) && r.rumble == Max(0, l.rumble - 1) && r.flash == Max(0, l.flash - 1)
        && r.rumbleText == l.rumbleText && r.groundStrikes == AgeEffects(l.groundStrikes)
        && r.bolts == (if l.flicker == 1 then [] else l.bolts)
  {
  }

  /** A strike restarts the flicker and the flash and draws a rumble length and caption
      from the configured ones. */
  lemma StrikeTimers(l: Lightning, fg: seq<CloudV>, width: int, sah: int, splashLine: int, d: StrikeDraw)
    requires width >= 1 && sah >= 1 && Armed(l, d)
    ensures var r := NextLightning(l, fg, width, sah, splashLine, d);
      && r.flicker == LIGHTNING_FLICKER_DURATION && r.flash == LIGHTNING_FLASH_DURATION
      && RUMBLE_DURATION_MIN <= r.rumble <= RUMBLE_DURATION_MAX && r.rumbleText in RUMBLE_TEXTS
  {
  }

  /** The bolts of a strike with a descending main bolt: the main bolt first, in the
      primary glyph, and after it at most `LIGHTNING_MAX_BRANCHES` branches of it, none
      unless the strike is complex and the main bolt has three points or more; with
      length factors from [0.5, 1.0] every branch ends above the main bolt's last row. */
  lemma StrikeBoltsOfMain(main: seq<(int, int)>, width: int, sah: int, d: StrikeDraw)
    requires width >= 1 && sah >= 1 && main != [] && Descends(main, width, sah, 2)
    ensures var bolts := StrikeBolts(main, width, sah, d);
      && |bolts| >= 1 && bolts[0] == Bolt(main, LIGHTNING_PRIMARY_BOLT_CHAR)
      && (forall i :: 1 <= i < |bolts| ==> BranchOf(main, bolts[i], width, sah))
      && |bolts| <= 1 + LIGHTNING_MAX_BRANCHES
      && (!d.complex || |main| < 3 ==> |bolts| == 1)
      && ((forall k :: 0 <= k < LIGHTNING_MAX_BRANCHES ==> 0.5 <= d.branch(k).u <= 1.0) ==>
            forall i :: 1 <= i < |bolts| ==> EndsAbove(bolts[i], main[|main| - 1].1))
  {
    var bolts := StrikeBolts(main, width, sah, d);
    if d.complex && |main| >= 3 {
      var n := Pick(1, LIGHTNING_MAX_BRANCHES, d.branches);
      BranchesShape(main, width, sah, n, d.branch);
      if forall k :: 0 <= k < LIGHTNING_MAX_BRANCHES ==> 0.5 <= d.branch(k).u <= 1.0 {
        BranchesEndAbove(main, width, sah, n, d.branch);
      }
      var bs := Branches(main, width, sah, n, d.branch);
      assert bolts == [Bolt(main, LIGHTNING_PRIMARY_BOLT_CHAR)] + bs;
      BoltsAfter(Bolt(main, LIGHTNING_PRIMARY_BOLT_CHAR), bs);
    }
  }

  /** Indexing past the first bolt. */
  lemma BoltsAfter(b: Bolt, bs: seq<Bolt>)
    ensures forall i :: 1 <= i < |[b] + bs| ==> ([b] + bs)[i] == bs[i - 1]
  {
  }

  /** The bolts a strike shows are those of its main bolt. */
  lemma StrikeBoltsShape(l: Lightning, fg: seq<CloudV>, width: int, sah: int, splashLine: int, d: StrikeDraw)
    requires width >= 1 && sah >= 1 && Armed(l, d)
    ensures var main := MainBolt(fg, width, sah, d);
      && NextLightning(l, fg, width, sah, splashLine, d).bolts == StrikeBolts(main, width, sah, d)
      && main != [] && Descends(main, width, sah, 2)
  {
    MainBoltShape(fg, width, sah, d);
  }

  /** A strike adds a ground strike at its main bolt's end exactly when the bolt reaches
      the row above the splash line or lower; the ground strikes already there age. */
  lemma StrikeGroundEffect(l: Lightning, fg: seq<CloudV>, width: int, sah: int, splashLine: int, d: StrikeDraw)
    requires width >= 1 && sah >= 1 && Armed(l, d)
    ensures var r := NextLightning(l, fg, width, sah, splashLine, d);
      var main := MainBolt(fg, width, sah, d);
      var last := main[|main| - 1];
      var aged := AgeEffects(l.groundStrikes);
      && (last.1 >= splashLine - 1 ==> r.groundStrikes == aged + [Effect(last.0, last.1, GROUND_STRIKE_EFFECT_DURATION)])
      && (last.1 < splashLine - 1 ==> r.groundStrikes == aged)
  {
    MainBoltShape(fg, width, sah, d);
  }

  /** While a strike flickers no new one can fire: the frame after a strike is never
      armed, whatever it draws. */
  lemma NoStrikeOnStrike(l: Lightning, fg: seq<CloudV>, width: int, sah: int, splashLine: int, d: StrikeDraw, d': StrikeDraw)
    requires width >= 1 && sah >= 1 && Armed(l, d)
    ensures !Armed(NextLightning(l, fg, width, sah, splashLine, d), d')
  {
    StrikeTimers(l, fg, width, sah, splashLine, d);
  }
}
