/** app/storm1.py: the storm animation built from `Raindrop`, `Cloud` and `Puddle` objects
    held in module globals (module `Storm1Globals`). Random draws
    are parameters: a `k: nat` stands for the outcome of one `randint`, a `bool` for the
    outcome of one `random() < p`. */
module Storm1 {
  import opened PyNum
  import opened PyStr
  import opened PySort
  import opened StormConfig
  import opened PuddleMath
  import opened Screen

  /** `PUDDLE_MAX_INTENSITY + 0.99`, the cap app/storm1.py puts on puddle intensity. */
  const PUDDLE_CAP := PUDDLE_MAX_INTENSITY as real + 0.99

  // ---------------------------------------------------------------- raindrops

  datatype DropV = DropV(x: real, y: real, glyph: char)

  /** The draws of one `Raindrop.reset`: the `random() < 0.7` test for a side origin and
      the two `randint`s for the row and the column. */
  datatype ResetDraw = ResetDraw(side: bool, ky: nat, kx: nat)

  /** A reset lets the drop enter from the side it is blown from only after it has fallen
      once, in wind stronger than `RAIN_SIDE_ORIGIN_THRESHOLD`, and then with probability 0.7. */
  predicate SideOrigin(w: real, initial: bool, side: bool) {
    !initial && Abs(w) > RAIN_SIDE_ORIGIN_THRESHOLD && side
  }

  function IsWhole(r: real): bool {
    r == r.Floor as real
  }

  /** `Raindrop.reset` on a drop of a screen `wb` columns wide over a storm area `sah` rows high. */
  function Respawn(wb: int, sah: int, w: real, initial: bool, d: ResetDraw): (r: DropV)
    requires wb >= 1
    ensures r.glyph == RainCharForWind(w) && IsWhole(r.x) && IsWhole(r.y)
    ensures initial || SideOrigin(w, initial, d.side) ==> 0.0 <= r.y <= Max(0, sah - 1) as real
    ensures SideOrigin(w, initial, d.side) && w > 0.0 ==> (-Trunc(Abs(w)) - 3) as real <= r.x <= -1.0
    ensures SideOrigin(w, initial, d.side) && w <= 0.0 ==> wb as real <= r.x <= (wb + Trunc(Abs(w)) + 2) as real
    ensures !SideOrigin(w, initial, d.side) ==> 0.0 <= r.x <= (wb - 1) as real
    ensures !SideOrigin(w, initial, d.side) && !initial ==> r.y == 0.0
  {
    var maxY := Max(0, sah - 1);
    var c := RainCharForWind(w);
    if SideOrigin(w, initial, d.side) then
      var y := Pick(0, maxY, d.ky) as real;
      if w > 0.0 then DropV(Pick(-Trunc(Abs(w)) - 3, -1, d.kx) as real, y, c)
      else DropV(Pick(wb, wb + Trunc(Abs(w)) + 2, d.kx) as real, y, c)
    else
      DropV(Pick(0, wb - 1, d.kx) as real, if initial then Pick(0, maxY, d.ky) as real else 0.0, c)
  }

  /** `Raindrop.update`: the drop moves one row down and drifts with the wind. Reaching the
      splash line reports the rounded column and resets the drop; leaving the band
      (-5, wb + 5) resets it without a splash; otherwise it keeps falling. */
  function Fall(v: DropV, wb: int, sah: int, w: real, splashLine: int, d: ResetDraw): (Option<int>, DropV)
    requires wb >= 1
  {
    var y := v.y + 1.0;
    var x := v.x + w;
    if y >= splashLine as real then (Some(Round(x)), Respawn(wb, sah, w, false, d))
    else if !(-5.0 < x < (wb + 5) as real) then (None, Respawn(wb, sah, w, false, d))
    else (None, DropV(x, y, RainCharForWind(w)))
  }

  /** A drop splashes exactly when its next row reaches the splash line, at the column
      nearest its drifted position; a splashing drop or one blown out of the band is
      reset, any other keeps falling one row with the wind. */
  lemma FallSpec(v: DropV, wb: int, sah: int, w: real, splashLine: int, d: ResetDraw)
    requires wb >= 1
    ensures var r := Fall(v, wb, sah, w, splashLine, d);
      && (r.0.Some? <==> v.y + 1.0 >= splashLine as real)
      && (r.0.Some? ==> -0.5 <= r.0.value as real - (v.x + w) <= 0.5)
      && (r.0.Some? || !(-5.0 < v.x + w < (wb + 5) as real) ==> r.1 == Respawn(wb, sah, w, false, d))
      && (r.0.None? && -5.0 < v.x + w < (wb + 5) as real ==> r.1 == DropV(v.x + w, v.y + 1.0, RainCharForWind(w)))
  {
  }

  class Raindrop {
    const widthBound: int
    const stormAreaHeight: int
    var x: real
    var y: real
    var glyph: char

    function Value(): DropV
      reads this
    {
      DropV(x, y, glyph)
    }

    /** `Raindrop(width_bound, storm_area_height, wind)`: an initial spawn anywhere in the storm area. */
    constructor (widthBound: int, stormAreaHeight: int, w: real, d: ResetDraw)
      requires widthBound >= 1
      ensures this.widthBound == widthBound && this.stormAreaHeight == stormAreaHeight
      ensures Value() == Respawn(widthBound, stormAreaHeight, w, true, d)
    {
      this.widthBound := widthBound;
      this.stormAreaHeight := stormAreaHeight;
      new;
      Reset(w, true, d);
    }

    method Reset(w: real, initial: bool, d: ResetDraw)
      requires widthBound >= 1
      modifies this
      ensures Value() == Respawn(widthBound, stormAreaHeight, w, initial, d)
    {
      glyph := RainCharForWind(w);
      var maxY := stormAreaHeight - 1;
      if maxY < 0 {
        maxY := 0;
      }
      if !initial && Abs(w) > RAIN_SIDE_ORIGIN_THRESHOLD && d.side {
        y := Pick(0, maxY, d.ky) as real;
        if w > 0.0 {
          x := Pick(-Trunc(Abs(w)) - 3, -1, d.kx) as real;
        } else {
          x := Pick(widthBound, widthBound + Trunc(Abs(w)) + 2, d.kx) as real;
        }
      } else {
        if initial {
          y := Pick(0, maxY, d.ky) as real;
        } else {
          y := 0.0;
        }
        x := Pick(0, widthBound - 1, d.kx) as real;
      }
    }

    method Update(w: real, splashLine: int, d: ResetDraw) returns (splash: Option<int>)
      requires widthBound >= 1
      modifies this
      ensures (splash, Value()) == Fall(old(Value()), widthBound, stormAreaHeight, w, splashLine, d)
    {
      y := y + 1.0;
      x := x + w;
      glyph := RainCharForWind(w);
      var hitGround := y >= splashLine as real;
      var offScreen := !(-5.0 < x < (widthBound + 5) as real);
      if hitGround {
        splash := Some(Round(x));
        Reset(w, false, d);
      } else {
        if offScreen {
          Reset(w, false, d);
        }
        splash := None;
      }
    }
  }

  /** `Raindrop.draw`: the rounded position, only above the splash line and on the screen. */
  function DropWrites(v: DropV, splashLine: int, width: int, override: Option<string>): (r: seq<Write>)
    ensures |r| <= 1
    ensures forall k :: 0 <= k < |r| ==> 0 <= r[k].y < splashLine && 0 <= r[k].x < width
    ensures |r| == 1 <==> 0 <= Round(v.y) < splashLine && 0 <= Round(v.x) < width
  {
    var dx := Round(v.x);
    var dy := Round(v.y);
    if 0 <= dy < splashLine && 0 <= dx < width then [Write(dx, dy, Cell(v.glyph, Tint(override, COLOR_RAIN)))] else []
  }

  // ---------------------------------------------------------------- clouds

  datatype CloudV = CloudV(x: real, y: int, width: int, repr: string)

  /** The draws of one `regenerate_shape`: the width, the shape, the broken shape's runs and
      the fallback width. */
  datatype ShapeDraw = ShapeDraw(kw: nat, shape: nat, groups: nat -> nat, kw2: nat)

  lemma StripCloud(n: nat)
    requires n >= 1
    ensures Strip(Repeat(CLOUD_CHAR, n)) == Repeat(CLOUD_CHAR, n)
  {
  }

  /** `regenerate_shape`: the new picture and the new `width`, the length of the picture
      without its surrounding spaces. A picture that strips to nothing is replaced by a
      solid run, so a cloud always shows a glyph. */
  function Regenerate(minW: int, maxW: int, d: ShapeDraw): (r: (int, string))
    ensures r.0 >= 1 && r.0 == |Strip(r.1)|
  {
    var amin := Max(1, minW);
    var amax := Max(amin, maxW);
    var w := Pick(amin, amax, d.kw);
    var repr := ShapeOf(IndexToShape(d.shape), w, d.groups);
    var stripped := Strip(repr);
    if stripped == [] then
      var n := Pick(amin, amax, d.kw2);
      StripCloud(n);
      (n, Repeat(CLOUD_CHAR, n))
    else (|stripped|, repr)
  }

  /** The rows a cloud may be placed on: from `int(sah * factor)` to `sah // div`, raised to
      the lower end when the range would be empty. */
  function CloudRows(sah: int, factor: real, div: int): (r: (int, int))
    requires div > 0
    ensures r.0 <= r.1
    ensures sah >= 1 && 0.0 <= factor < 1.0 && div >= 2 ==> 0 <= r.0 && r.1 < sah
  {
    var lo := Trunc(sah as real * factor);
    var hi := sah / div;
    ScaledRowInside(sah, factor);
    DividedRowInside(sah, div);
    (lo, if lo > hi then lo else hi)
  }

  lemma DividedRowInside(sah: int, div: int)
    requires div > 0
    ensures sah >= 1 && div >= 2 ==> 0 <= sah / div < sah
  {
    if sah >= 1 && div >= 2 {
      assert (sah / div) * div <= sah;
      assert (sah / div) * 2 <= (sah / div) * div;
    }
  }

  lemma ScaledRowInside(sah: int, factor: real)
    ensures sah >= 1 && 0.0 <= factor < 1.0 ==> 0 <= Trunc(sah as real * factor) < sah
  {
    if sah >= 1 && 0.0 <= factor < 1.0 {
      assert sah as real * factor < sah as real * 1.0;
    }
  }

  /** How far a cloud moves in one frame: its base speed in the wind's direction plus the
      wind scaled by the layer's factor. */
  function CloudStep(base: real, w: real, wf: real): real {
    base * (if w >= 0.0 then 1.0 else -1.0) + w * wf
  }

  /** Where `Cloud.update` leaves the cloud: its new column and row, and whether it wrapped
      around an edge (and so also gets a new picture). */
  datatype Moved = Moved(x: real, y: int, wrapped: bool)

  /** `Cloud.update`'s movement: the cloud moves by `step`. Once its rounded column reaches
      the right edge it restarts left of the screen, 0 to 5 columns beyond its old picture's
      length; once its right end passes the left edge it restarts at the right edge plus 0
      to 5. A wrapped cloud gets a row drawn from `CloudRows`. */
  function Drift(c: CloudV, wb: int, sah: int, factor: real, div: int, step: real, kOff: nat, ky: nat): (r: Moved)
    requires div > 0
    ensures r.wrapped <==> Round(c.x + step) >= wb || Round(c.x + step) + |c.repr| < 0
    ensures Round(c.x + step) >= wb ==> -(|c.repr| + 5) as real <= r.x <= -(|c.repr| as real)
    ensures Round(c.x + step) < wb && Round(c.x + step) + |c.repr| < 0 ==> (wb - 1) as real <= r.x <= (wb + 4) as real
    ensures !r.wrapped ==> r.x == c.x + step && r.y == c.y
    ensures r.wrapped ==> CloudRows(sah, factor, div).0 <= r.y <= CloudRows(sah, factor, div).1
  {
    var x := c.x + step;
    var ix := Round(x);
    var rows := CloudRows(sah, factor, div);
    if ix >= wb then Moved(-(|c.repr| + Pick(0, 5, kOff)) as real, Pick(rows.0, rows.1, ky), true)
    else if ix + |c.repr| < 0 then Moved((wb - 1 + Pick(0, 5, kOff)) as real, Pick(rows.0, rows.1, ky), true)
    else Moved(x, c.y, false)
  }

  /** The draws of one `Cloud.update`: the wrap offset, the new row and the new shape
      (used only when the cloud wraps). */
  datatype CloudDraw = CloudDraw(kOff: nat, ky: nat, regen: ShapeDraw)

  /** The whole cloud after `Cloud.update`: the move, and a fresh picture after a wrap. */
  function Drifted(c: CloudV, wb: int, sah: int, factor: real, div: int, step: real, d: CloudDraw): (r: CloudV)
    requires div > 0
  {
    var m := Drift(c, wb, sah, factor, div, step, d.kOff, d.ky);
    if m.wrapped then
      var shape := Regenerate(CLOUD_MIN_WIDTH, CLOUD_MAX_WIDTH, d.regen);
      CloudV(m.x, m.y, shape.0, shape.1)
    else c.(x := m.x)
  }

  class Cloud {
    const widthBound: int
    const stormAreaHeight: int
    const minYFactor: real
    const maxYDivisor: int
    const isForeground: bool
    var x: real
    var y: int
    var width: int
    var repr: string

    function Value(): CloudV
      reads this
    {
      CloudV(x, y, width, repr)
    }

    /** The cloud is on a row of the storm area and its picture shows a glyph. */
    predicate Valid()
      reads this
    {
      && stormAreaHeight >= 1 && 0.0 <= minYFactor < 1.0 && maxYDivisor >= 2
      && 0 <= y < stormAreaHeight && width >= 1 && width == |Strip(repr)|
    }

    constructor (minW: int, maxW: int, factor: real, div: int, wb: int, sah: int, isFg: bool, d: ShapeDraw, kx: nat, ky: nat)
      requires div >= 2 && 0.0 <= factor < 1.0 && sah >= 1 && wb >= 0
      ensures widthBound == wb && stormAreaHeight == sah && minYFactor == factor && maxYDivisor == div
      ensures isForeground == isFg && Valid()
      ensures (width, repr) == Regenerate(minW, maxW, d)
      ensures -(width as real) <= x <= (wb - 1) as real
      ensures CloudRows(sah, factor, div).0 <= y <= CloudRows(sah, factor, div).1
    {
      widthBound := wb;
      stormAreaHeight := sah;
      minYFactor := factor;
      maxYDivisor := div;
      isForeground := isFg;
      new;
      RegenerateShape(minW, maxW, d);
      x := Pick(-width, wb - 1, kx) as real;
      var rows := CloudRows(stormAreaHeight, minYFactor, maxYDivisor);
      y := Pick(rows.0, rows.1, ky);
    }

    method RegenerateShape(minW: int, maxW: int, d: ShapeDraw)
      modifies this
      ensures (width, repr) == Regenerate(minW, maxW, d)
      ensures x == old(x) && y == old(y)
    {
      var amin := Max(1, minW);
      var amax := Max(amin, maxW);
      width := Pick(amin, amax, d.kw);
      repr := ShapeOf(IndexToShape(d.shape), width, d.groups);
      var stripped := Strip(repr);
      width := |stripped|;
      if stripped == [] {
        repr := Repeat(CLOUD_CHAR, Pick(amin, amax, d.kw2));
        width := |repr|;
      }
    }

    /** This cloud after moving by `step` with the draws `d`. */
    function Next(step: real, d: CloudDraw): CloudV
      requires Valid()
      reads this
    {
      Drifted(Value(), widthBound, stormAreaHeight, minYFactor, maxYDivisor, step, d)
    }

    /** `Cloud.update`: the move `Drift` describes, with a new picture after a wrap. The
        cloud stays inside the storm area and keeps showing a glyph. */
    method Update(step: real, d: CloudDraw)
      requires Valid()
      modifies this
      ensures Valid() && Value() == old(Next(step, d))
    {
      var m := Drift(Value(), widthBound, stormAreaHeight, minYFactor, maxYDivisor, step, d.kOff, d.ky);
      x, y := m.x, m.y;
      if m.wrapped {
        RegenerateShape(CLOUD_MIN_WIDTH, CLOUD_MAX_WIDTH, d.regen);
      }
    }
  }

  /** `Cloud.draw`: the picture's non-space glyphs along the cloud's row from its rounded
      column. The row is always inside the storm area (`Cloud.Valid`), so the re-pick of
      the row the source does first for a cloud below it never happens. */
  function CloudWrites(c: CloudV, isFg: bool, sah: int, override: Option<string>): (r: seq<Write>)
    requires 0 <= c.y < sah
    ensures forall k :: 0 <= k < |r| ==> r[k].y == c.y && r[k].cell.glyph != ' '
    ensures forall k :: 0 <= k < |r| ==> r[k].cell.color == Tint(override, if isFg then COLOR_CLOUD_FG else COLOR_CLOUD_BG)
  {
    TextWrites(Round(c.x), c.y, c.repr, Tint(override, if isFg then COLOR_CLOUD_FG else COLOR_CLOUD_BG), true)
  }

  // ---------------------------------------------------------------- puddles

  /** `add_splash_contribution`: half a unit more water, never above `PUDDLE_CAP`. */
  function Splashed(p: PuddleV): (r: PuddleV)
    ensures r.intensity <= PUDDLE_CAP && r.intensity <= p.intensity + PUDDLE_FORMATION_PER_SPLASH
    ensures r.intensity == PUDDLE_CAP || r.intensity == p.intensity + PUDDLE_FORMATION_PER_SPLASH
    ensures r == p.(intensity := r.intensity)
  {
    p.(intensity := MinR(PUDDLE_CAP, p.intensity + PUDDLE_FORMATION_PER_SPLASH))
  }

  function AtX(x: int): Disturbance -> bool {
    (d: Disturbance) => d.x == x
  }

  function AwayFromX(x: int): Disturbance -> bool {
    (d: Disturbance) => d.x != x
  }

  /** `add_disturbance`: replaces whatever disturbance there was at `x` by a fresh one. */
  function Disturbed(p: PuddleV, x: int): (r: PuddleV)
    ensures r.baseX == p.baseX && r.intensity == p.intensity && r.width == p.width
  {
    p.(disturbances := Filter(p.disturbances, AwayFromX(x)) + [Disturbance(x, PUDDLE_DISTURBANCE_DURATION)])
  }

  lemma {:induction false} FilterNoneAt(ds: seq<Disturbance>, x: int)
    ensures Filter(Filter(ds, AwayFromX(x)), AtX(x)) == []
    decreases |ds|
  {
    if ds != [] {
      FilterNoneAt(ds[1..], x);
      FilterAppend(if AwayFromX(x)(ds[0]) then [ds[0]] else [], Filter(ds[1..], AwayFromX(x)), AtX(x));
    }
  }

  /** After a disturbance at `x` the puddle has exactly one disturbance there, with the full
      lifetime, and its disturbances elsewhere are unchanged and in order. */
  lemma DisturbedExact(p: PuddleV, x: int)
    ensures Filter(Disturbed(p, x).disturbances, AtX(x)) == [Disturbance(x, PUDDLE_DISTURBANCE_DURATION)]
    ensures Filter(Disturbed(p, x).disturbances, AwayFromX(x)) == Filter(p.disturbances, AwayFromX(x))
  {
    var kept := Filter(p.disturbances, AwayFromX(x));
    var added := [Disturbance(x, PUDDLE_DISTURBANCE_DURATION)];
    FilterAppend(kept, added, AtX(x));
    FilterAppend(kept, added, AwayFromX(x));
    FilterNoneAt(p.disturbances, x);
    FilterTwice(p.disturbances, AwayFromX(x));
  }

  class Puddle {
    var baseX: int
    var intensity: real
    var width: int
    var disturbances: seq<Disturbance>

    function Value(): PuddleV
      reads this
    {
      PuddleV(baseX, intensity, width, disturbances)
    }

    constructor (baseX: int, intensity: real, width: int)
      ensures Value() == PuddleV(baseX, intensity, width, [])
    {
      this.baseX := baseX;
      this.intensity := intensity;
      this.width := width;
      disturbances := [];
    }

    method AddSplashContribution()
      modifies this
      ensures Value() == Splashed(old(Value()))
    {
      intensity := MinR(PUDDLE_CAP, intensity + PUDDLE_FORMATION_PER_SPLASH);
    }

    method AddDisturbance(x: int)
      modifies this
      ensures Value() == Disturbed(old(Value()), x)
    {
      disturbances := Filter(disturbances, AwayFromX(x)) + [Disturbance(x, PUDDLE_DISTURBANCE_DURATION)];
    }

    /** `update_effects`: the disturbances age first, then the puddle evaporates; a puddle
        still holding water gets the width its intensity calls for. */
    method UpdateEffects(s: real) returns (alive: bool)
      modifies this
      ensures alive == Survives(old(Value()), s)
      ensures alive ==> Value() == Evolve(old(Value()), s)
      ensures !alive ==> Value() == old(Value()).(intensity := Evaporate(old(intensity), s), disturbances := AgeDisturbances(old(disturbances)))
    {
      disturbances := AgeDisturbances(disturbances);
      var evap := PUDDLE_EVAPORATION_RATE * (1.5 - s);
      intensity := intensity - evap;
      if intensity <= 0.0 {
        return false;
      }
      if intensity > PUDDLE_SPREAD_THRESHOLD {
        var factor := Trunc((intensity - PUDDLE_SPREAD_THRESHOLD) / 1.5);
        width := Min(PUDDLE_MAX_WIDTH_PER_POINT, 1 + factor);
      } else {
        width := 1;
      }
      width := Max(1, width);
      return true;
    }

    /** `Puddle.merge`: a new puddle object. */
    static method Merge(p1: Puddle, p2: Puddle) returns (m: Puddle)
      ensures fresh(m)
      ensures m.Value() == PuddleMath.Merge(p1.Value(), p2.Value(), PUDDLE_CAP)
    {
      var v := PuddleMath.Merge(p1.Value(), p2.Value(), PUDDLE_CAP);
      m := new Puddle(v.baseX, v.intensity, v.width);
    }
  }

  /** The splash-absorption step of `update_rain_and_splashes` for an on-screen splash at `x`:
      the first puddle in list order that covers `x` gets the splash and a disturbance;
      when none does, a new one-column puddle of `INITIAL_PUDDLE_INTENSITY` is appended. */
  function Absorb(ps: seq<PuddleV>, x: int): (r: seq<PuddleV>)
    ensures FirstInside(ps, x).Some? ==> |r| == |ps| && r[FirstInside(ps, x).value] == Disturbed(Splashed(ps[FirstInside(ps, x).value]), x)
    ensures FirstInside(ps, x).Some? ==> forall j :: 0 <= j < |ps| && j != FirstInside(ps, x).value ==> r[j] == ps[j]
    ensures FirstInside(ps, x).None? ==> r == ps + [PuddleV(x, INITIAL_PUDDLE_INTENSITY as real, 1, [Disturbance(x, PUDDLE_DISTURBANCE_DURATION)])]
  {
    match FirstInside(ps, x)
    case Some(i) => ps[i := Disturbed(Splashed(ps[i]), x)]
    case None =>
      var n := Disturbed(PuddleV(x, INITIAL_PUDDLE_INTENSITY as real, 1, []), x);
      assert n.disturbances == [Disturbance(x, PUDDLE_DISTURBANCE_DURATION)];
      ps + [n]
  }

  /** The splash goes into the first puddle holding its column. */
  lemma AbsorbInto(ps: seq<PuddleV>, x: int, i: nat)
    requires FirstInside(ps, x) == Some(i)
    ensures Absorb(ps, x) == ps[i := Disturbed(Splashed(ps[i]), x)]
  {
  }

  /** Absorption keeps the puddles wet and at least one column wide. */
  lemma AbsorbKeeps(ps: seq<PuddleV>, x: int)
    requires AllWet(ps) && AllWide(ps)
    ensures AllWet(Absorb(ps, x)) && AllWide(Absorb(ps, x))
  {
  }

  /** The splashes of one frame, absorbed in the order the drops landed. */
  function AbsorbAll(ps: seq<PuddleV>, xs: seq<int>): seq<PuddleV>
    decreases |xs|
  {
    if xs == [] then ps else Absorb(AbsorbAll(ps, xs[..|xs| - 1]), xs[|xs| - 1])
  }

  /** Absorbing one more splash column. */
  lemma AbsorbAllSnoc(ps: seq<PuddleV>, xs: seq<int>, i: nat)
    requires i < |xs|
    ensures AbsorbAll(ps, xs[..i + 1]) == Absorb(AbsorbAll(ps, xs[..i]), xs[i])
  {
    assert xs[..i + 1][..i] == xs[..i];
  }

  lemma {:induction false} AbsorbAllKeeps(ps: seq<PuddleV>, xs: seq<int>)
    requires AllWet(ps) && AllWide(ps)
    ensures AllWet(AbsorbAll(ps, xs)) && AllWide(AbsorbAll(ps, xs))
    decreases |xs|
  {
    if xs != [] {
      AbsorbAllKeeps(ps, xs[..|xs| - 1]);
      AbsorbKeeps(AbsorbAll(ps, xs[..|xs| - 1]), xs[|xs| - 1]);
    }
  }
}
