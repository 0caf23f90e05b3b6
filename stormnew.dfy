/** app/stormnew.py, the scene objects: `Raindrop`, `Cloud` and `Puddle`. Each class keeps
    the fields the source gives it, and each of its methods is proved against a function of
    the object's value. Random draws are parameters, as in `Storm1`. The drop reset is the
    one app/storm1.py has, so `Storm1.Respawn` describes it here too. */
module StormNew {
  import opened PyNum
  import opened PyStr
  import opened StormConfig
  import opened PuddleMath
  import Storm1

  type DropV = Storm1.DropV
  type ResetDraw = Storm1.ResetDraw
  type CloudV = Storm1.CloudV

  // ---------------------------------------------------------------- raindrops

  /** `Raindrop.update`: one row down and the wind's drift sideways. On reaching the splash
      line the drop reports its rounded column and resets; leaving the band (-5, wb + 5)
      resets it without a splash; otherwise it keeps falling with the glyph it has (this
      version sets the glyph only in `reset`). */
  function Fall(v: DropV, wb: int, sah: int, w: real, splashLine: int, d: ResetDraw): (r: (Option<int>, DropV))
    requires wb >= 1
    ensures r.0.Some? <==> v.y + 1.0 >= splashLine as real
    ensures r.0.Some? ==> -0.5 <= r.0.value as real - (v.x + w) <= 0.5
    ensures r.0.Some? || !(-5.0 < v.x + w < (wb + 5) as real) ==> r.1 == Storm1.Respawn(wb, sah, w, false, d)
    ensures r.0.None? && -5.0 < v.x + w < (wb + 5) as real ==> r.1 == Storm1.DropV(v.x + w, v.y + 1.0, v.glyph)
  {
    var y := v.y + 1.0;
    var x := v.x + w;
    if y >= splashLine as real then (Some(Round(x)), Storm1.Respawn(wb, sah, w, false, d))
    else if !(-5.0 < x < (wb + 5) as real) then (None, Storm1.Respawn(wb, sah, w, false, d))
    else (None, Storm1.DropV(x, y, v.glyph))
  }

  /** A drop stays on the rows above the splash line: over a storm area as high as the
      splash line's row, a drop on one of those rows is on one of them after falling, and
      its glyph is either the one it had or the one for the current wind. */
  lemma FallStaysAbove(v: DropV, wb: int, sah: int, w: real, d: ResetDraw)
    requires wb >= 1 && sah >= 1
    requires 0.0 <= v.y < sah as real
    ensures var r := Fall(v, wb, sah, w, sah, d).1;
      0.0 <= r.y < sah as real && (r.glyph == v.glyph || r.glyph == RainCharForWind(w))
  {
  }

  class Raindrop {
    const widthBound: int
    const stormAreaHeight: int
    var x: real
    var y: real
    var glyph: char

    function Value(): DropV
      reads this
    {
      Storm1.DropV(x, y, glyph)
    }

    /** `Raindrop(width_bound, storm_area_height, wind)`: an initial spawn anywhere in the storm area. */
    constructor (widthBound: int, stormAreaHeight: int, w: real, d: ResetDraw)
      requires widthBound >= 1
      ensures this.widthBound == widthBound && this.stormAreaHeight == stormAreaHeight
      ensures Value() == Storm1.Respawn(widthBound, stormAreaHeight, w, true, d)
    {
      this.widthBound := widthBound;
      this.stormAreaHeight := stormAreaHeight;
      x, y := 0.0, 0.0;
      glyph := RainCharForWind(w);
      new;
      Reset(w, true, d);
    }

    method Reset(w: real, initial: bool, d: ResetDraw)
      requires widthBound >= 1
      modifies this
      ensures Value() == Storm1.Respawn(widthBound, stormAreaHeight, w, initial, d)
    {
      glyph := RainCharForWind(w);
      var maxY := Max(0, stormAreaHeight - 1);
      if !initial && Abs(w) > RAIN_SIDE_ORIGIN_THRESHOLD && d.side {
        y := Pick(0, maxY, d.ky) as real;
        if w > 0.0 {
          x := Pick(-Trunc(Abs(w)) - 3, -1, d.kx) as real;
        } else {
          x := Pick(widthBound, widthBound + Trunc(Abs(w)) + 2, d.kx) as real;
        }
      } else {
        y := if initial then Pick(0, maxY, d.ky) as real else 0.0;
        x := Pick(0, widthBound - 1, d.kx) as real;
      }
    }

    method Update(w: real, splashLine: int, d: ResetDraw) returns (splash: Option<int>)
      requires widthBound >= 1
      modifies this
      ensures (splash, Value()) == Fall(old(Value()), widthBound, stormAreaHeight, w, splashLine, d)
    {
      y := y + 1.0;
      x := x + w;
      var hitGround := y >= splashLine as real;
      var offScreen := !(-5.0 < x < (widthBound + 5) as real);
      if hitGround {
        splash := Some(Round(x));
        Reset(w, false, d);
        return;
      }
      if offScreen {
        Reset(w, false, d);
      }
      splash := None;
    }
  }

  // ---------------------------------------------------------------- clouds

  /** What a cloud's layer fixes in `Cloud.__init__`: the row range and the widths. */
  datatype Layer = Layer(isForeground: bool, minYFactor: real, maxYDivisor: int, minW: int, maxW: int)

  /** Widths of at least two, so every shape shows a glyph, and rows inside the storm area. */
  predicate LayerOk(l: Layer) {
    2 <= l.minW <= l.maxW && 0.0 <= l.minYFactor < 1.0 && l.maxYDivisor >= 2
  }

  /** The foreground layer: rows from a sixth to a third of the storm area, the configured
      widths; the background layer: rows in the top fifth, widths two narrower (at least 1). */
  function LayerOf(isFg: bool): (l: Layer)
    ensures LayerOk(l) && l.isForeground == isFg
    ensures isFg ==> l.minW == CLOUD_MIN_WIDTH && l.maxW == CLOUD_MAX_WIDTH
    ensures !isFg ==> l.minW == CLOUD_MIN_WIDTH - 2 && l.maxW == CLOUD_MAX_WIDTH - 2
  {
    if isFg then Layer(true, 1.0 / 6.0, 3, CLOUD_MIN_WIDTH, CLOUD_MAX_WIDTH)
    else
      var minW := Max(1, CLOUD_MIN_WIDTH - 2);
      Layer(false, 0.0, 5, minW, Max(minW, CLOUD_MAX_WIDTH - 2))
  }

  /** `_get_random_y`: a row from `int(sah * min_y_factor)` to `sah // max_y_divisor`,
      raised to the lower end when that range is empty. */
  function RandomY(sah: int, l: Layer, k: nat): (y: int)
    requires LayerOk(l)
    ensures Storm1.CloudRows(sah, l.minYFactor, l.maxYDivisor).0 <= y <= Storm1.CloudRows(sah, l.minYFactor, l.maxYDivisor).1
    ensures sah >= 1 ==> 0 <= y < sah
  {
    var rows := Storm1.CloudRows(sah, l.minYFactor, l.maxYDivisor);
    Pick(rows.0, rows.1, k)
  }

  /** The draws of one `_regenerate_shape`: the shape, the width and the broken shape's runs. */
  datatype ShapeDraw = ShapeDraw(shape: nat, kw: nat, groups: nat -> nat)

  /** `_regenerate_shape`: a picture of a drawn width, and as the cloud's `width` the length
      of the picture without its surrounding spaces. When the picture strips to nothing the
      source replaces it by `CLOUD_CHAR * width` with that width, 0, so by the empty string. */
  function Regenerated(l: Layer, d: ShapeDraw): (r: (int, string))
    requires 1 <= l.minW <= l.maxW
  {
    var w := Pick(l.minW, l.maxW, d.kw);
    var repr := ShapeOf(IndexToShape(d.shape), w, d.groups);
    var stripped := Strip(repr);
    if stripped == [] then (|stripped|, Repeat(CLOUD_CHAR, |stripped|)) else (|stripped|, repr)
  }

  /** With widths of two or more every shape shows a glyph, so the fallback never fires; with
      the smallest width 1, a broken shape of width 1 leaves a cloud of width 0 and no picture. */
  lemma RegeneratedWidth(l: Layer, d: ShapeDraw)
    requires 1 <= l.minW <= l.maxW
    ensures Regenerated(l, d).0 == |Strip(Regenerated(l, d).1)|
    ensures l.minW >= 2 ==> Regenerated(l, d).0 >= 1
    ensures l.minW >= 2 ==> Regenerated(l, d).1 == ShapeOf(IndexToShape(d.shape), Pick(l.minW, l.maxW, d.kw), d.groups)
    ensures l.minW == 1 && IndexToShape(d.shape) == Broken && Pick(l.minW, l.maxW, d.kw) == 1 ==> Regenerated(l, d) == (0, "")
  {
    ShapeHasGlyph(IndexToShape(d.shape), Pick(l.minW, l.maxW, d.kw), d.groups);
  }

  /** A cloud of a layer over a storm area `sah` rows high: on one of its rows, with a
      picture that shows a glyph and a width that is the picture's stripped length. */
  predicate CloudOk(c: CloudV, sah: int) {
    0 <= c.y < sah && c.width >= 1 && c.width == |Strip(c.repr)|
  }

  /** The draws of one `Cloud(...)`: its first shape, its column and its row. */
  datatype CloudInit = CloudInit(shape: ShapeDraw, kx: nat, ky: nat)

  /** `Cloud(storm_area_height, width_bound, is_foreground)` as a value: a first shape, a
      column from `-width` to the last column and a row of the layer. */
  function NewCloud(sah: int, wb: int, l: Layer, d: CloudInit): (c: CloudV)
    requires sah >= 1 && wb >= 1 && LayerOk(l)
  {
    Placed(Regenerated(l, d.shape), wb, d.kx, RandomY(sah, l, d.ky))
  }

  /** A cloud of shape `s` on row `y`, at a column drawn from `-width` to the last column. */
  function Placed(s: (int, string), wb: int, kx: nat, y: int): (c: CloudV)
    requires -s.0 <= wb - 1
  {
    Storm1.CloudV(Pick(-s.0, wb - 1, kx) as real, y, s.0, s.1)
  }

  /** The cloud a constructor builds from its drawn shape, column and row. */
  lemma NewCloudIs(sah: int, wb: int, l: Layer, d: CloudInit, s: (int, string), y: int)
    requires sah >= 1 && wb >= 1 && LayerOk(l)
    requires s == Regenerated(l, d.shape) && y == RandomY(sah, l, d.ky)
    ensures -s.0 <= wb - 1
    ensures NewCloud(sah, wb, l, d) == Placed(s, wb, d.kx, y)
  {
  }

  /** A new cloud sits on a row of the storm area, shows a glyph, has the stripped length of
      its picture as its width, and starts between minus its width and the last column. */
  lemma NewCloudOk(sah: int, wb: int, l: Layer, d: CloudInit)
    requires sah >= 1 && wb >= 1 && LayerOk(l)
    ensures var c := NewCloud(sah, wb, l, d);
      && CloudOk(c, sah) && -(c.width as real) <= c.x <= (wb - 1) as real
  {
    RegeneratedWidth(l, d.shape);
  }

  /** The draws of one `Cloud.update`: the new row and the new shape, used after a wrap. */
  datatype CloudDraw = CloudDraw(ky: nat, regen: ShapeDraw)

  /** Whether a cloud moved by `step` leaves the screen: its column reaches the right edge,
      or its right end passes the left edge. */
  predicate Wraps(c: CloudV, wb: int, step: real) {
    c.x + step >= wb as real || c.x + step + |c.repr| as real < 0.0
  }

  /** `Cloud.update` after a move by `step`: a cloud whose column reaches the right edge
      restarts at minus its old picture's length, one whose right end passes the left edge
      restarts at the right edge; either way it gets a new row and a new shape. A cloud that
      stays on the screen only moves. */
  function Drifted(c: CloudV, wb: int, sah: int, l: Layer, step: real, d: CloudDraw): (r: CloudV)
    requires LayerOk(l)
    ensures c.x + step >= wb as real ==> r.x == -(|c.repr| as real)
    ensures c.x + step < wb as real && c.x + step + |c.repr| as real < 0.0 ==> r.x == wb as real
    ensures Wraps(c, wb, step) ==> (r.width, r.repr) == Regenerated(l, d.regen) && r.y == RandomY(sah, l, d.ky)
    ensures !Wraps(c, wb, step) ==> r == c.(x := c.x + step)
  {
    var x := c.x + step;
    if x >= wb as real then
      var s := Regenerated(l, d.regen);
      Storm1.CloudV(-(|c.repr| as real), RandomY(sah, l, d.ky), s.0, s.1)
    else if x + |c.repr| as real < 0.0 then
      var s := Regenerated(l, d.regen);
      Storm1.CloudV(wb as real, RandomY(sah, l, d.ky), s.0, s.1)
    else c.(x := x)
  }

  /** Moving keeps a cloud on a row of its layer with a picture that shows a glyph, and
      a cloud that wraps is at the edge opposite the one it left by. */
  lemma DriftedOk(c: CloudV, wb: int, sah: int, l: Layer, step: real, d: CloudDraw)
    requires LayerOk(l) && sah >= 1 && CloudOk(c, sah)
    ensures CloudOk(Drifted(c, wb, sah, l, step, d), sah)
    ensures Wraps(c, wb, step) ==> Drifted(c, wb, sah, l, step, d).x + |c.repr| as real <= 0.0 || Drifted(c, wb, sah, l, step, d).x == wb as real
  {
    RegeneratedWidth(l, d.regen);
  }

  class Cloud {
    const stormAreaHeight: int
    const widthBound: int
    const isForeground: bool
    const minYFactor: real
    const maxYDivisor: int
    const minW: int
    const maxW: int
    var width: int
    var repr: string
    var x: real
    var y: int

    function Value(): CloudV
      reads this
    {
      Storm1.CloudV(x, y, width, repr)
    }

    function LayerValue(): Layer {
      Layer(isForeground, minYFactor, maxYDivisor, minW, maxW)
    }

    /** `Cloud(storm_area_height, width_bound, is_foreground)`: the storm area is at least
        one row high, and the layer's row range and widths are fixed. */
    constructor (sah: int, wb: int, isFg: bool, d: CloudInit)
      requires wb >= 1
      ensures stormAreaHeight == Max(1, sah) && widthBound == wb
      ensures LayerValue() == LayerOf(isFg)
      ensures Value() == NewCloud(Max(1, sah), wb, LayerOf(isFg), d)
    {
      stormAreaHeight := Max(1, sah);
      widthBound := wb;
      isForeground := isFg;
      var l := LayerOf(isFg);
      minYFactor, maxYDivisor := l.minYFactor, l.maxYDivisor;
      minW, maxW := l.minW, l.maxW;
      new;
      width, repr := 0, "";
      RegenerateShape(d.shape);
      assert LayerValue() == l;
      var s := (width, repr);
      var row := RandomY(stormAreaHeight, l, d.ky);
      NewCloudIs(stormAreaHeight, wb, l, d, s, row);
      var c := Placed(s, wb, d.kx, row);
      x, y := c.x, c.y;
      assert Value() == c;
    }

    method RegenerateShape(d: ShapeDraw)
      requires 1 <= minW <= maxW
      modifies this
      ensures (width, repr) == Regenerated(LayerValue(), d)
      ensures x == old(x) && y == old(y)
    {
      width := Pick(minW, maxW, d.kw);
      repr := ShapeOf(IndexToShape(d.shape), width, d.groups);
      width := |Strip(repr)|;
      if Strip(repr) == [] {
        repr := Repeat(CLOUD_CHAR, width);
      }
    }

    /** `Cloud.update(base_speed, wind_drift, wind_factor)`: a move by
        `base_speed + wind_drift * wind_factor`, as `Drifted` describes. */
    method Update(baseSpeed: real, w: real, windFactor: real, d: CloudDraw)
      requires LayerOk(LayerValue())
      modifies this
      ensures Value() == Drifted(old(Value()), widthBound, stormAreaHeight, LayerValue(), baseSpeed + w * windFactor, d)
    {
      x := x + (baseSpeed + w * windFactor);
      if x >= widthBound as real {
        x := -(|repr| as real);
        y := RandomY(stormAreaHeight, LayerValue(), d.ky);
        RegenerateShape(d.regen);
      } else if x + |repr| as real < 0.0 {
        x := widthBound as real;
        y := RandomY(stormAreaHeight, LayerValue(), d.ky);
        RegenerateShape(d.regen);
      }
    }
  }

  // ---------------------------------------------------------------- puddles

  /** The cap `add_splash` and `merge` put on intensity here: `PUDDLE_MAX_INTENSITY` itself. */
  const CAP := PUDDLE_MAX_INTENSITY as real

  /** `add_splash(x)`: half a unit more water, never above `CAP`, and a new disturbance at
      `x` lasting `PUDDLE_DISTURBANCE_DURATION` frames after the ones already there, even one
      at the same column. Span and base column stay. */
  function Splashed(p: PuddleV, x: int): (r: PuddleV)
    ensures r.baseX == p.baseX && r.width == p.width
    ensures r.intensity <= CAP && r.intensity <= p.intensity + PUDDLE_FORMATION_PER_SPLASH
    ensures r.intensity == CAP || r.intensity == p.intensity + PUDDLE_FORMATION_PER_SPLASH
    ensures p.intensity <= CAP ==> p.intensity <= r.intensity
    ensures multiset(r.disturbances) == multiset(p.disturbances) + multiset{Disturbance(x, PUDDLE_DISTURBANCE_DURATION)}
    ensures |r.disturbances| == |p.disturbances| + 1 && r.disturbances[..|p.disturbances|] == p.disturbances
  {
    PuddleV(p.baseX, MinR(CAP, p.intensity + PUDDLE_FORMATION_PER_SPLASH), p.width,
            p.disturbances + [Disturbance(x, PUDDLE_DISTURBANCE_DURATION)])
  }

  /** `Puddle(x)` followed by `add_splash(x)`: one column wide at `x`, intensity
      `INITIAL_PUDDLE_INTENSITY + 0.5`, one disturbance at `x`. */
  function NewPuddle(x: int): (r: PuddleV)
    ensures r.width == 1 && Inside(r, x) && MinX(r) == x == MaxX(r)
    ensures r.intensity == INITIAL_PUDDLE_INTENSITY as real + PUDDLE_FORMATION_PER_SPLASH
    ensures r.disturbances == [Disturbance(x, PUDDLE_DISTURBANCE_DURATION)]
  {
    Splashed(PuddleV(x, INITIAL_PUDDLE_INTENSITY as real, 1, []), x)
  }

  /** `Puddle.update(storm_intensity)`: the puddle evaporates, and it reports whether
      water is left. A puddle that survives has its disturbances aged and its width
      recomputed; one that does not keeps everything but the evaporated intensity. */
  function Updated(p: PuddleV, s: real): (r: (bool, PuddleV))
    ensures r.0 <==> Survives(p, s)
    ensures r.1.intensity == Evaporate(p.intensity, s)
    ensures r.0 ==> r.1 == Evolve(p, s)
    ensures !r.0 ==> r.1 == p.(intensity := Evaporate(p.intensity, s))
  {
    var i := p.intensity - PUDDLE_EVAPORATION_RATE * (1.5 - s);
    if i <= 0.0 then (false, p.(intensity := i))
    else (true, PuddleV(p.baseX, i, WidthFor(i), AgeDisturbances(p.disturbances)))
  }

  /** A surviving puddle keeps exactly the disturbances that had more than one frame left,
      each one frame older, and its width is the threshold rule's. */
  lemma UpdatedDisturbances(p: PuddleV, s: real, x: int, life: int)
    requires Updated(p, s).0
    ensures Disturbance(x, life) in Updated(p, s).1.disturbances <==> life >= 1 && Disturbance(x, life + 1) in p.disturbances
    ensures 1 <= Updated(p, s).1.width <= PUDDLE_MAX_WIDTH_PER_POINT
  {
    AgeMember(p.disturbances, x, life);
  }

  class Puddle {
    var baseX: int
    var intensity: real
    var width: int
    var disturbances: seq<Disturbance>

    function Value(): PuddleV
      reads this
    {
      PuddleV(baseX, intensity, width, disturbances)
    }

    /** `Puddle(base_x)`: the initial intensity, one column, no disturbances. */
    constructor (baseX: int)
      ensures Value() == PuddleV(baseX, INITIAL_PUDDLE_INTENSITY as real, 1, [])
    {
      this.baseX := baseX;
      intensity := INITIAL_PUDDLE_INTENSITY as real;
      width := 1;
      disturbances := [];
    }

    /** `get_bounds`. */
    function Bounds(): (b: (int, int))
      reads this
      ensures b == (MinX(Value()), MaxX(Value()))
    {
      var minX := baseX - width / 2;
      (minX, minX + width - 1)
    }

    method AddSplash(x: int)
      modifies this
      ensures Value() == Splashed(old(Value()), x)
    {
      intensity := MinR(CAP, intensity + PUDDLE_FORMATION_PER_SPLASH);
      disturbances := disturbances + [Disturbance(x, PUDDLE_DISTURBANCE_DURATION)];
    }

    method Update(s: real) returns (alive: bool)
      modifies this
      ensures (alive, Value()) == Updated(old(Value()), s)
    {
      intensity := intensity - PUDDLE_EVAPORATION_RATE * (1.5 - s);
      if intensity <= 0.0 {
        return false;
      }
      disturbances := AgeDisturbances(disturbances);
      if intensity > PUDDLE_SPREAD_THRESHOLD {
        var factor := (intensity - PUDDLE_SPREAD_THRESHOLD) / 1.5;
        width := Min(PUDDLE_MAX_WIDTH_PER_POINT, 1 + Trunc(factor));
      } else {
        width := 1;
      }
      alive := true;
    }

    /** `Puddle.merge(p1, p2)`: a new puddle over the hull of both spans holding their
        combined volume spread over the new width, capped at `CAP`. The source divides by
        the new width without a guard, so the spans must not make it zero; two puddles one
        column wide or wider never do. */
    static method Merge(p1: Puddle, p2: Puddle) returns (r: Puddle)
      requires p1.width >= 1 && p2.width >= 1
      ensures fresh(r) && r.Value() == PuddleMath.Merge(p1.Value(), p2.Value(), CAP)
    {
      ghost var m := PuddleMath.Merge(p1.Value(), p2.Value(), CAP);
      var b1 := p1.Bounds();
      var b2 := p2.Bounds();
      var newMin := Min(b1.0, b2.0);
      var newMax := Max(b1.1, b2.1);
      var newWidth := newMax - newMin + 1;
      var volume := Volume(p1.Value()) + Volume(p2.Value());
      var i := MinR(CAP, volume / newWidth as real);
      assert m == PuddleV(newMin + newWidth / 2, i, newWidth, []);
      r := new Puddle(newMin + newWidth / 2);
      r.width := newWidth;
      r.intensity := i;
    }
  }
}
