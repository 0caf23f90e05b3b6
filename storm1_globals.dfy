/** The module globals of app/storm1.py and the per-frame functions that rewrite them:
    the globals are one `Globals` record, each per-frame function takes it and gives back
    the record it leaves, and the drop, cloud and puddle objects its lists hold are
    updated in place. The terminal's columns and rows, which the program copies into
    `config.WIDTH` and `config.HEIGHT` at start-up, are the record's `width` and `height`. */
module Storm1Globals {
  import opened PyNum
  import opened PyStr
  import opened PySort
  import opened StormConfig
  import opened PuddleMath
  import opened Screen
  import opened Storm1
  import opened StormCommon

  function DropValues(ds: seq<Raindrop>): (r: seq<DropV>)
    reads ds
    ensures |r| == |ds| && forall i :: 0 <= i < |ds| ==> r[i] == ds[i].Value()
  {
    if ds == [] then [] else [ds[0].Value()] + DropValues(ds[1..])
  }

  function PuddleValues(ps: seq<Puddle>): (r: seq<PuddleV>)
    reads ps
    ensures |r| == |ps| && forall i :: 0 <= i < |ps| ==> r[i] == ps[i].Value()
  {
    if ps == [] then [] else [ps[0].Value()] + PuddleValues(ps[1..])
  }

  /** The current state of every cloud of a list. */
  function CloudValues(cs: seq<Cloud>): (r: seq<CloudV>)
    reads cs
    ensures |r| == |cs| && forall i :: 0 <= i < |cs| ==> r[i] == cs[i].Value()
  {
    if cs == [] then [] else [cs[0].Value()] + CloudValues(cs[1..])
  }

  /** The on-screen splash columns of the first `n` drops of one frame, in drop order: a
      drop that lands outside `[0, width)` makes no splash and feeds no puddle. */
  function Landed(vs: seq<DropV>, n: nat, width: int, sah: int, w: real, splashLine: int, ds: nat -> ResetDraw): (r: seq<int>)
    requires n <= |vs| && width >= 1
    ensures forall k :: 0 <= k < |r| ==> 0 <= r[k] < width
    ensures |r| <= n
  {
    if n == 0 then []
    else Landed(vs, n - 1, width, sah, w, splashLine, ds) + OnScreen(Fall(vs[n - 1], width, sah, w, splashLine, ds(n - 1)).0, width)
  }

  /** The draws of one `Cloud(...)`: its first shape, its column and its row. */
  datatype CloudInit = CloudInit(shape: ShapeDraw, kx: nat, ky: nat)
  /** The two loops of `update_storm_parameters` that bring the drop list to `n` entries. */
  method ResizeDrops(raindrops: seq<Raindrop>, n: nat, wb: int, sah: int, w: real, spawn: nat -> ResetDraw, removals: nat -> nat)
    returns (drops: seq<Raindrop>)
    requires wb >= 1 && DropsFit(raindrops, wb, sah)
    ensures |drops| == n && DropsFit(drops, wb, sah)
    ensures |raindrops| >= n ==> drops == Shrink(raindrops, n, removals, 0)
    ensures |raindrops| < n ==> drops[..|raindrops|] == raindrops
    ensures |raindrops| < n ==> forall i :: |raindrops| <= i < n ==>
      fresh(drops[i]) && drops[i].Value() == Respawn(wb, sah, w, true, spawn(i - |raindrops|))
  {
    if |raindrops| < n {
      drops := GrowDrops(raindrops, n, wb, sah, w, spawn);
    } else {
      drops := ShrinkDrops(raindrops, n, removals);
      ShrinkKeeps(raindrops, n, removals, 0);
    }
  }

  /** A cloud built for one layer: valid, with the layer's bounds. */
  predicate Made(c: Cloud, factor: real, div: int, wb: int, sah: int, isFg: bool)
    reads c
  {
    && c.Valid() && c.widthBound == wb && c.stormAreaHeight == sah
    && c.isForeground == isFg && c.minYFactor == factor && c.maxYDivisor == div
  }

  /** The cloud-building loop of `initialize_global_structures`: `n` new clouds of one
      layer, cloud `i` drawing `ds(i)`. */
  method MakeClouds(n: nat, minW: int, maxW: int, factor: real, div: int, wb: int, sah: int, isFg: bool, ds: nat -> CloudInit)
    returns (cs: seq<Cloud>)
    requires div >= 2 && 0.0 <= factor < 1.0 && sah >= 1 && wb >= 0
    ensures |cs| == n && Distinct(cs)
    ensures forall i :: 0 <= i < n ==> fresh(cs[i]) && cs[i].Valid()
    ensures forall i :: 0 <= i < n ==> cs[i].widthBound == wb && cs[i].stormAreaHeight == sah
    ensures forall i :: 0 <= i < n ==> cs[i].isForeground == isFg && cs[i].minYFactor == factor && cs[i].maxYDivisor == div
  {
    cs := [];
    var i := 0;
    while i < n
      invariant 0 <= i <= n && |cs| == i && Distinct(cs)
      invariant forall j :: 0 <= j < i ==> fresh(cs[j]) && Made(cs[j], factor, div, wb, sah, isFg)
    {
      var c := new Cloud(minW, maxW, factor, div, wb, sah, isFg, ds(i).shape, ds(i).kx, ds(i).ky);
      DistinctAppend(cs, c);
      cs := cs + [c];
      i := i + 1;
    }
  }

  /** The `while` loop that appends initial spawns (drawing `spawn(0)`, `spawn(1)`, ...)
      until the drop list has `n` entries. */
  method GrowDrops(raindrops: seq<Raindrop>, n: nat, wb: int, sah: int, w: real, spawn: nat -> ResetDraw)
    returns (drops: seq<Raindrop>)
    requires wb >= 1 && DropsFit(raindrops, wb, sah) && |raindrops| < n
    ensures |drops| == n && DropsFit(drops, wb, sah) && drops[..|raindrops|] == raindrops
    ensures forall i :: |raindrops| <= i < n ==>
      fresh(drops[i]) && drops[i].Value() == Respawn(wb, sah, w, true, spawn(i - |raindrops|))
  {
    drops := raindrops;
    var n0 := |drops|;
    while |drops| < n
      invariant n0 <= |drops| <= n && drops[..n0] == raindrops
      invariant Distinct(drops)
      invariant forall i :: 0 <= i < |drops| ==> drops[i].widthBound == wb && drops[i].stormAreaHeight == sah
      invariant forall i :: n0 <= i < |drops| ==> fresh(drops[i]) && drops[i].Value() == Respawn(wb, sah, w, true, spawn(i - n0))
    {
      var d := new Raindrop(wb, sah, w, spawn(|drops| - n0));
      drops := drops + [d];
    }
  }

  /** The `while` loop that removes the drop at a drawn index (the `j`-th removal drawing
      `removals(j)`) until the drop list has `n` entries. */
  method ShrinkDrops(raindrops: seq<Raindrop>, n: nat, removals: nat -> nat) returns (drops: seq<Raindrop>)
    requires Distinct(raindrops)
    ensures drops == Shrink(raindrops, n, removals, 0) && Distinct(drops)
  {
    drops := raindrops;
    var j := 0;
    while |drops| > n
      invariant Shrink(drops, n, removals, j) == Shrink(raindrops, n, removals, 0)
      invariant Distinct(drops)
      decreases |drops|
    {
      var before := drops;
      drops := RemoveAt(drops, Pick(0, |drops| - 1, removals(j)));
      DistinctPermutation(before, drops);
      j := j + 1;
    }
  }

  /** Every drop is one object, built for a screen `wb` columns wide over a storm area
      `sah` rows high. */
  predicate DropsFit(ds: seq<Raindrop>, wb: int, sah: int) {
    Distinct(ds) && forall i :: 0 <= i < |ds| ==> ds[i].widthBound == wb && ds[i].stormAreaHeight == sah
  }

  /** Every cloud of one layer is inside the storm area of that screen and shows a glyph. */
  predicate CloudsFit(cs: seq<Cloud>, wb: int, sah: int)
    reads cs
  {
    forall i :: 0 <= i < |cs| ==> cs[i].Valid() && cs[i].widthBound == wb && cs[i].stormAreaHeight == sah
  }

  /** Both layers fit the screen and no cloud object is shared. */
  predicate LayersFit(fg: seq<Cloud>, bg: seq<Cloud>, wb: int, sah: int)
    reads fg, bg
  {
    Distinct(fg + bg) && CloudsFit(fg, wb, sah) && CloudsFit(bg, wb, sah)
  }

  /** Every puddle is one object; all hold water and are at least one column wide. */
  predicate PuddlesFit(ps: seq<Puddle>)
    reads ps
  {
    Distinct(ps) && AllWet(PuddleValues(ps)) && AllWide(PuddleValues(ps))
  }

  lemma DistinctConcat<T>(a: seq<T>, b: seq<T>)
    requires Distinct(a + b)
    ensures Distinct(a) && Distinct(b)
    ensures forall i, j :: 0 <= i < |a| && 0 <= j < |b| ==> a[i] != b[j]
  {
    forall i, j | 0 <= i < j < |a| ensures a[i] != a[j] {
      assert (a + b)[i] == a[i] && (a + b)[j] == a[j];
    }
    forall i, j | 0 <= i < j < |b| ensures b[i] != b[j] {
      assert (a + b)[|a| + i] == b[i] && (a + b)[|a| + j] == b[j];
    }
    forall i, j | 0 <= i < |a| && 0 <= j < |b| ensures a[i] != b[j] {
      assert (a + b)[i] == a[i] && (a + b)[|a| + j] == b[j];
    }
  }

  /** One layer's loop of `update_all_clouds`: every cloud moves by `step`, cloud `i`
      drawing `ds(i)`, and stays valid. */
  method UpdateClouds(cs: seq<Cloud>, step: real, ds: nat -> CloudDraw)
    requires Distinct(cs) && forall i :: 0 <= i < |cs| ==> cs[i].Valid()
    modifies cs
    ensures forall i :: 0 <= i < |cs| ==> cs[i].Valid() && cs[i].Value() == old(cs[i].Next(step, ds(i)))
  {
    ghost var vs := CloudValues(cs);
    var i := 0;
    while i < |cs|
      invariant 0 <= i <= |cs|
      invariant forall j :: 0 <= j < i ==>
        cs[j].Valid() && cs[j].Value() == Drifted(vs[j], cs[j].widthBound, cs[j].stormAreaHeight, cs[j].minYFactor, cs[j].maxYDivisor, step, ds(j))
      invariant forall j :: i <= j < |cs| ==> cs[j].Valid() && cs[j].Value() == vs[j]
    {
      assert forall j :: 0 <= j < |cs| && j != i ==> cs[j] != cs[i];
      cs[i].Update(step, ds(i));
      i := i + 1;
    }
  }

  /** The inner loop of `update_rain_and_splashes` for an on-screen splash at `x`: the first
      puddle covering `x` takes the splash and a disturbance there; when none does, a new
      puddle of the initial intensity, disturbed at `x`, is appended. */
  method AbsorbSplash(ps: seq<Puddle>, x: int) returns (r: seq<Puddle>)
    requires Distinct(ps)
    modifies ps
    ensures Distinct(r) && PuddleValues(r) == Absorb(old(PuddleValues(ps)), x)
    ensures forall j :: 0 <= j < |r| ==> r[j] in ps || fresh(r[j])
  {
    ghost var vs := PuddleValues(ps);
    var k := FindCovering(ps, x);
    if k.Some? {
      AbsorbInto(vs, x, k.value);
      r := SplashInto(ps, k.value, x);
    } else {
      r := AppendPuddle(ps, x);
    }
  }

  /** The search of that loop: the first puddle, in list order, whose span holds `x`. */
  method FindCovering(ps: seq<Puddle>, x: int) returns (k: Option<nat>)
    ensures k == FirstInside(PuddleValues(ps), x)
  {
    ghost var vs := PuddleValues(ps);
    var i := 0;
    while i < |ps|
      invariant 0 <= i <= |ps|
      invariant forall j :: 0 <= j < i ==> !Inside(vs[j], x)
    {
      if MinX(ps[i].Value()) <= x <= MaxX(ps[i].Value()) {
        assert Inside(vs[i], x);
        FirstInsideAt(vs, x, i);
        return Some(i);
      }
      i := i + 1;
    }
    FirstInsideAt(vs, x, i);
    return None;
  }

  /** The splash goes into puddle `i`: more water and a disturbance at `x`. */
  method SplashInto(ps: seq<Puddle>, i: nat, x: int) returns (r: seq<Puddle>)
    requires i < |ps| && Distinct(ps)
    modifies ps[i]
    ensures r == ps
    ensures PuddleValues(r) == old(PuddleValues(ps))[i := Disturbed(Splashed(old(ps[i].Value())), x)]
  {
    ps[i].AddSplashContribution();
    ps[i].AddDisturbance(x);
    r := ps;
  }

  /** No puddle covers `x`: `Puddle(x)`, disturbed at `x`, joins the end of the list. */
  method AppendPuddle(ps: seq<Puddle>, x: int) returns (r: seq<Puddle>)
    requires Distinct(ps)
    ensures |r| == |ps| + 1 && r[..|ps|] == ps && fresh(r[|ps|]) && Distinct(r)
    ensures PuddleValues(r) == PuddleValues(ps) + [PuddleV(x, INITIAL_PUDDLE_INTENSITY as real, 1, [Disturbance(x, PUDDLE_DISTURBANCE_DURATION)])]
  {
    var np := new Puddle(x, INITIAL_PUDDLE_INTENSITY as real, 1);
    np.AddDisturbance(x);
    assert np.Value().disturbances == [Disturbance(x, PUDDLE_DISTURBANCE_DURATION)];
    assert np !in ps;
    DistinctAppend(ps, np);
    r := ps + [np];
    PuddleValuesSnoc(ps, np);
  }

  /** The states of a list with one more puddle. */
  lemma PuddleValuesSnoc(ps: seq<Puddle>, p: Puddle)
    ensures PuddleValues(ps + [p]) == PuddleValues(ps) + [p.Value()]
  {
    assert |PuddleValues(ps + [p])| == |PuddleValues(ps) + [p.Value()]|;
  }

  /** Both loops of `update_all_clouds`, one layer after the other. */
  method UpdateLayers(fgs: seq<Cloud>, bgs: seq<Cloud>, wb: int, sah: int, stepFg: real, stepBg: real,
                      fg: nat -> CloudDraw, bg: nat -> CloudDraw)
    requires LayersFit(fgs, bgs, wb, sah)
    modifies fgs, bgs
    ensures LayersFit(fgs, bgs, wb, sah)
    ensures forall i :: 0 <= i < |fgs| ==> fgs[i].Value() == old(fgs[i].Next(stepFg, fg(i)))
    ensures forall i :: 0 <= i < |bgs| ==> bgs[i].Value() == old(bgs[i].Next(stepBg, bg(i)))
  {
    DistinctConcat(fgs, bgs);
    UpdateClouds(fgs, stepFg, fg);
    UpdateClouds(bgs, stepBg, bg);
  }

  /** `UpdateLayers`, with the puddles it leaves alone. */
  method LayersKeeping(fgs: seq<Cloud>, bgs: seq<Cloud>, ps: seq<Puddle>, wb: int, sah: int, stepFg: real, stepBg: real,
                       fg: nat -> CloudDraw, bg: nat -> CloudDraw)
    requires LayersFit(fgs, bgs, wb, sah) && PuddlesFit(ps)
    modifies fgs, bgs
    ensures LayersFit(fgs, bgs, wb, sah) && PuddlesFit(ps)
    ensures forall i :: 0 <= i < |fgs| ==> fgs[i].Value() == old(fgs[i].Next(stepFg, fg(i)))
    ensures forall i :: 0 <= i < |bgs| ==> bgs[i].Value() == old(bgs[i].Next(stepBg, bg(i)))
  {
    UpdateLayers(fgs, bgs, wb, sah, stepFg, stepBg, fg, bg);
  }

  /** The drop half of the loop of `update_rain_and_splashes`: drop `i` falls drawing
      `ds(i)`, and the on-screen splash columns are collected in drop order. */
  method FallAll(drops: seq<Raindrop>, wb: int, sah: int, w: real, splashLine: int, ds: nat -> ResetDraw)
    returns (landed: seq<int>)
    requires wb >= 1 && DropsFit(drops, wb, sah)
    modifies drops
    ensures landed == Landed(old(DropValues(drops)), |drops|, wb, sah, w, splashLine, ds)
    ensures forall i :: 0 <= i < |drops| ==> drops[i].Value() == Fall(old(drops[i].Value()), wb, sah, w, splashLine, ds(i)).1
  {
    ghost var vs := DropValues(drops);
    landed := [];
    var i := 0;
    while i < |drops|
      invariant 0 <= i <= |drops|
      invariant landed == Landed(vs, i, wb, sah, w, splashLine, ds)
      invariant DropValues(drops) == Fallen(vs, i, wb, sah, w, splashLine, ds) + vs[i..]
    {
      ghost var before := DropValues(drops);
      var sp := FallOne(drops, i, wb, sah, w, splashLine, ds(i));
      ghost var fell := Fall(vs[i], wb, sah, w, splashLine, ds(i));
      assert sp == fell.0;
      FallenStep(vs, i, wb, sah, w, splashLine, ds, before);
      landed := landed + OnScreen(sp, wb);
      i := i + 1;
    }
    forall j | 0 <= j < |drops|
      ensures drops[j].Value() == Fall(vs[j], wb, sah, w, splashLine, ds(j)).1
    {
      FallenAt(vs, |drops|, wb, sah, w, splashLine, ds, j);
    }
  }

  /** The first `n` drops of a frame after they have fallen, in drop order. */
  function Fallen(vs: seq<DropV>, n: nat, wb: int, sah: int, w: real, splashLine: int, ds: nat -> ResetDraw): (r: seq<DropV>)
    requires n <= |vs| && wb >= 1
    ensures |r| == n
  {
    if n == 0 then [] else Fallen(vs, n - 1, wb, sah, w, splashLine, ds) + [Fall(vs[n - 1], wb, sah, w, splashLine, ds(n - 1)).1]
  }

  /** One more drop of those falls. */
  lemma FallenStep(vs: seq<DropV>, i: nat, wb: int, sah: int, w: real, splashLine: int, ds: nat -> ResetDraw, before: seq<DropV>)
    requires i < |vs| && wb >= 1 && before == Fallen(vs, i, wb, sah, w, splashLine, ds) + vs[i..]
    ensures before[i := Fall(vs[i], wb, sah, w, splashLine, ds(i)).1] == Fallen(vs, i + 1, wb, sah, w, splashLine, ds) + vs[i + 1..]
  {
    assert vs[i..] == [vs[i]] + vs[i + 1..];
  }

  /** Drop `j` of those has fallen from where it was. */
  lemma {:induction false} FallenAt(vs: seq<DropV>, n: nat, wb: int, sah: int, w: real, splashLine: int, ds: nat -> ResetDraw, j: nat)
    requires j < n <= |vs| && wb >= 1
    ensures Fallen(vs, n, wb, sah, w, splashLine, ds)[j] == Fall(vs[j], wb, sah, w, splashLine, ds(j)).1
    decreases n
  {
    if j < n - 1 {
      FallenAt(vs, n - 1, wb, sah, w, splashLine, ds, j);
    }
  }

  /** One drop of that loop: drop `i` falls drawing `d`, and no other drop moves. */
  method FallOne(drops: seq<Raindrop>, i: nat, wb: int, sah: int, w: real, splashLine: int, d: ResetDraw)
    returns (sp: Option<int>)
    requires i < |drops| && wb >= 1 && DropsFit(drops, wb, sah)
    modifies drops[i]
    ensures (sp, drops[i].Value()) == Fall(old(drops[i].Value()), wb, sah, w, splashLine, d)
    ensures DropValues(drops) == old(DropValues(drops))[i := drops[i].Value()]
  {
    assert forall j :: 0 <= j < |drops| && j != i ==> drops[j] != drops[i];
    sp := drops[i].Update(w, splashLine, d);
  }

  /** The puddle half of that loop: each splash column, in order, goes into the first
      puddle covering it or starts a new puddle. */
  method AbsorbEach(ps: seq<Puddle>, xs: seq<int>) returns (r: seq<Puddle>)
    requires PuddlesFit(ps)
    modifies ps
    ensures PuddlesFit(r) && PuddleValues(r) == AbsorbAll(old(PuddleValues(ps)), xs)
    ensures forall j :: 0 <= j < |r| ==> r[j] in ps || fresh(r[j])
  {
    ghost var pv := PuddleValues(ps);
    r := ps;
    var i := 0;
    while i < |xs|
      invariant 0 <= i <= |xs|
      invariant PuddlesFit(r) && PuddleValues(r) == AbsorbAll(pv, xs[..i])
      invariant forall j :: 0 <= j < |r| ==> r[j] in ps || fresh(r[j])
    {
      AbsorbAllSnoc(pv, xs, i);
      r := AbsorbFitting(r, xs[i]);
      i := i + 1;
    }
    assert xs[..|xs|] == xs;
  }

  /** `AbsorbSplash` on puddles that all hold water and are all at least one column wide,
      which they stay. */
  method AbsorbFitting(ps: seq<Puddle>, x: int) returns (r: seq<Puddle>)
    requires PuddlesFit(ps)
    modifies ps
    ensures PuddlesFit(r) && PuddleValues(r) == Absorb(old(PuddleValues(ps)), x)
    ensures forall j :: 0 <= j < |r| ==> r[j] in ps || fresh(r[j])
  {
    AbsorbKeeps(PuddleValues(ps), x);
    r := AbsorbSplash(ps, x);
  }

  /** `FallAll`, with the puddles and clouds it leaves alone. */
  method FallKeeping(drops: seq<Raindrop>, ps: seq<Puddle>, fg: seq<Cloud>, bg: seq<Cloud>, wb: int, sah: int, w: real,
                     splashLine: int, ds: nat -> ResetDraw)
    returns (landed: seq<int>)
    requires wb >= 1 && DropsFit(drops, wb, sah) && PuddlesFit(ps) && LayersFit(fg, bg, wb, sah)
    modifies drops
    ensures PuddleValues(ps) == old(PuddleValues(ps)) && PuddlesFit(ps) && LayersFit(fg, bg, wb, sah)
    ensures landed == Landed(old(DropValues(drops)), |drops|, wb, sah, w, splashLine, ds)
    ensures forall i :: 0 <= i < |drops| ==> drops[i].Value() == Fall(old(drops[i].Value()), wb, sah, w, splashLine, ds(i)).1
  {
    landed := FallAll(drops, wb, sah, w, splashLine, ds);
  }

  /** `AbsorbEach`, with the drops and clouds it leaves alone. */
  method AbsorbKeeping(drops: seq<Raindrop>, ps: seq<Puddle>, fg: seq<Cloud>, bg: seq<Cloud>, wb: int, sah: int, xs: seq<int>)
    returns (r: seq<Puddle>)
    requires PuddlesFit(ps) && LayersFit(fg, bg, wb, sah)
    modifies ps
    ensures PuddlesFit(r) && LayersFit(fg, bg, wb, sah) && DropValues(drops) == old(DropValues(drops))
    ensures PuddleValues(r) == AbsorbAll(old(PuddleValues(ps)), xs)
    ensures forall j :: 0 <= j < |r| ==> r[j] in ps || fresh(r[j])
  {
    r := AbsorbEach(ps, xs);
  }

  /** The background layer's base speed, `BASE_CLOUD_SPEED_FG * BASE_CLOUD_SPEED_BG_FACTOR`. */
  const BG_CLOUD_SPEED := BASE_CLOUD_SPEED_FG * BASE_CLOUD_SPEED_BG_FACTOR

  /** The weather globals `update_storm_parameters` rewrites every frame. */
  datatype Weather = Weather(intensity: real, wind: real, rainChar: char, target: int)

  /** The lightning globals: the flicker, rumble and flash countdowns, the bolts on show,
      the rumble caption and the ground strikes. */
  datatype Lightning = Lightning(flicker: nat, bolts: seq<Bolt>, rumble: nat, rumbleText: string,
                                 flash: nat, groundStrikes: seq<Effect>)

  /** The module globals of app/storm1.py. The terminal's size and the rows derived from
      it are fixed by `initialize_global_structures`; every per-frame function takes the
      globals and gives back the globals it leaves, while the drop, cloud and puddle
      objects the lists hold are updated in place. */
  datatype Globals = Globals(width: int, height: int, rumbleLine: int, splashLine: int, stormAreaHeight: int,
                             raindrops: seq<Raindrop>, cloudsFg: seq<Cloud>, cloudsBg: seq<Cloud>,
                             splashes: seq<Effect>, puddles: seq<Puddle>, weather: Weather, lightning: Lightning)
  {
    /** The screen geometry `initialize_global_structures` derives from the terminal size. */
    predicate Geometry() {
      width >= 1 && height >= 3 && rumbleLine == height - 1 && splashLine == height - 2
      && stormAreaHeight == Max(1, height - 2)
    }
  }

  /** What every per-frame function keeps: the geometry, and drops, clouds and puddles that
      fit the screen, each object held once. */
  predicate GlobalsOk(g: Globals)
    reads g.cloudsFg, g.cloudsBg, g.puddles
  {
    g.Geometry() && DropsFit(g.raindrops, g.width, g.stormAreaHeight)
    && LayersFit(g.cloudsFg, g.cloudsBg, g.width, g.stormAreaHeight) && PuddlesFit(g.puddles)
  }

  /** `initialize_global_structures` for a terminal of `width` columns and `height` rows
      (the program refuses fewer than three rows): empty lists, quiet timers, no wind,
      and the two cloud layers, cloud `i` of either layer drawing `fg(i)` or `bg(i)`. */
  method InitializeGlobalStructures(width: int, height: int, fg: nat -> CloudInit, bg: nat -> CloudInit)
    returns (g: Globals)
    requires width >= 1 && height >= 3
    ensures GlobalsOk(g)
    ensures g.width == width && g.height == height
    ensures g.raindrops == [] && g.splashes == [] && g.puddles == []
    ensures g.lightning == Lightning(0, [], 0, "", 0, [])
    ensures g.weather == Weather(0.0, 0.0, RainCharForWind(0.0), MIN_RAINDROPS)
    ensures |g.cloudsFg| == NUM_CLOUDS_FG && |g.cloudsBg| == NUM_CLOUDS_BG
    ensures forall i :: 0 <= i < |g.cloudsFg| ==> g.cloudsFg[i].isForeground && g.cloudsFg[i].minYFactor == 1.0 / 6.0 && g.cloudsFg[i].maxYDivisor == 3
    ensures forall i :: 0 <= i < |g.cloudsBg| ==> !g.cloudsBg[i].isForeground && g.cloudsBg[i].minYFactor == 0.0 && g.cloudsBg[i].maxYDivisor == 5
  {
    var sah := Max(1, height - 2);
    var minBg := Max(1, CLOUD_MIN_WIDTH - 2);
    var maxBg := Max(minBg, CLOUD_MAX_WIDTH - 2);
    var fgs := MakeClouds(NUM_CLOUDS_FG, CLOUD_MIN_WIDTH, CLOUD_MAX_WIDTH, 1.0 / 6.0, 3, width, sah, true, fg);
    var bgs := MakeClouds(NUM_CLOUDS_BG, minBg, maxBg, 0.0, 5, width, sah, false, bg);
    g := Globals(width, height, height - 1, height - 2, sah, [], fgs, bgs, [], [],
                 Weather(0.0, 0.0, RainCharForWind(0.0), MIN_RAINDROPS), Lightning(0, [], 0, "", 0, []));
  }

  /** `update_storm_parameters` for the storm intensity `s` (the program's
      `(sin(angle) + 1) / 2`) and the gust `gust`: the wind is the base drift plus the
      gust, the rain glyph follows the wind, and the drop list gets exactly the target
      length, either by appending initial spawns or by removing drops at drawn indices.
      Nothing else changes. */
  method UpdateStormParameters(g: Globals, s: real, gust: real, spawn: nat -> ResetDraw, removals: nat -> nat)
    returns (h: Globals)
    requires GlobalsOk(g)
    requires 0.0 <= s <= 1.0 && Abs(gust) <= STORM_GUST_FACTOR * (MAX_WIND_DRIFT_BASE * s)
    ensures GlobalsOk(h)
    ensures h == g.(weather := h.weather, raindrops := h.raindrops)
    ensures h.weather == Weather(s, WindFor(s, gust), RainCharForWind(WindFor(s, gust)), TargetDrops(s))
    ensures |h.raindrops| == h.weather.target
    ensures |g.raindrops| >= h.weather.target ==> h.raindrops == Shrink(g.raindrops, h.weather.target, removals, 0)
    ensures |g.raindrops| < h.weather.target ==> h.raindrops[..|g.raindrops|] == g.raindrops
    ensures |g.raindrops| < h.weather.target ==> forall i :: |g.raindrops| <= i < h.weather.target ==>
      fresh(h.raindrops[i]) && h.raindrops[i].Value() == Respawn(g.width, g.stormAreaHeight, h.weather.wind, true, spawn(i - |g.raindrops|))
  {
    var w := WindFor(s, gust);
    var weather := Weather(s, w, RainCharForWind(w), TargetDrops(s));
    var drops := ResizeDrops(g.raindrops, weather.target, g.width, g.stormAreaHeight, w, spawn, removals);
    h := g.(weather := weather, raindrops := drops);
  }

  /** `update_rain_and_splashes`: every drop falls one row in the current wind, drop `i`
      drawing `ds(i)` for a reset; each splash that lands on the screen, in drop order,
      starts a splash effect on the splash line and goes into the first puddle covering
      its column or starts a puddle there; then the splash effects age by one frame.
      The program absorbs each splash as soon as its drop reports it; drops and puddles
      share no state, so letting every drop fall first and then absorbing the splashes
      in the same order ends in the same state. */
  method UpdateRainAndSplashes(g: Globals, ds: nat -> ResetDraw) returns (h: Globals)
    requires GlobalsOk(g)
    modifies g.raindrops, g.puddles
    ensures GlobalsOk(h)
    ensures h == g.(puddles := h.puddles, splashes := h.splashes)
    ensures forall i :: 0 <= i < |g.raindrops| ==>
      g.raindrops[i].Value() == Fall(old(g.raindrops[i].Value()), g.width, g.stormAreaHeight, g.weather.wind, g.splashLine, ds(i)).1
    ensures PuddleValues(h.puddles) == AbsorbAll(old(PuddleValues(g.puddles)), old(Landed(DropValues(g.raindrops), |g.raindrops|, g.width, g.stormAreaHeight, g.weather.wind, g.splashLine, ds)))
    ensures h.splashes == AgeEffects(g.splashes + SplashesAt(old(Landed(DropValues(g.raindrops), |g.raindrops|, g.width, g.stormAreaHeight, g.weather.wind, g.splashLine, ds)), g.splashLine))
    ensures forall j :: 0 <= j < |h.puddles| ==> h.puddles[j] in g.puddles || fresh(h.puddles[j])
  {
    ghost var expected := Landed(DropValues(g.raindrops), |g.raindrops|, g.width, g.stormAreaHeight, g.weather.wind, g.splashLine, ds);
    ghost var before := PuddleValues(g.puddles);
    var landed := FallKeeping(g.raindrops, g.puddles, g.cloudsFg, g.cloudsBg, g.width, g.stormAreaHeight, g.weather.wind, g.splashLine, ds);
    assert landed == expected;
    var r := AbsorbKeeping(g.raindrops, g.puddles, g.cloudsFg, g.cloudsBg, g.width, g.stormAreaHeight, landed);
    assert PuddleValues(r) == AbsorbAll(before, expected);
    h := g.(puddles := r, splashes := AgeEffects(g.splashes + SplashesAt(landed, g.splashLine)));
  }

  /** `update_all_clouds`: every foreground cloud moves at the foreground speed and wind
      factor, every background cloud at the slower background speed and its own factor;
      cloud `i` of either layer draws `fg(i)` or `bg(i)`. No global is rebound. */
  method UpdateAllClouds(g: Globals, fg: nat -> CloudDraw, bg: nat -> CloudDraw)
    requires GlobalsOk(g)
    modifies g.cloudsFg, g.cloudsBg
    ensures GlobalsOk(g)
    ensures forall i :: 0 <= i < |g.cloudsFg| ==>
      g.cloudsFg[i].Value() == old(g.cloudsFg[i].Next(CloudStep(BASE_CLOUD_SPEED_FG, g.weather.wind, CLOUD_WIND_FACTOR_FG), fg(i)))
    ensures forall i :: 0 <= i < |g.cloudsBg| ==>
      g.cloudsBg[i].Value() == old(g.cloudsBg[i].Next(CloudStep(BG_CLOUD_SPEED, g.weather.wind, CLOUD_WIND_FACTOR_BG), bg(i)))
  {
    LayersKeeping(g.cloudsFg, g.cloudsBg, g.puddles, g.width, g.stormAreaHeight,
      CloudStep(BASE_CLOUD_SPEED_FG, g.weather.wind, CLOUD_WIND_FACTOR_FG), CloudStep(BG_CLOUD_SPEED, g.weather.wind, CLOUD_WIND_FACTOR_BG), fg, bg);
  }
}
