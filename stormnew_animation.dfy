/** The `StormAnimation` class of app/stormnew.py. Its `StormState` record is held as a
    value in the field `state`: the record is owned by the animation alone, so changing one
    of its fields in place and storing the record with that field changed are the same.
    Each update method changes the state step by step, as the source does, and is proved to
    leave it as the matching function of `StormNewState` says; the properties of the frame
    are proved about those functions. The loops of the source are the helper methods after
    the class, each proved against the function it computes. */
module StormNewAnimation {
  import opened PyNum
  import opened PySort
  import opened StormConfig
  import opened PuddleMath
  import opened StormCommon
  import opened StormNew
  import opened StormNewState
  import Storm1

  class StormAnimation {
    var state: State

    predicate Valid()
      reads this
    {
      StateOk(state)
    }

    /** `StormAnimation(width, height)` for a terminal of four rows or more: the dataclass
        defaults, then `_initialize_state`. */
    constructor (width: int, height: int, fg: nat -> CloudInit, bg: nat -> CloudInit)
      requires width >= 1 && height >= 4
      ensures Valid()
      ensures state == Initialized(Defaults(width, height), fg, bg)
    {
      state := Defaults(width, height);
      new;
      InitialOk(width, height, fg, bg);
      InitializeState(fg, bg);
    }

    /** `_initialize_state`: the lines and the target, then the two cloud loops, each
        appending one new cloud per pass. */
    method InitializeState(fg: nat -> CloudInit, bg: nat -> CloudInit)
      requires state.width >= 1 && state.height >= 4
      modifies this
      ensures state == Initialized(old(state), fg, bg)
    {
      var h := state.height;
      state := state.(splashLine := h - 2, rumbleLine := h - 1, sah := h - 2, target := MIN_RAINDROPS);
      var front := CloudLoop(CloudCount(true), h, state.width, LayerOf(true), fg);
      state := state.(cloudsFg := state.cloudsFg + front);
      var back := CloudLoop(CloudCount(false), h, state.width, LayerOf(false), bg);
      state := state.(cloudsBg := state.cloudsBg + back);
    }

    /** `_update_storm_parameters` for the storm intensity `s` and the gust `gust`: the wind
        and the target, then drops appended while there are too few and popped at drawn
        indices while there are too many. */
    method UpdateStormParameters(s: real, gust: real, spawn: nat -> ResetDraw, removals: nat -> nat)
      requires Valid() && 0.0 <= s <= 1.0 && Abs(gust) <= STORM_GUST_FACTOR * (MAX_WIND_DRIFT_BASE * s)
      modifies this
      ensures state == ParamsStep(old(state), s, gust, spawn, removals)
    {
      state := state.(intensity := s);
      var w := WindFor(s, gust);
      state := state.(wind := w);
      var n := TargetDrops(s);
      state := state.(target := n);
      var drops := ResizeDrops(state.raindrops, n, state.width, state.sah, w, spawn, removals);
      state := state.(raindrops := drops);
    }

    /** `_update_clouds`: each foreground cloud, then each background cloud, moves. */
    method UpdateClouds(fg: nat -> CloudDraw, bg: nat -> CloudDraw)
      requires Valid()
      modifies this
      ensures state == CloudsStep(old(state), fg, bg)
    {
      var front := DriftPass(state.cloudsFg, state.width, state.sah, LayerOf(true), FgStep(state.wind), fg);
      state := state.(cloudsFg := front);
      var back := DriftPass(state.cloudsBg, state.width, state.sah, LayerOf(false), BgStep(state.wind), bg);
      state := state.(cloudsBg := back);
    }

    /** `_update_rain_and_splashes`: one pass over the drops, each falling and, when it lands
        on the screen, starting a splash effect and feeding the first puddle under it or a
        new one; then the splash effects age. */
    method UpdateRainAndSplashes(ds: nat -> ResetDraw)
      requires Valid()
      modifies this
      ensures state == RainStep(old(state), ds)
    {
      var drops, ps, started := RainPass(state, ds);
      state := state.(raindrops := drops, puddles := ps);
      state := state.(splashes := AgeEffects(state.splashes + started));
    }

    /** `_update_puddles`: nothing to do without puddles; otherwise the survivors of one
        `update` each, and, with two or more, sorted by their left edge and merged in one
        pass, a puddle that starts within `PUDDLE_MERGE_DISTANCE` columns of the current
        one's right edge joining it. */
    method UpdatePuddles()
      requires Valid()
      modifies this
      ensures state == PuddlesStep(old(state))
    {
      var ps := PuddlesPass(state.puddles, state.intensity);
      state := state.(puddles := ps);
    }

    /** `_update_lightning`: the countdowns, the bolts cleared when the flicker runs out,
        the ground strikes aged, then a new event when `strike` comes up and neither the
        flicker nor the rumble is running. */
    method UpdateLightning(strike: bool, d: TriggerDraw, boltPath: (int, int, int) -> seq<(int, int)>)
      requires Valid()
      modifies this
      ensures state == LightningStep(old(state), strike, d, boltPath)
    {
      if state.flash > 0 {
        state := state.(flash := state.flash - 1);
      }
      if state.flicker > 0 {
        state := state.(flicker := state.flicker - 1);
        if state.flicker == 0 {
          state := state.(bolts := []);
        }
      }
      if state.rumble > 0 {
        state := state.(rumble := state.rumble - 1);
      }
      state := state.(groundStrikes := AgeEffects(state.groundStrikes));
      assert state == Decayed(old(state));
      if strike && state.flicker == 0 && state.rumble == 0 {
        TriggerLightningEvent(d, boltPath);
      }
    }

    /** `_trigger_lightning_event` up to the main bolt. */
    method TriggerLightningEvent(d: TriggerDraw, boltPath: (int, int, int) -> seq<(int, int)>)
      requires state.width >= 1 && state.sah >= 1
      modifies this
      ensures state == Triggered(old(state), d, boltPath)
    {
      var clouds := state.cloudsFg;
      state := state.(flicker := LIGHTNING_FLICKER_DURATION);
      state := state.(rumble := Pick(RUMBLE_DURATION_MIN, RUMBLE_DURATION_MAX, d.kRumble));
      state := state.(rumbleText := RUMBLE_TEXTS[Pick(0, |RUMBLE_TEXTS| - 1, d.kText)]);
      state := state.(flash := LIGHTNING_FLASH_DURATION);
      state := state.(bolts := []);
      var xStart, yStart;
      if clouds != [] {
        var c := clouds[Pick(0, |clouds| - 1, d.kCloud)];
        xStart := Round(c.x + c.width as real / 2.0);
        yStart := c.y + 1;
      } else {
        xStart := Pick(state.width / 4, 3 * state.width / 4, d.kx);
        yStart := Pick(0, state.sah / 3, d.ky);
      }
      xStart := Clamp(xStart, 0, state.width - 1);
      yStart := Clamp(yStart, 0, state.sah - 1);
      assert (xStart, yStart) == BoltStart(old(state), d);
      var yEndMax := state.sah - 1;
      var yEndMin := yStart + 2;
      if yEndMin > yEndMax {
        return;
      }
      var yEnd := Pick(yEndMin, yEndMax, d.kEnd);
      var path := boltPath(xStart, yStart, yEnd);
      if path == [] {
        return;
      }
      state := state.(bolts := state.bolts + [Bolt(path, LIGHTNING_PRIMARY_BOLT_CHAR)]);
    }

    /** `_update`: one frame of the five updates, in the source's order. */
    method Update(f: FrameDraws, boltPath: (int, int, int) -> seq<(int, int)>)
      requires Valid() && DrawsOk(f)
      modifies this
      ensures Valid()
      ensures state == FrameStep(old(state), f, boltPath)
    {
      ParamsStepProperties(state, f.s, f.gust, f.spawn, f.removals);
      UpdateStormParameters(f.s, f.gust, f.spawn, f.removals);
      UpdateClouds(f.fg, f.bg);
      UpdateRainAndSplashes(f.rain);
      UpdatePuddles();
      UpdateLightning(f.strike, f.trigger, boltPath);
    }
  }

  /** One cloud loop of `_initialize_state` on a terminal `height` rows high: `n` passes,
      each appending a new cloud. */
  method CloudLoop(n: nat, height: int, wb: int, l: Layer, ds: nat -> CloudInit) returns (r: seq<CloudV>)
    requires height >= 3 && wb >= 1 && LayerOk(l)
    ensures r == NewClouds(n, height, wb, l, ds)
  {
    r := [];
    var i := 0;
    while i < n
      invariant 0 <= i <= n
      invariant r == NewClouds(i, height, wb, l, ds)
    {
      r := r + [CloudMaker(height, wb, l, ds)(i)];
      i := i + 1;
    }
  }

  /** The two `while` loops of `_update_storm_parameters`: drops appended while there are
      fewer than `n`, then popped at drawn indices while there are more. */
  method ResizeDrops(d0: seq<DropV>, n: nat, wb: int, sah: int, w: real, spawn: nat -> ResetDraw, removals: nat -> nat)
    returns (drops: seq<DropV>)
    requires wb >= 1
    ensures drops == Resized(d0, n, wb, sah, w, spawn, removals)
  {
    drops := SpawnDrops(d0, n, wb, sah, w, spawn);
    drops := PopDrawn(drops, n, removals);
  }

  /** The appending loop: initial spawns while the list is short of `n`. */
  method SpawnDrops(d0: seq<DropV>, n: nat, wb: int, sah: int, w: real, spawn: nat -> ResetDraw) returns (drops: seq<DropV>)
    requires wb >= 1
    ensures |d0| < n ==> drops == d0 + Spawns(wb, sah, w, spawn, n - |d0|)
    ensures |d0| >= n ==> drops == d0
  {
    drops := d0;
    var j := 0;
    while |drops| < n
      invariant 0 <= j && |drops| == |d0| + j && (j > 0 ==> |drops| <= n)
      invariant drops == d0 + Spawns(wb, sah, w, spawn, j)
      decreases n - |drops|
    {
      drops := drops + [Storm1.Respawn(wb, sah, w, true, spawn(j))];
      j := j + 1;
    }
  }

  /** One layer's loop of `_update_clouds`: each cloud in turn moves by `step`. */
  method DriftPass(cs: seq<CloudV>, wb: int, sah: int, l: Layer, step: real, ds: nat -> CloudDraw) returns (r: seq<CloudV>)
    requires LayerOk(l)
    ensures r == DriftLayer(cs, wb, sah, l, step, ds)
  {
    r := cs;
    for i := 0 to |r|
      invariant |r| == |cs|
      invariant forall j :: 0 <= j < i ==> r[j] == Drifted(cs[j], wb, sah, l, step, ds(j))
      invariant forall j :: i <= j < |r| ==> r[j] == cs[j]
    {
      r := r[i := Drifted(r[i], wb, sah, l, step, ds(i))];
    }
  }

  /** What the loop of `_update_rain_and_splashes` has done after its first `i` drops:
      those drops have fallen, the others are untouched, and the on-screen splashes so far
      have started splash effects and gone into puddles. */
  ghost predicate RainSoFar(st: State, ds: nat -> ResetDraw, i: nat, drops: seq<DropV>, ps: seq<PuddleV>, started: seq<Effect>)
    requires st.width >= 1 && i <= |st.raindrops|
  {
    && |drops| == |st.raindrops|
    && (forall j :: 0 <= j < i ==> drops[j] == Fall(st.raindrops[j], st.width, st.sah, st.wind, st.splashLine, ds(j)).1)
    && (forall j :: i <= j < |drops| ==> drops[j] == st.raindrops[j])
    && ps == AbsorbAll(st.puddles, Landed(st.raindrops, i, st, ds))
    && started == SplashesAt(Landed(st.raindrops, i, st, ds), st.splashLine)
  }

  /** The loop of `_update_rain_and_splashes` over the state `st`: each drop falls and,
      when it lands on the screen, starts a splash effect and feeds the first puddle under
      it or a new one. */
  method RainPass(st: State, ds: nat -> ResetDraw) returns (drops: seq<DropV>, ps: seq<PuddleV>, started: seq<Effect>)
    requires st.width >= 1
    ensures drops == Fallen(st.raindrops, st, ds)
    ensures ps == AbsorbAll(st.puddles, Landed(st.raindrops, |st.raindrops|, st, ds))
    ensures started == SplashesAt(Landed(st.raindrops, |st.raindrops|, st, ds), st.splashLine)
  {
    drops := st.raindrops;
    ps := st.puddles;
    started := [];
    for i := 0 to |drops|
      invariant |drops| == |st.raindrops|
      invariant RainSoFar(st, ds, i, drops, ps, started)
    {
      drops, ps, started := DropFalls(st, ds, i, drops, ps, started);
    }
    assert drops == Fallen(st.raindrops, st, ds);
  }

  /** One pass of the loop of `_update_rain_and_splashes`: drop `i` falls and, when it lands
      on the screen, its splash starts an effect and goes into a puddle. */
  method DropFalls(st: State, ds: nat -> ResetDraw, i: nat, drops: seq<DropV>, ps: seq<PuddleV>, started: seq<Effect>)
    returns (drops': seq<DropV>, ps': seq<PuddleV>, started': seq<Effect>)
    requires st.width >= 1 && i < |st.raindrops| && RainSoFar(st, ds, i, drops, ps, started)
    ensures RainSoFar(st, ds, i + 1, drops', ps', started')
  {
    ghost var landed := Landed(st.raindrops, i, st, ds);
    var fall := Fall(drops[i], st.width, st.sah, st.wind, st.splashLine, ds(i));
    LandedSnoc(st.raindrops, i, st, ds);
    drops' := drops[i := fall.1];
    if fall.0.Some? && 0 <= fall.0.value < st.width {
      var x := fall.0.value;
      assert OnScreen(fall.0, st.width) == [x];
      ps', started' := Land(ps, started, x, st.splashLine, st.puddles, landed);
    } else {
      assert landed + OnScreen(fall.0, st.width) == landed;
      ps', started' := ps, started;
    }
  }

  /** The part of `_update_rain_and_splashes` for a drop that lands on the screen at `x`:
      a splash effect starts there, and the first puddle whose span holds `x` takes the
      splash, or a new puddle does. */
  method Land(ps: seq<PuddleV>, started: seq<Effect>, x: int, y: int, ghost ps0: seq<PuddleV>, ghost landed: seq<int>)
    returns (ps': seq<PuddleV>, started': seq<Effect>)
    requires ps == AbsorbAll(ps0, landed) && started == SplashesAt(landed, y)
    ensures ps' == AbsorbAll(ps0, landed + [x]) && started' == SplashesAt(landed + [x], y)
  {
    SplashesAtSnoc(landed, x, y);
    AbsorbAllSnoc(ps0, landed, x);
    started' := started + [Effect(x, y, SPLASH_DURATION_FRAMES)];
    match FirstInside(ps, x) {
      case Some(h) =>
        ps' := ps[h := Splashed(ps[h], x)];
      case None =>
        ps' := ps + [NewPuddle(x)];
    }
  }

  /** The body of `_update_puddles`: nothing to do without puddles; otherwise the survivors
      of one `update` each, and, with two or more, sorted by their left edge and merged in
      one pass, a puddle that starts within `PUDDLE_MERGE_DISTANCE` columns of the current
      one's right edge joining it. */
  method PuddlesPass(ps: seq<PuddleV>, s: real) returns (r: seq<PuddleV>)
    ensures r == Tick(ps, s, CAP)
  {
    if ps == [] {
      return [];
    }
    var surv: seq<PuddleV> := [];
    for i := 0 to |ps|
      invariant surv == Survivors(ps[..i], s)
    {
      var u := Updated(ps[i], s);
      SurvivorsSnoc(ps[..i], ps[i], s);
      assert ps[..i + 1] == ps[..i] + [ps[i]];
      if u.0 {
        surv := surv + [u.1];
      }
    }
    assert ps[..|ps|] == ps;
    if |surv| < 2 {
      return surv;
    }
    var t := SortByLeft(surv);
    var merged: seq<PuddleV> := [];
    var cur := t[0];
    ghost var goal := MergeScan(t[0], t[1..], PUDDLE_MERGE_DISTANCE, CAP);
    for i := 1 to |t|
      invariant merged + MergeScan(cur, t[i..], PUDDLE_MERGE_DISTANCE, CAP) == goal
    {
      var next := t[i];
      assert t[i..][0] == next && t[i..][1..] == t[i + 1..];
      if MinX(next) <= MaxX(cur) + PUDDLE_MERGE_DISTANCE {
        cur := Merge(cur, next, CAP);
      } else {
        assert merged + MergeScan(cur, t[i..], PUDDLE_MERGE_DISTANCE, CAP) == (merged + [cur]) + MergeScan(next, t[i + 1..], PUDDLE_MERGE_DISTANCE, CAP);
        merged := merged + [cur];
        cur := next;
      }
    }
    assert t[|t|..] == [];
    r := merged + [cur];
  }

  /** The program's start: a terminal under four rows is refused (the source prints a
      message and exits); otherwise the animation is set up. */
  method Start(width: int, height: int, fg: nat -> CloudInit, bg: nat -> CloudInit) returns (a: Option<StormAnimation>)
    requires width >= 1
    ensures a.None? <==> height < 4
    ensures a.Some? ==> fresh(a.value) && a.value.Valid() && a.value.state == Initialized(Defaults(width, height), fg, bg)
  {
    if height < 4 {
      return None;
    }
    var anim := new StormAnimation(width, height, fg, bg);
    return Some(anim);
  }
}
