/** The `StormState` record of app/stormnew.py and what each `StormAnimation._update_*`
    method makes of it, as functions from the state before to the state after. The
    drop, cloud and puddle objects the state's lists hold are represented by their
    values (`StormNew`): each object is held by one list only, so updating it in place
    and storing its new value are the same. */
module StormNewState {
  import opened PyNum
  import opened PySort
  import opened StormConfig
  import opened PuddleMath
  import opened StormCommon
  import opened StormNew
  import Storm1

  /** The fields of `StormState`, except the screen buffer and the storm clock's angle;
      `intensity` is the `current_storm_intensity` the angle gives. */
  datatype State = State(width: int, height: int, rumbleLine: int, splashLine: int, sah: int,
                         intensity: real, wind: real, target: int,
                         raindrops: seq<DropV>, cloudsFg: seq<CloudV>, cloudsBg: seq<CloudV>,
                         puddles: seq<PuddleV>, splashes: seq<Effect>, groundStrikes: seq<Effect>,
                         bolts: seq<Bolt>, flash: nat, flicker: nat, rumble: nat, rumbleText: string)

  predicate CloudsOk(cs: seq<CloudV>, sah: int) {
    forall i :: 0 <= i < |cs| ==> CloudOk(cs[i], sah)
  }

  /** What every update keeps: the geometry `_initialize_state` sets up for a terminal of four
      or more rows, clouds on rows of the storm area that show a glyph, puddles one column
      wide or wider, and bolts only while they flicker. */
  predicate StateOk(st: State) {
    && st.width >= 1 && st.height >= 4
    && st.splashLine == st.height - 2 && st.rumbleLine == st.height - 1 && st.sah == st.height - 2
    && CloudsOk(st.cloudsFg, st.sah) && CloudsOk(st.cloudsBg, st.sah)
    && AllWide(st.puddles)
    && (st.flicker == 0 ==> st.bolts == [])
  }

  // ---------------------------------------------------------------- construction

  /** `StormState(width=width, height=height)`: the dataclass defaults. */
  function Defaults(width: int, height: int): State {
    State(width, height, 0, 0, 0, 0.0, 0.0, 0, [], [], [], [], [], [], [], 0, 0, 0, "")
  }

  /** How many clouds `_initialize_state` makes for the foreground or the background layer. */
  function CloudCount(isFg: bool): nat {
    if isFg then NUM_CLOUDS_FG else NUM_CLOUDS_BG
  }

  /** Cloud `i` of one loop of `_initialize_state` on a terminal `height` rows high: a new
      cloud of the layer over the storm area two rows shorter, made from the draws `ds(i)`. */
  function CloudMaker(height: int, wb: int, l: Layer, ds: nat -> CloudInit): nat -> CloudV
    requires height >= 3 && wb >= 1 && LayerOk(l)
  {
    (i: nat) => NewCloud(height - 2, wb, l, ds(i))
  }

  /** The clouds one loop of `_initialize_state` appends: `n` new clouds of one layer. */
  function NewClouds(n: nat, height: int, wb: int, l: Layer, ds: nat -> CloudInit): (r: seq<CloudV>)
    requires height >= 3 && wb >= 1 && LayerOk(l)
    ensures |r| == n
  {
    Tabulate(n, CloudMaker(height, wb, l, ds))
  }

  /** New clouds sit on rows of the storm area and show glyphs. */
  lemma NewCloudsOk(n: nat, height: int, wb: int, l: Layer, ds: nat -> CloudInit)
    requires height >= 3 && wb >= 1 && LayerOk(l)
    ensures CloudsOk(NewClouds(n, height, wb, l, ds), height - 2)
  {
    var r := NewClouds(n, height, wb, l, ds);
    forall i | 0 <= i < n ensures CloudOk(r[i], height - 2) {
      assert r[i] == CloudMaker(height, wb, l, ds)(i);
      NewCloudOk(height - 2, wb, l, ds(i));
    }
  }

  /** `_initialize_state`: the splash line and the storm area's last row are two rows above
      the bottom, the rumble line is the bottom row, the target is `MIN_RAINDROPS`, and the
      two cloud layers get their clouds. */
  function Initialized(st: State, fg: nat -> CloudInit, bg: nat -> CloudInit): (r: State)
    requires st.width >= 1 && st.height >= 4
  {
    var sah := st.height - 2;
    st.(splashLine := st.height - 2, rumbleLine := st.height - 1, sah := sah, target := MIN_RAINDROPS,
        cloudsFg := st.cloudsFg + NewClouds(CloudCount(true), st.height, st.width, LayerOf(true), fg),
        cloudsBg := st.cloudsBg + NewClouds(CloudCount(false), st.height, st.width, LayerOf(false), bg))
  }

  lemma CloudsOkAppend(a: seq<CloudV>, b: seq<CloudV>, sah: int)
    requires CloudsOk(a, sah) && CloudsOk(b, sah)
    ensures CloudsOk(a + b, sah)
  {
    forall i | 0 <= i < |a + b| ensures CloudOk((a + b)[i], sah) {
      if i >= |a| { assert (a + b)[i] == b[i - |a|]; }
    }
  }

  /** The state a new `StormAnimation(width, height)` holds: quiet, without drops or puddles,
      with `NUM_CLOUDS_FG` and `NUM_CLOUDS_BG` clouds, and keeping `StateOk`. */
  lemma InitialOk(width: int, height: int, fg: nat -> CloudInit, bg: nat -> CloudInit)
    requires width >= 1 && height >= 4
    ensures var st := Initialized(Defaults(width, height), fg, bg);
      && StateOk(st) && st.splashLine == height - 2 && st.rumbleLine == height - 1 && st.sah == height - 2
      && |st.cloudsFg| == NUM_CLOUDS_FG && |st.cloudsBg| == NUM_CLOUDS_BG
      && st.raindrops == [] && st.puddles == [] && st.bolts == [] && st.target == MIN_RAINDROPS
      && st.flash == 0 && st.flicker == 0 && st.rumble == 0
  {
    var st := Initialized(Defaults(width, height), fg, bg);
    NewCloudsOk(CloudCount(true), height, width, LayerOf(true), fg);
    NewCloudsOk(CloudCount(false), height, width, LayerOf(false), bg);
    CloudsOkAppend([], NewClouds(CloudCount(true), height, width, LayerOf(true), fg), height - 2);
    CloudsOkAppend([], NewClouds(CloudCount(false), height, width, LayerOf(false), bg), height - 2);
  }

  // ---------------------------------------------------------------- storm parameters

  /** `m` initial spawns, the `j`-th drawing `spawn(j)`. */
  function Spawns(wb: int, sah: int, w: real, spawn: nat -> ResetDraw, m: nat): (r: seq<DropV>)
    requires wb >= 1
    ensures |r| == m && forall j :: 0 <= j < m ==> r[j] == Storm1.Respawn(wb, sah, w, true, spawn(j))
  {
    if m == 0 then [] else Spawns(wb, sah, w, spawn, m - 1) + [Storm1.Respawn(wb, sah, w, true, spawn(m - 1))]
  }

  /** The two `while` loops of `_update_storm_parameters`: a short list gets initial spawns
      appended, a long one loses drops at drawn indices, until it has `n` entries. */
  function Resized(drops: seq<DropV>, n: nat, wb: int, sah: int, w: real, spawn: nat -> ResetDraw, removals: nat -> nat): (r: seq<DropV>)
    requires wb >= 1
    ensures |r| == n
    ensures |drops| < n ==> r[..|drops|] == drops
    ensures |drops| < n ==> forall i :: |drops| <= i < n ==> r[i] == Storm1.Respawn(wb, sah, w, true, spawn(i - |drops|))
    ensures |drops| >= n ==> multiset(r) <= multiset(drops)
  {
    if |drops| < n then drops + Spawns(wb, sah, w, spawn, n - |drops|) else Shrink(drops, n, removals, 0)
  }

  /** `_update_storm_parameters` for the storm intensity `s` and the gust `gust` (the base
      drift times the drawn `uniform(-STORM_GUST_FACTOR, STORM_GUST_FACTOR)`). */
  function ParamsStep(st: State, s: real, gust: real, spawn: nat -> ResetDraw, removals: nat -> nat): (r: State)
    requires StateOk(st) && 0.0 <= s <= 1.0 && Abs(gust) <= STORM_GUST_FACTOR * (MAX_WIND_DRIFT_BASE * s)
  {
    var w := WindFor(s, gust);
    var n := TargetDrops(s);
    st.(intensity := s, wind := w, target := n, raindrops := Resized(st.raindrops, n, st.width, st.sah, w, spawn, removals))
  }

  /** After the storm parameters are updated the drop list has exactly the target length,
      which lies between `MIN_RAINDROPS` and `MAX_RAINDROPS`; the wind is never negative; the
      drops kept are drops that were there, and nothing else changes. */
  lemma ParamsStepProperties(st: State, s: real, gust: real, spawn: nat -> ResetDraw, removals: nat -> nat)
    requires StateOk(st) && 0.0 <= s <= 1.0 && Abs(gust) <= STORM_GUST_FACTOR * (MAX_WIND_DRIFT_BASE * s)
    ensures var r := ParamsStep(st, s, gust, spawn, removals);
      && StateOk(r) && |r.raindrops| == r.target && MIN_RAINDROPS <= r.target <= MAX_RAINDROPS
      && 0.0 <= r.wind && (|st.raindrops| >= r.target ==> multiset(r.raindrops) <= multiset(st.raindrops))
      && r == st.(intensity := s, wind := r.wind, target := r.target, raindrops := r.raindrops)
  {
  }

  // ---------------------------------------------------------------- clouds

  /** One layer's loop of `_update_clouds`: cloud `i` moves by `step`, drawing `ds(i)`. */
  function DriftLayer(cs: seq<CloudV>, wb: int, sah: int, l: Layer, step: real, ds: nat -> CloudDraw): (r: seq<CloudV>)
    requires LayerOk(l)
    ensures |r| == |cs| && forall i :: 0 <= i < |cs| ==> r[i] == Drifted(cs[i], wb, sah, l, step, ds(i))
  {
    if cs == [] then [] else
      var init := cs[..|cs| - 1];
      var prev := DriftLayer(init, wb, sah, l, step, ds);
      assert forall i :: 0 <= i < |init| ==> init[i] == cs[i];
      prev + [Drifted(cs[|cs| - 1], wb, sah, l, step, ds(|cs| - 1))]
  }

  /** A layer of clouds stays on rows of the storm area, showing glyphs. */
  lemma DriftLayerOk(cs: seq<CloudV>, wb: int, sah: int, l: Layer, step: real, ds: nat -> CloudDraw)
    requires LayerOk(l) && sah >= 1 && CloudsOk(cs, sah)
    ensures CloudsOk(DriftLayer(cs, wb, sah, l, step, ds), sah)
  {
    var r := DriftLayer(cs, wb, sah, l, step, ds);
    forall i | 0 <= i < |r| ensures CloudOk(r[i], sah) {
      DriftedOk(cs[i], wb, sah, l, step, ds(i));
    }
  }

  /** The foreground step, `BASE_CLOUD_SPEED_FG + wind * CLOUD_WIND_FACTOR_FG`. */
  function FgStep(w: real): real {
    BASE_CLOUD_SPEED_FG + w * CLOUD_WIND_FACTOR_FG
  }

  /** The background step: the foreground speed times `BASE_CLOUD_SPEED_BG_FACTOR`, plus
      the wind times `CLOUD_WIND_FACTOR_BG`. */
  function BgStep(w: real): real {
    BASE_CLOUD_SPEED_FG * BASE_CLOUD_SPEED_BG_FACTOR + w * CLOUD_WIND_FACTOR_BG
  }

  /** `_update_clouds`: both layers move, each at its own speed and wind factor. In calm
      or positive wind the foreground moves right by 0.3 or more a frame and the
      background by 0.18 or more, faster the stronger the wind. */
  function CloudsStep(st: State, fg: nat -> CloudDraw, bg: nat -> CloudDraw): (r: State)
    requires StateOk(st)
    ensures StateOk(r)
    ensures r == st.(cloudsFg := r.cloudsFg, cloudsBg := r.cloudsBg)
    ensures |r.cloudsFg| == |st.cloudsFg| && |r.cloudsBg| == |st.cloudsBg|
    ensures st.wind >= 0.0 ==> FgStep(st.wind) >= 0.3 && BgStep(st.wind) >= 0.18
  {
    DriftLayerOk(st.cloudsFg, st.width, st.sah, LayerOf(true), FgStep(st.wind), fg);
    DriftLayerOk(st.cloudsBg, st.width, st.sah, LayerOf(false), BgStep(st.wind), bg);
    st.(cloudsFg := DriftLayer(st.cloudsFg, st.width, st.sah, LayerOf(true), FgStep(st.wind), fg),
        cloudsBg := DriftLayer(st.cloudsBg, st.width, st.sah, LayerOf(false), BgStep(st.wind), bg))
  }

  // ---------------------------------------------------------------- rain and splashes

  /** The on-screen splash columns of the first `n` drops, in drop order. */
  function Landed(vs: seq<DropV>, n: nat, st: State, ds: nat -> ResetDraw): (r: seq<int>)
    requires n <= |vs| && st.width >= 1
    ensures |r| <= n && forall k :: 0 <= k < |r| ==> 0 <= r[k] < st.width
  {
    if n == 0 then []
    else Landed(vs, n - 1, st, ds) + OnScreen(Fall(vs[n - 1], st.width, st.sah, st.wind, st.splashLine, ds(n - 1)).0, st.width)
  }

  /** One more drop adds its on-screen splash column, if any. */
  lemma LandedSnoc(vs: seq<DropV>, n: nat, st: State, ds: nat -> ResetDraw)
    requires n < |vs| && st.width >= 1
    ensures Landed(vs, n + 1, st, ds) == Landed(vs, n, st, ds) + OnScreen(Fall(vs[n], st.width, st.sah, st.wind, st.splashLine, ds(n)).0, st.width)
  {
  }

  /** The inner part of `_update_rain_and_splashes` for a splash at `x`: the first puddle
      whose span holds `x` takes it (`add_splash`); when none does, `Puddle(x)` takes it and
      joins the end of the list. */
  function Absorb(ps: seq<PuddleV>, x: int): (r: seq<PuddleV>)
    ensures AllWide(ps) ==> AllWide(r)
  {
    match FirstInside(ps, x)
    case Some(i) => ps[i := Splashed(ps[i], x)]
    case None => ps + [NewPuddle(x)]
  }

  /** A splash changes one puddle, whose span already held its column, or adds one there;
      spans never move, so afterwards some puddle holds the column. */
  lemma AbsorbEffect(ps: seq<PuddleV>, x: int)
    ensures var r := Absorb(ps, x);
      && (exists j :: 0 <= j < |r| && Inside(r[j], x))
      && (FirstInside(ps, x).Some? ==> |r| == |ps|) && (FirstInside(ps, x).None? ==> |r| == |ps| + 1 && r[..|ps|] == ps)
      && forall j :: 0 <= j < |ps| ==> MinX(r[j]) == MinX(ps[j]) && MaxX(r[j]) == MaxX(ps[j])
  {
    var r := Absorb(ps, x);
    match FirstInside(ps, x)
    case Some(i) =>
      assert Inside(r[i], x);
    case None =>
      assert Inside(r[|ps|], x);
  }

  /** The splashes absorbed one after the other, in order. */
  function AbsorbAll(ps: seq<PuddleV>, xs: seq<int>): (r: seq<PuddleV>)
    ensures AllWide(ps) ==> AllWide(r)
    ensures |ps| <= |r| <= |ps| + |xs|
  {
    if xs == [] then ps
    else
      var q := AbsorbAll(ps, xs[..|xs| - 1]);
      AbsorbEffect(q, xs[|xs| - 1]);
      Absorb(q, xs[|xs| - 1])
  }

  /** One more splash is absorbed after the others. */
  lemma AbsorbAllSnoc(ps: seq<PuddleV>, xs: seq<int>, x: int)
    ensures AbsorbAll(ps, xs + [x]) == Absorb(AbsorbAll(ps, xs), x)
  {
    assert (xs + [x])[..|xs|] == xs;
  }

  /** After the splashes of a frame every splash column lies under a puddle. */
  lemma {:induction false} AbsorbAllCovers(ps: seq<PuddleV>, xs: seq<int>, k: int)
    requires 0 <= k < |xs|
    ensures exists j :: 0 <= j < |AbsorbAll(ps, xs)| && Inside(AbsorbAll(ps, xs)[j], xs[k])
    decreases |xs|
  {
    var q := AbsorbAll(ps, xs[..|xs| - 1]);
    var r := Absorb(q, xs[|xs| - 1]);
    assert AbsorbAll(ps, xs) == r;
    AbsorbEffect(q, xs[|xs| - 1]);
    if k < |xs| - 1 {
      AbsorbAllCovers(ps, xs[..|xs| - 1], k);
      var j :| 0 <= j < |q| && Inside(q[j], xs[..|xs| - 1][k]);
      assert MinX(r[j]) == MinX(q[j]) && MaxX(r[j]) == MaxX(q[j]);
      assert Inside(r[j], xs[k]);
    }
  }

  /** Every drop after its fall, drop `i` drawing `ds(i)` for a reset. */
  function Fallen(vs: seq<DropV>, st: State, ds: nat -> ResetDraw): (r: seq<DropV>)
    requires st.width >= 1
    ensures |r| == |vs| && forall i :: 0 <= i < |vs| ==> r[i] == Fall(vs[i], st.width, st.sah, st.wind, st.splashLine, ds(i)).1
  {
    if vs == [] then [] else Fallen(vs[..|vs| - 1], st, ds) + [Fall(vs[|vs| - 1], st.width, st.sah, st.wind, st.splashLine, ds(|vs| - 1)).1]
  }

  /** `_update_rain_and_splashes`: every drop falls, each on-screen splash becomes a splash
      effect and goes into a puddle, and the splash effects age by one frame. */
  function RainStep(st: State, ds: nat -> ResetDraw): (r: State)
    requires StateOk(st)
    ensures StateOk(r)
    ensures r == st.(raindrops := r.raindrops, puddles := r.puddles, splashes := r.splashes)
  {
    var landed := Landed(st.raindrops, |st.raindrops|, st, ds);
    st.(raindrops := Fallen(st.raindrops, st, ds), puddles := AbsorbAll(st.puddles, landed),
        splashes := AgeEffects(st.splashes + SplashesAt(landed, st.splashLine)))
  }

  /** Each splash that lands on the screen this frame is under a puddle afterwards and is
      shown as a splash effect on the splash line with one frame left. */
  lemma RainStepSplashes(st: State, ds: nat -> ResetDraw, k: int)
    requires StateOk(st)
    requires 0 <= k < |Landed(st.raindrops, |st.raindrops|, st, ds)|
    ensures var x := Landed(st.raindrops, |st.raindrops|, st, ds)[k];
      && (exists j :: 0 <= j < |RainStep(st, ds).puddles| && Inside(RainStep(st, ds).puddles[j], x))
      && Effect(x, st.splashLine, SPLASH_DURATION_FRAMES - 1) in RainStep(st, ds).splashes
  {
    var landed := Landed(st.raindrops, |st.raindrops|, st, ds);
    var r := RainStep(st, ds);
    assert r.puddles == AbsorbAll(st.puddles, landed);
    AbsorbAllCovers(st.puddles, landed, k);
    var j :| 0 <= j < |r.puddles| && Inside(r.puddles[j], landed[k]);
    var n := SplashesAt(landed, st.splashLine);
    assert r.splashes == AgeEffects(st.splashes + n);
    assert n[k] in st.splashes + n;
    AgeEffectsMember(st.splashes + n, Effect(landed[k], st.splashLine, SPLASH_DURATION_FRAMES - 1));
  }

  // ---------------------------------------------------------------- puddles

  /** Survivors of a list with one more puddle at the end: that puddle's evolved value is
      appended when it survives. */
  lemma {:induction false} SurvivorsSnoc(vs: seq<PuddleV>, v: PuddleV, s: real)
    ensures Survivors(vs + [v], s) == Survivors(vs, s) + (if Survives(v, s) then [Evolve(v, s)] else [])
    decreases |vs|
  {
    if vs == [] {
      assert [v][1..] == [];
    } else {
      assert (vs + [v])[1..] == vs[1..] + [v] && (vs + [v])[0] == vs[0];
      SurvivorsSnoc(vs[1..], v, s);
      var h := if Survives(vs[0], s) then [Evolve(vs[0], s)] else [];
      var t := if Survives(v, s) then [Evolve(v, s)] else [];
      var rest := Survivors(vs[1..], s);
      assert Survivors(vs + [v], s) == h + (rest + t);
      assert h + (rest + t) == (h + rest) + t;
    }
  }

  /** `_update_puddles` at the current storm intensity, with `merge`'s cap `CAP`. */
  function PuddlesStep(st: State): (r: State)
    requires StateOk(st)
    ensures StateOk(r)
    ensures r == st.(puddles := r.puddles)
    ensures AllWet(r.puddles) && Separated(r.puddles, PUDDLE_MERGE_DISTANCE) && SortedBy(r.puddles, LeftKey)
    ensures |r.puddles| <= |st.puddles|
  {
    TickProperties(st.puddles, st.intensity, CAP);
    st.(puddles := Tick(st.puddles, st.intensity, CAP))
  }

  // ---------------------------------------------------------------- lightning

  /** The countdowns of `_update_lightning`: the flash, flicker and rumble frames each go
      down by one when positive, the bolts go when the flicker reaches zero, and the ground
      strikes age by one frame. */
  function Decayed(st: State): (r: State)
    requires StateOk(st)
    ensures StateOk(r)
    ensures r.flash == Max(0, st.flash - 1) && r.flicker == Max(0, st.flicker - 1) && r.rumble == Max(0, st.rumble - 1)
    ensures r.bolts == [] || r.bolts == st.bolts
    ensures r == st.(flash := r.flash, flicker := r.flicker, rumble := r.rumble, bolts := r.bolts, groundStrikes := AgeEffects(st.groundStrikes))
  {
    st.(flash := if st.flash > 0 then st.flash - 1 else 0,
        flicker := if st.flicker > 0 then st.flicker - 1 else 0,
        bolts := if st.flicker == 1 then [] else st.bolts,
        rumble := if st.rumble > 0 then st.rumble - 1 else 0,
        groundStrikes := AgeEffects(st.groundStrikes))
  }

  /** The draws of one `_trigger_lightning_event`: the rumble length, the caption, the source
      cloud, the start column and row used when there is no cloud, and the end row. */
  datatype TriggerDraw = TriggerDraw(kRumble: nat, kText: nat, kCloud: nat, kx: nat, ky: nat, kEnd: nat)

  /** Where the main bolt starts: under a drawn foreground cloud, at its rounded middle
      column and the row below it, or, with no foreground cloud, at a drawn column in the
      middle half of the screen and a drawn row in the top third of the storm area; then
      clamped onto the screen and into the storm area. */
  function BoltStart(st: State, d: TriggerDraw): (p: (int, int))
    requires st.width >= 1 && st.sah >= 1
    ensures 0 <= p.0 < st.width && 0 <= p.1 < st.sah
    ensures st.cloudsFg != [] ==> var c := st.cloudsFg[Pick(0, |st.cloudsFg| - 1, d.kCloud)];
      p == (Clamp(Round(c.x + c.width as real / 2.0), 0, st.width - 1), Clamp(c.y + 1, 0, st.sah - 1))
  {
    var start :=
      if st.cloudsFg != [] then
        var c := st.cloudsFg[Pick(0, |st.cloudsFg| - 1, d.kCloud)];
        (Round(c.x + c.width as real / 2.0), c.y + 1)
      else
        (Pick(st.width / 4, 3 * st.width / 4, d.kx), Pick(0, st.sah / 3, d.ky));
    (Clamp(start.0, 0, st.width - 1), Clamp(start.1, 0, st.sah - 1))
  }

  /** The main bolt's end row: drawn from two rows below the start to the storm area's last
      row, or none when that range is empty. */
  function BoltEnd(st: State, d: TriggerDraw): (e: Option<int>)
    requires st.width >= 1 && st.sah >= 1
    ensures e.None? <==> BoltStart(st, d).1 + 2 > st.sah - 1
    ensures e.Some? ==> BoltStart(st, d).1 + 2 <= e.value <= st.sah - 1
  {
    var y := BoltStart(st, d).1;
    if y + 2 > st.sah - 1 then None else Some(Pick(y + 2, st.sah - 1, d.kEnd))
  }

  /** `_trigger_lightning_event` up to the main bolt, `boltPath(x, y_start, y_end)` standing
      for `_generate_bolt_path`: the flicker, rumble and flash are armed, a caption is
      drawn, the bolts are cleared, and the main bolt is added when there is room for it
      and its path is not empty. */
  function Triggered(st: State, d: TriggerDraw, boltPath: (int, int, int) -> seq<(int, int)>): (r: State)
    requires st.width >= 1 && st.sah >= 1
  {
    var armed := st.(flicker := LIGHTNING_FLICKER_DURATION, rumble := Pick(RUMBLE_DURATION_MIN, RUMBLE_DURATION_MAX, d.kRumble),
                     rumbleText := RUMBLE_TEXTS[Pick(0, |RUMBLE_TEXTS| - 1, d.kText)], flash := LIGHTNING_FLASH_DURATION, bolts := []);
    var start := BoltStart(st, d);
    match BoltEnd(st, d)
    case None => armed
    case Some(e) =>
      var path := boltPath(start.0, start.1, e);
      if path == [] then armed else armed.(bolts := [Bolt(path, LIGHTNING_PRIMARY_BOLT_CHAR)])
  }

  /** The timers are armed whatever happens to the bolt; with no room below the start there
      is no bolt; otherwise the only bolt is the main one, from the clamped start down to an
      end row in range. Nothing but the lightning fields changes. */
  lemma TriggeredProperties(st: State, d: TriggerDraw, boltPath: (int, int, int) -> seq<(int, int)>)
    requires st.width >= 1 && st.sah >= 1
    ensures var r := Triggered(st, d, boltPath);
      && r.flicker == LIGHTNING_FLICKER_DURATION && r.flash == LIGHTNING_FLASH_DURATION
      && RUMBLE_DURATION_MIN <= r.rumble <= RUMBLE_DURATION_MAX && r.rumbleText in RUMBLE_TEXTS
      && (BoltStart(st, d).1 + 2 > st.sah - 1 ==> r.bolts == [])
      && |r.bolts| <= 1
      && (r.bolts != [] ==>
            && BoltEnd(st, d).Some? && r.bolts[0].glyph == LIGHTNING_PRIMARY_BOLT_CHAR
            && r.bolts[0].path == boltPath(BoltStart(st, d).0, BoltStart(st, d).1, BoltEnd(st, d).value) != [])
      && r == st.(flicker := r.flicker, rumble := r.rumble, rumbleText := r.rumbleText, flash := r.flash, bolts := r.bolts)
  {
  }

  /** `_update_lightning`: the countdowns, then a new event when the `random() <
      LIGHTNING_PROBABILITY` draw `strike` comes up and neither a flicker nor a rumble is
      still running. */
  function LightningStep(st: State, strike: bool, d: TriggerDraw, boltPath: (int, int, int) -> seq<(int, int)>): (r: State)
    requires StateOk(st)
    ensures StateOk(r)
  {
    var dec := Decayed(st);
    if strike && dec.flicker == 0 && dec.rumble == 0 then
      TriggeredProperties(dec, d, boltPath);
      Triggered(dec, d, boltPath)
    else dec
  }

  /** A lightning event starts only when the draw says so and both the flicker and the rumble
      have run out; then the flicker is armed, so no second event can start while the
      first one flickers or rumbles. Without an event the step is the countdown alone. */
  lemma LightningStepStarts(st: State, strike: bool, d: TriggerDraw, boltPath: (int, int, int) -> seq<(int, int)>)
    requires StateOk(st)
    ensures var r := LightningStep(st, strike, d, boltPath);
      && (r.flicker == LIGHTNING_FLICKER_DURATION && st.flicker != LIGHTNING_FLICKER_DURATION + 1 ==>
            strike && Max(0, st.flicker - 1) == 0 && Max(0, st.rumble - 1) == 0)
      && (r != Decayed(st) ==> strike && Decayed(st).flicker == 0 && Decayed(st).rumble == 0)
      && (r == Decayed(st) || r.rumble >= RUMBLE_DURATION_MIN)
  {
    var dec := Decayed(st);
    if strike && dec.flicker == 0 && dec.rumble == 0 {
      TriggeredProperties(dec, d, boltPath);
    }
  }

  // ---------------------------------------------------------------- one frame

  /** All draws of one frame: the storm intensity and gust, the drop spawns and removals,
      both cloud layers' draws, the drops' reset draws, the lightning draw and the trigger's
      draws. */
  datatype FrameDraws = FrameDraws(s: real, gust: real, spawn: nat -> ResetDraw, removals: nat -> nat,
                                   fg: nat -> CloudDraw, bg: nat -> CloudDraw, rain: nat -> ResetDraw,
                                   strike: bool, trigger: TriggerDraw)

  predicate DrawsOk(f: FrameDraws) {
    0.0 <= f.s <= 1.0 && Abs(f.gust) <= STORM_GUST_FACTOR * (MAX_WIND_DRIFT_BASE * f.s)
  }

  /** `_update`: parameters, clouds, rain, puddles, lightning, in this order. */
  function FrameStep(st: State, f: FrameDraws, boltPath: (int, int, int) -> seq<(int, int)>): (r: State)
    requires StateOk(st) && DrawsOk(f)
    ensures StateOk(r)
    ensures |r.raindrops| == r.target == TargetDrops(f.s)
    ensures AllWet(r.puddles) && Separated(r.puddles, PUDDLE_MERGE_DISTANCE)
    ensures r.width == st.width && r.height == st.height
  {
    ParamsStepProperties(st, f.s, f.gust, f.spawn, f.removals);
    var a := ParamsStep(st, f.s, f.gust, f.spawn, f.removals);
    var b := CloudsStep(a, f.fg, f.bg);
    var c := RainStep(b, f.rain);
    var e := PuddlesStep(c);
    LightningStep(e, f.strike, f.trigger, boltPath)
  }
}
