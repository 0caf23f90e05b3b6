/** app/storm.py: the per-frame steps for the rain, the puddles and the clouds, each a
    loop over the globals, proved against the function of the old globals it computes. */
module StormDictFrame {
  import opened PyNum
  import opened PySort
  import opened StormConfig
  import opened StormCommon
  import opened Storm1
  import opened StormDict

  // ---------------------------------------------------------------- rain and splashes

  /** The fall of drop `i` of the globals `w`, resetting with the draws `ds(i)`. */
  function FallAt(w: World, ds: nat -> ResetDraw, i: nat): (Option<int>, Drop)
    requires WorldOk(w) && i < |w.drops|
  {
    FallD(w.drops[i], w.width, w.sah, w.splashLine, w.wind, w.rainChar, ds(i))
  }

  /** The on-screen splash columns of the first `n` drops, in drop order. */
  function LandedD(w: World, ds: nat -> ResetDraw, n: nat): (r: seq<int>)
    requires WorldOk(w) && n <= |w.drops|
    ensures |r| <= n && forall k :: 0 <= k < |r| ==> 0 <= r[k] < w.width
  {
    if n == 0 then [] else LandedD(w, ds, n - 1) + OnScreen(FallAt(w, ds, n - 1).0, w.width)
  }

  /** `update_rain_and_splashes`: every drop falls; each splash on the screen starts a
      splash effect and pours into the puddle dict, in drop order; then the splash effects,
      old and new, age by one frame. */
  function RainStep(w: World, ds: nat -> ResetDraw): (r: World)
    requires WorldOk(w)
    ensures WorldOk(r)
    ensures r == w.(drops := r.drops, puddles := r.puddles, splashes := r.splashes)
    ensures |r.drops| == |w.drops|
  {
    var landed := LandedD(w, ds, |w.drops|);
    SoakOk(w.puddles, landed);
    w.(drops := seq(|w.drops|, i requires 0 <= i < |w.drops| => FallAt(w, ds, i).1),
       puddles := Soak(w.puddles, landed),
       splashes := AgeEffects(w.splashes + SplashesAt(landed, w.splashLine)))
  }

  /** A splash that lands on the screen this frame leaves a puddle at its column, and a
      splash effect there on the splash line with one frame left. */
  lemma RainStepSplashes(w: World, ds: nat -> ResetDraw, k: int)
    requires WorldOk(w) && 0 <= k < |LandedD(w, ds, |w.drops|)|
    ensures var x := LandedD(w, ds, |w.drops|)[k];
      && x in RainStep(w, ds).puddles.at
      && Effect(x, w.splashLine, SPLASH_DURATION_FRAMES - 1) in RainStep(w, ds).splashes
  {
    var landed := LandedD(w, ds, |w.drops|);
    SoakKeys(w.puddles, landed);
    assert landed[k] in landed;
    var n := SplashesAt(landed, w.splashLine);
    assert n[k] in w.splashes + n;
    AgeEffectsMember(w.splashes + n, Effect(landed[k], w.splashLine, SPLASH_DURATION_FRAMES - 1));
  }

  /** A drop that does not reach the splash line and stays in the band (-1, width + 1)
      simply moves: one row down, the wind's drift across, in the frame's rain glyph. */
  lemma RainStepMoves(w: World, ds: nat -> ResetDraw, i: int)
    requires WorldOk(w) && 0 <= i < |w.drops|
    requires w.drops[i].y + 1 < w.splashLine && -1.0 < w.drops[i].x + w.wind < (w.width + 1) as real
    ensures RainStep(w, ds).drops[i] == Drop(w.drops[i].x + w.wind, w.drops[i].y + 1, w.rainChar)
  {
  }

  /** What the loop of `update_rain_and_splashes` has done after its first `i` drops:
      those drops have fallen, the others are untouched, the splashes so far are appended
      to the active splashes and have poured into the puddle dict. */
  ghost predicate RainSoFar(w: World, ds: nat -> ResetDraw, i: nat, drops: seq<Drop>, puddles: Pool, active: seq<Effect>)
    requires WorldOk(w) && i <= |w.drops|
  {
    && |drops| == |w.drops|
    && (forall j :: 0 <= j < i ==> drops[j] == FallAt(w, ds, j).1)
    && (forall j :: i <= j < |drops| ==> drops[j] == w.drops[j])
    && PoolOk(puddles) && puddles == Soak(w.puddles, LandedD(w, ds, i))
    && active == w.splashes + SplashesAt(LandedD(w, ds, i), w.splashLine)
  }

  /** `update_rain_and_splashes` on the globals `w`, drop `i` resetting with `ds(i)`. */
  method UpdateRainAndSplashes(w: World, ds: nat -> ResetDraw) returns (h: World)
    requires WorldOk(w)
    ensures h == RainStep(w, ds)
  {
    var drops := w.drops;
    var puddles := w.puddles;
    var active := w.splashes;
    for i := 0 to |drops|
      invariant RainSoFar(w, ds, i, drops, puddles, active)
    {
      drops, puddles, active := DropFalls(w, ds, i, drops, puddles, active);
    }
    var aged := AgeSplashes(active);
    h := w.(drops := drops, puddles := puddles, splashes := aged);
  }

  /** One pass of the drop loop: drop `i` falls (`FallD` holds the per-drop rules); when
      it reports a splash column on the screen, a splash effect starts there and the splash
      pours into the puddle dict. */
  method DropFalls(w: World, ds: nat -> ResetDraw, i: nat, drops: seq<Drop>, puddles: Pool, active: seq<Effect>)
    returns (drops': seq<Drop>, puddles': Pool, active': seq<Effect>)
    requires WorldOk(w) && i < |w.drops| && RainSoFar(w, ds, i, drops, puddles, active)
    ensures RainSoFar(w, ds, i + 1, drops', puddles', active')
  {
    ghost var landed := LandedD(w, ds, i);
    var fall := FallD(drops[i], w.width, w.sah, w.splashLine, w.wind, w.rainChar, ds(i));
    assert LandedD(w, ds, i + 1) == landed + OnScreen(fall.0, w.width);
    drops' := drops[i := fall.1];
    if fall.0.Some? && 0 <= fall.0.value < w.width {
      assert OnScreen(fall.0, w.width) == [fall.0.value];
      puddles', active' := Land(w, puddles, active, fall.0.value, landed);
    } else {
      assert LandedD(w, ds, i + 1) == landed;
      puddles', active' := puddles, active;
    }
  }

  /** The splash part of the drop loop for a splash on the screen at `x`: a splash effect
      is appended and the splash pours into the puddle dict. */
  method Land(w: World, puddles: Pool, active: seq<Effect>, x: int, ghost landed: seq<int>)
    returns (puddles': Pool, active': seq<Effect>)
    requires PoolOk(w.puddles) && puddles == Soak(w.puddles, landed)
    requires active == w.splashes + SplashesAt(landed, w.splashLine)
    ensures PoolOk(puddles') && puddles' == Soak(w.puddles, landed + [x])
    ensures active' == w.splashes + SplashesAt(landed + [x], w.splashLine)
  {
    SplashesAtSnoc(landed, x, w.splashLine);
    SoakSnoc(w.puddles, landed, x);
    active' := active + [Effect(x, w.splashLine, SPLASH_DURATION_FRAMES)];
    puddles' := Pour(puddles, x);
  }

  /** The puddle part of the drop loop for a splash at `x`: an empty one-column puddle is
      created when the column has none, then its water grows by a splash's worth. */
  method Pour(p: Pool, x: int) returns (r: Pool)
    requires PoolOk(p)
    ensures r == StormDict.Splashed(p, x)
  {
    r := p;
    if x !in r.at {
      r := Pool(r.keys + [x], r.at[x := PuddleD(0.0, 1, x)]);
    }
    r := r.(at := r.at[x := r.at[x].(intensity := MinR(DICT_CAP, r.at[x].intensity + PUDDLE_FORMATION_PER_SPLASH))]);
  }

  /** The closing loop of `update_rain_and_splashes`: each splash loses a frame and is
      kept when it has one left. */
  method AgeSplashes(es: seq<Effect>) returns (r: seq<Effect>)
    ensures r == AgeEffects(es)
  {
    r := [];
    for i := 0 to |es|
      invariant r == AgeEffects(es[..i])
    {
      var splash := es[i].(life := es[i].life - 1);
      AgeEffectsSnoc(es[..i], es[i]);
      assert es[..i + 1] == es[..i] + [es[i]];
      if splash.life > 0 {
        r := r + [splash];
      }
    }
    assert es[..|es|] == es;
  }

  // ---------------------------------------------------------------- puddles

  /** The sort key of a dict key: the column itself. */
  function ColumnKey(k: int): Ext {
    Fin(k)
  }

  /** Strictly increasing columns. */
  predicate Ascending(s: seq<int>) {
    forall i, j :: 0 <= i < j < |s| ==> s[i] < s[j]
  }

  /** `sorted(puddles.keys())`: every key once, in increasing order. */
  function SortedKeys(p: Pool): (r: seq<int>)
    requires PoolOk(p)
    ensures Distinct(r) && Ascending(r)
    ensures forall k :: k in r <==> k in p.at
  {
    var r := SortBy(p.keys, ColumnKey);
    SortBySorted(p.keys, ColumnKey);
    DistinctPermutation(p.keys, r);
    assert forall k :: k in r <==> k in multiset(r);
    assert forall k :: k in p.keys <==> k in multiset(p.keys);
    r
  }

  /** `update_puddles`: the dict rebuilt by visiting its keys in increasing order. */
  function PuddleStep(w: World): (r: World)
    requires WorldOk(w)
    ensures WorldOk(r) && r == w.(puddles := r.puddles)
  {
    DryOk(w.puddles, SortedKeys(w.puddles), w.intensity);
    w.(puddles := Dry(w.puddles, SortedKeys(w.puddles), w.intensity))
  }

  /** The dict `update_puddles` leaves lists its columns in increasing order: the visit is
      in key order, and the new dict takes the survivors in visiting order. */
  lemma {:induction false} DryAscending(p: Pool, order: seq<int>, s: real)
    requires PoolOk(p) && Distinct(order) && (forall k :: k in order ==> k in p.at) && 0.0 <= s <= 1.0
    requires Ascending(order)
    ensures Ascending(Dry(p, order, s).keys)
  {
    if order != [] {
      var init := order[..|order| - 1];
      var k := order[|order| - 1];
      assert order == init + [k];
      assert Distinct(init);
      DryAscending(p, init, s);
      var r := Dry(p, init, s);
      forall x | x in r.keys ensures x < k {
        assert x in init;
        var m :| 0 <= m < |init| && init[m] == x;
        assert order[m] == x;
      }
      if Lasts(p.at[k], s) {
        AscendingSnoc(r.keys, k);
      }
    }
  }

  /** An increasing list stays increasing with a larger column at its end. */
  lemma AscendingSnoc(s: seq<int>, k: int)
    requires Ascending(s) && forall x :: x in s ==> x < k
    ensures Ascending(s + [k])
  {
    forall i, j | 0 <= i < j < |s + [k]| ensures (s + [k])[i] < (s + [k])[j] {
      assert (s + [k])[i] == s[i];
      if j == |s| {
        assert s[i] in s;
      }
    }
  }

  /** After `update_puddles` the dict's columns are in increasing order, and a column is
      still there exactly when its puddle kept some water. */
  lemma PuddleStepOrdered(w: World)
    requires WorldOk(w)
    ensures Ascending(PuddleStep(w).puddles.keys)
    ensures forall k :: k in PuddleStep(w).puddles.at <==> k in w.puddles.at && Lasts(w.puddles.at[k], w.intensity)
  {
    DryAscending(w.puddles, SortedKeys(w.puddles), w.intensity);
  }

  /** `update_puddles` on the globals `w`. */
  method UpdatePuddles(w: World) returns (h: World)
    requires WorldOk(w)
    ensures h == PuddleStep(w)
  {
    var newPuddles := Pool([], map[]);
    var sortedKeys := SortedKeys(w.puddles);
    for i := 0 to |sortedKeys|
      invariant Distinct(sortedKeys[..i]) && newPuddles == Dry(w.puddles, sortedKeys[..i], w.intensity)
    {
      newPuddles := Evaporate(w.puddles, sortedKeys, i, w.intensity, newPuddles);
    }
    assert sortedKeys[..|sortedKeys|] == sortedKeys;
    h := w.(puddles := newPuddles);
  }

  /** One pass of the loop of `update_puddles`, at the key `order[i]`: the puddle loses
      its evaporation for the storm intensity `s`; when water is left it spreads to its
      width and goes into the new dict under the same key. */
  method Evaporate(p: Pool, order: seq<int>, i: nat, s: real, acc: Pool) returns (acc': Pool)
    requires PoolOk(p) && Distinct(order) && (forall k :: k in order ==> k in p.at) && 0.0 <= s <= 1.0
    requires i < |order| && Distinct(order[..i]) && acc == Dry(p, order[..i], s)
    ensures Distinct(order[..i + 1]) && acc' == Dry(p, order[..i + 1], s)
  {
    var x := order[i];
    assert order[..i + 1] == order[..i] + [x];
    assert order[..i + 1][..i] == order[..i];
    assert x !in order[..i] by {
      forall m | 0 <= m < i ensures order[..i][m] != x {
        assert order[m] != order[i];
      }
    }
    DistinctAppend(order[..i], x);
    var puddle := p.at[x];
    var evapRate := PUDDLE_EVAPORATION_RATE * (1.5 - s);
    puddle := puddle.(intensity := puddle.intensity - evapRate);
    acc' := acc;
    if puddle.intensity > 0.0 {
      if puddle.intensity > PUDDLE_SPREAD_THRESHOLD {
        puddle := puddle.(width := Min(PUDDLE_MAX_WIDTH_PER_POINT, 1 + Trunc(puddle.intensity / PUDDLE_SPREAD_THRESHOLD)));
      } else {
        puddle := puddle.(width := 1);
      }
      acc' := Pool(acc.keys + [x], acc.at[x := puddle]);
    }
  }

  // ---------------------------------------------------------------- clouds

  /** The foreground layer's step: the base speed, signed by the wind, plus the wind's push. */
  function FgStepD(wind: real): real {
    CloudStep(BASE_CLOUD_SPEED_FG, wind, CLOUD_WIND_FACTOR_FG)
  }

  /** The background layer's step: 60% of the foreground's base speed, and a weaker push. */
  function BgStepD(wind: real): real {
    CloudStep(BASE_CLOUD_SPEED_FG * BASE_CLOUD_SPEED_BG_FACTOR, wind, CLOUD_WIND_FACTOR_BG)
  }

  /** A layer drifted by any step keeps its clouds on the layer's rows. */
  lemma DriftLayerDOk(cs: seq<CloudV>, width: int, sah: int, isFg: bool, step: real, ky: nat -> nat)
    requires sah >= 1 && LayerOk(cs, sah, isFg)
    ensures LayerOk(DriftLayerD(cs, width, LayerRows(sah, isFg).0, LayerRows(sah, isFg).1, step, ky), sah, isFg)
  {
    var r := DriftLayerD(cs, width, LayerRows(sah, isFg).0, LayerRows(sah, isFg).1, step, ky);
    forall c | c in r ensures CloudOk(c, sah, isFg) {
      var i :| 0 <= i < |r| && r[i] == c;
      assert CloudOk(cs[i], sah, isFg) by {
        assert cs[i] in cs;
      }
    }
  }

  /** Both layers drifted keep the world well formed. */
  lemma CloudsOk(w: World, fg: nat -> nat, bg: nat -> nat)
    requires WorldOk(w)
    ensures WorldOk(w.(fg := DriftLayerD(w.fg, w.width, w.sah / 6, w.sah / 3, FgStepD(w.wind), fg),
                       bg := DriftLayerD(w.bg, w.width, 0, w.sah / 5, BgStepD(w.wind), bg)))
  {
    DriftLayerDOk(w.fg, w.width, w.sah, true, FgStepD(w.wind), fg);
    DriftLayerDOk(w.bg, w.width, w.sah, false, BgStepD(w.wind), bg);
  }

  /** `update_all_clouds`: the foreground layer wraps onto rows [sah/6, sah/3], the
      background layer onto rows [0, sah/5]; cloud `i` of a layer draws its row from
      `fg(i)` or `bg(i)`. Nothing else changes. */
  method UpdateAllClouds(w: World, fg: nat -> nat, bg: nat -> nat) returns (h: World)
    requires WorldOk(w)
    ensures WorldOk(h)
    ensures h == w.(fg := DriftLayerD(w.fg, w.width, w.sah / 6, w.sah / 3, FgStepD(w.wind), fg),
                    bg := DriftLayerD(w.bg, w.width, 0, w.sah / 5, BgStepD(w.wind), bg))
  {
    var newFg := UpdateCloudsLayer(w.fg, w.width, w.sah / 6, w.sah / 3, BASE_CLOUD_SPEED_FG, w.wind, CLOUD_WIND_FACTOR_FG, fg);
    var newBg := UpdateCloudsLayer(w.bg, w.width, 0, w.sah / 5, BASE_CLOUD_SPEED_FG * BASE_CLOUD_SPEED_BG_FACTOR, w.wind, CLOUD_WIND_FACTOR_BG, bg);
    CloudsOk(w, fg, bg);
    h := w.(fg := newFg, bg := newBg);
  }
}
