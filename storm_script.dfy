/** scripts/bin/storm.py: the dict-based storm of app/storm.py with its own rain glyph
    rule, splashes aged by filtering first and decrementing after, puddles evaporated in
    dict order rather than sorted order, a guarded cloud row divisor and a white flash.
    What it shares with app/storm.py (the drop fall and reset, the dict puddles, the
    cloud drift, the scene) is modelled once, in StormDict, StormDictFrame and
    StormDictDraw. */
module StormScript {
  import opened PyNum
  import opened PySort
  import opened StormConfig
  import opened StormCommon
  import opened Screen
  import opened Storm1
  import opened StormDict
  import F = StormDictFrame
  import Draw = StormDictDraw

  /** The flash colour of scripts/bin/storm.py's `draw_scene`: a white background. */
  const SCRIPT_FLASH: string := "\U{1B}[47m"

  // ---------------------------------------------------------------- rain glyph

  /** `get_rain_char_for_wind`: five tests, three outcomes. A drop leans with the wind only
      once the wind is stronger than 0.5 either way. */
  function ScriptRainChar(w: real): (c: char)
    ensures c == '/' <==> w > 0.5
    ensures c == '\\' <==> w < -0.5
    ensures c == '|' <==> -0.5 <= w <= 0.5
  {
    if w > 1.5 then '/'
    else if w < -1.5 then '\\'
    else if w > 0.5 then '/'
    else if w < -0.5 then '\\'
    else '|'
  }

  /** The rule of app/storm.py leans the drop already at a wind of exactly 0.5 either way;
      that is the only place the two rules part. */
  lemma ScriptRainCharVsApp(w: real)
    ensures ScriptRainChar(w) != RainCharForWind(w) <==> w == 0.5 || w == -0.5
    ensures w == 0.5 ==> ScriptRainChar(w) == '|' && RainCharForWind(w) == '/'
  {
  }

  // ---------------------------------------------------------------- storm parameters

  /** `update_storm_parameters` for the storm intensity `s` and the gust `gust`: as in
      app/storm.py, but the rain glyph follows the five-test rule. */
  method UpdateStormParameters(w: World, s: real, gust: real, spawn: nat -> SpawnD, removals: nat -> nat) returns (h: World)
    requires WorldOk(w)
    requires 0.0 <= s <= 1.0 && Abs(gust) <= STORM_GUST_FACTOR * (MAX_WIND_DRIFT_BASE * s)
    ensures WorldOk(h)
    ensures h == w.(intensity := s, wind := WindFor(s, gust), rainChar := ScriptRainChar(WindFor(s, gust)), target := TargetDrops(s),
                    drops := Resized(w.drops, TargetDrops(s), w.width, w.sah, ScriptRainChar(WindFor(s, gust)), spawn, removals))
    ensures |h.drops| == h.target && MIN_RAINDROPS <= h.target <= MAX_RAINDROPS
  {
    var wind := WindFor(s, gust);
    var c := ScriptRainChar(wind);
    var target := TargetDrops(s);
    var drops := ResizeDrops(w.drops, target, w.width, w.sah, c, spawn, removals);
    h := w.(intensity := s, wind := wind, rainChar := c, target := target, drops := drops);
  }

  // ---------------------------------------------------------------- splashes

  /** A splash stays for the next frame when it has more than one frame left. */
  predicate StillShowing(e: Effect) {
    e.life - 1 > 0
  }

  /** Every effect one frame older. */
  function Older(es: seq<Effect>): (r: seq<Effect>)
    ensures |r| == |es| && forall i :: 0 <= i < |es| ==> r[i] == es[i].(life := es[i].life - 1)
  {
    if es == [] then [] else [es[0].(life := es[0].life - 1)] + Older(es[1..])
  }

  /** Filtering first and decrementing after ages the splashes exactly as decrementing
      first and keeping the live ones does. */
  lemma {:induction false} FilterThenAge(es: seq<Effect>)
    ensures Older(Filter(es, StillShowing)) == AgeEffects(es)
    decreases |es|
  {
    if es != [] {
      FilterThenAge(es[1..]);
      var kept := Filter(es, StillShowing);
      var rest := Filter(es[1..], StillShowing);
      if StillShowing(es[0]) {
        assert kept == [es[0]] + rest;
        assert kept[0] == es[0] && kept[1..] == rest;
        assert Older(kept) == [es[0].(life := es[0].life - 1)] + Older(rest);
      } else {
        assert kept == [] + rest == rest;
      }
    }
  }

  /** The splash ageing of `update_rain_and_splashes`:
      `[s for s in active_splashes if s['life'] - 1 > 0]`, then each survivor's life
      decremented in place. */
  method AgeSplashes(es: seq<Effect>) returns (r: seq<Effect>)
    ensures r == AgeEffects(es)
  {
    var kept: seq<Effect> := [];
    for i := 0 to |es|
      invariant kept == Filter(es[..i], StillShowing)
    {
      assert es[..i + 1] == es[..i] + [es[i]];
      FilterAppend(es[..i], [es[i]], StillShowing);
      assert Filter([es[i]], StillShowing) == if StillShowing(es[i]) then [es[i]] else [];
      if es[i].life - 1 > 0 {
        kept := kept + [es[i]];
      }
    }
    assert es[..|es|] == es;
    r := kept;
    for i := 0 to |r|
      invariant |r| == |kept|
      invariant forall j :: 0 <= j < i ==> r[j] == kept[j].(life := kept[j].life - 1)
      invariant forall j :: i <= j < |r| ==> r[j] == kept[j]
    {
      r := r[i := r[i].(life := r[i].life - 1)];
    }
    FilterThenAge(es);
    assert r == Older(kept);
  }

  // ---------------------------------------------------------------- rain

  /** `update_rain_and_splashes` on the globals `w`, drop `i` resetting with `ds(i)`: the
      drop loop of app/storm.py, then the splashes aged by filtering first. The step is
      the same as app/storm.py's. */
  method UpdateRainAndSplashes(w: World, ds: nat -> ResetDraw) returns (h: World)
    requires WorldOk(w)
    ensures h == F.RainStep(w, ds)
  {
    var drops := w.drops;
    var puddles := w.puddles;
    var active := w.splashes;
    for i := 0 to |drops|
      invariant F.RainSoFar(w, ds, i, drops, puddles, active)
    {
      drops, puddles, active := F.DropFalls(w, ds, i, drops, puddles, active);
    }
    var aged := AgeSplashes(active);
    h := w.(drops := drops, puddles := puddles, splashes := aged);
  }

  // ---------------------------------------------------------------- puddles

  /** `update_puddles` visiting the dict in its own key order. */
  function PuddleStep(w: World): (r: World)
    requires WorldOk(w)
    ensures WorldOk(r)
  {
    DryOk(w.puddles, w.puddles.keys, w.intensity);
    w.(puddles := Dry(w.puddles, w.puddles.keys, w.intensity))
  }

  /** `update_puddles` keeps the dict's order: the new dict lists, in the old order, exactly
      the keys whose puddle keeps water, each holding the evaporated water of its own old
      puddle spread to its width; nothing merges and nothing moves. */
  lemma PuddleStepKeeps(w: World)
    requires WorldOk(w)
    ensures PuddleStep(w).puddles.keys == Filter(w.puddles.keys, k => k in w.puddles.at && Lasts(w.puddles.at[k], w.intensity))
    ensures forall k :: k in PuddleStep(w).puddles.at <==> k in w.puddles.at && Lasts(w.puddles.at[k], w.intensity)
    ensures forall k :: k in PuddleStep(w).puddles.at ==> PuddleStep(w).puddles.at[k] == Dried(w.puddles.at[k], w.intensity)
  {
    DryEntries(w.puddles, w.puddles.keys, w.intensity);
  }

  /** `update_puddles` on the globals `w`: the loop over `puddles.items()`. */
  method UpdatePuddles(w: World) returns (h: World)
    requires WorldOk(w)
    ensures h == PuddleStep(w)
  {
    var newPuddles := Pool([], map[]);
    var keys := w.puddles.keys;
    for i := 0 to |keys|
      invariant Distinct(keys[..i]) && newPuddles == Dry(w.puddles, keys[..i], w.intensity)
    {
      newPuddles := F.Evaporate(w.puddles, keys, i, w.intensity, newPuddles);
    }
    assert keys[..|keys|] == keys;
    h := w.(puddles := newPuddles);
  }

  // ---------------------------------------------------------------- clouds

  /** `update_clouds_layer`: the loop of app/storm.py, with the new row drawn from
      `[min_y_pos, STORM_AREA_HEIGHT // max(1, max_y_divisor)]`. */
  method UpdateCloudsLayer(cs: seq<CloudV>, width: int, sah: int, minY: int, divisor: int, base: real, wind: real, factor: real, ky: nat -> nat)
    returns (r: seq<CloudV>)
    requires minY <= sah / Max(1, divisor)
    ensures r == DriftLayerD(cs, width, minY, sah / Max(1, divisor), CloudStep(base, wind, factor), ky)
  {
    var hi := sah / Max(1, divisor);
    r := StormDict.UpdateCloudsLayer(cs, width, minY, hi, base, wind, factor, ky);
  }

  /** A cloud that wraps around takes a row in `[min_y_pos, sah // max(1, divisor)]`;
      one that does not keeps its row. */
  lemma CloudRows(cs: seq<CloudV>, width: int, sah: int, minY: int, divisor: int, step: real, ky: nat -> nat, i: int)
    requires minY <= sah / Max(1, divisor) && 0 <= i < |cs|
    ensures var c := DriftLayerD(cs, width, minY, sah / Max(1, divisor), step, ky)[i];
      (minY <= c.y <= sah / Max(1, divisor)) || (c.y == cs[i].y && c.x == cs[i].x + step)
  {
  }

  /** `update_all_clouds`: the foreground layer with divisor 3, the background with 5. */
  method UpdateAllClouds(w: World, fg: nat -> nat, bg: nat -> nat) returns (h: World)
    requires WorldOk(w)
    ensures WorldOk(h)
    ensures h == w.(fg := DriftLayerD(w.fg, w.width, w.sah / 6, w.sah / 3, F.FgStepD(w.wind), fg),
                    bg := DriftLayerD(w.bg, w.width, 0, w.sah / 5, F.BgStepD(w.wind), bg))
  {
    var newFg := UpdateCloudsLayer(w.fg, w.width, w.sah, w.sah / 6, 3, BASE_CLOUD_SPEED_FG, w.wind, CLOUD_WIND_FACTOR_FG, fg);
    var newBg := UpdateCloudsLayer(w.bg, w.width, w.sah, 0, 5, BASE_CLOUD_SPEED_FG * BASE_CLOUD_SPEED_BG_FACTOR, w.wind, CLOUD_WIND_FACTOR_BG, bg);
    F.CloudsOk(w, fg, bg);
    h := w.(fg := newFg, bg := newBg);
  }

  // ---------------------------------------------------------------- scene

  /** `draw_scene`: the scene of app/storm.py, flashing white. */
  method DrawScene(w: World) returns (buf: array2<Cell>)
    requires WorldOk(w)
    ensures fresh(buf) && buf.Length0 == w.height && buf.Length1 == w.width
    ensures forall i, j :: 0 <= i < w.height && 0 <= j < w.width ==>
      buf[i, j] == Shown(Draw.BlankD(w, SCRIPT_FLASH), Draw.SceneWritesD(w, SCRIPT_FLASH), j, i)
  {
    buf := Draw.DrawSceneD(w, SCRIPT_FLASH);
  }
}
