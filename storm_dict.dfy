/** app/storm.py: the storm on dictionaries. Raindrops and clouds are dict records in
    lists, the puddles a dict keyed by column, and every step a module-level function
    over the module globals. This module holds the records, the per-record rules, and
    the frame steps for the storm parameters, the rain, the puddles and the clouds. */
module StormDict {
  import opened PyNum
  import opened PySort
  import opened PyStr
  import opened StormConfig
  import opened StormCommon
  import opened Storm1

  /** A raindrop dict `{'x': float, 'y': int, 'char': str}`. */
  datatype Drop = Drop(x: real, y: int, glyph: char)

  /** A reset may bring the drop in from the side the wind blows from: only in wind
      stronger than `RAIN_SIDE_ORIGIN_THRESHOLD`, and then when the 70% chance comes up. */
  predicate FromSide(w: real, side: bool) {
    Abs(w) > RAIN_SIDE_ORIGIN_THRESHOLD && side
  }

  /** `reset_drop_position` on a screen `width` columns wide over a storm area `sah` rows
      high, in wind `w`. The drop keeps its glyph and lands on a whole column. */
  function ResetDrop(v: Drop, width: int, sah: int, w: real, d: ResetDraw): (r: Drop)
    requires width >= 1 && sah >= 1
    ensures r.glyph == v.glyph && r.x == r.x.Floor as real
    ensures FromSide(w, d.side) ==> 0 <= r.y <= sah - 1
    ensures FromSide(w, d.side) && w > 0.0 ==> (-Trunc(Abs(w)) - 3) as real <= r.x <= -1.0
    ensures FromSide(w, d.side) && w <= 0.0 ==> width as real <= r.x <= (width + Trunc(Abs(w)) + 2) as real
    ensures !FromSide(w, d.side) ==> r.y == 0 && 0.0 <= r.x <= (width - 1) as real
  {
    if FromSide(w, d.side) then
      var y := Pick(0, sah - 1, d.ky);
      if w > 0.0 then v.(x := Pick(-Trunc(Abs(w)) - 3, -1, d.kx) as real, y := y)
      else v.(x := Pick(width, width + Trunc(Abs(w)) + 2, d.kx) as real, y := y)
    else v.(x := Pick(0, width - 1, d.kx) as real, y := 0)
  }

  /** One drop of the loop of `update_rain_and_splashes`: it falls a row, drifts with the
      wind `w` and takes the glyph `c`. On reaching the splash line it reports its rounded
      column and resets; outside the band (-1, width + 1) it resets without a report. */
  function FallD(v: Drop, width: int, sah: int, splashLine: int, w: real, c: char, d: ResetDraw): (r: (Option<int>, Drop))
    requires width >= 1 && sah >= 1
    ensures r.0.Some? <==> v.y + 1 >= splashLine
    ensures r.0.Some? ==> -0.5 <= r.0.value as real - (v.x + w) <= 0.5
    ensures r.0.Some? || !(-1.0 < v.x + w < (width + 1) as real) ==> r.1 == ResetDrop(Drop(v.x + w, v.y + 1, c), width, sah, w, d)
    ensures r.0.None? && -1.0 < v.x + w < (width + 1) as real ==> r.1 == Drop(v.x + w, v.y + 1, c)
  {
    var moved := Drop(v.x + w, v.y + 1, c);
    if moved.y >= splashLine then (Some(Round(moved.x)), ResetDrop(moved, width, sah, w, d))
    else if !(-1.0 < moved.x < (width + 1) as real) then (None, ResetDrop(moved, width, sah, w, d))
    else (None, moved)
  }

  // ---------------------------------------------------------------- the puddle dict

  /** The cap on a dict puddle's intensity, `PUDDLE_MAX_INTENSITY + 0.9`. */
  const DICT_CAP: real := PUDDLE_MAX_INTENSITY as real + 0.9

  /** One value of the puddle dict, `{'intensity': float, 'width': int, 'base_x': int}`. */
  datatype PuddleD = PuddleD(intensity: real, width: int, baseX: int)

  /** A Python dict from column to puddle: its keys in insertion order, and the entries. */
  datatype Pool = Pool(keys: seq<int>, at: map<int, PuddleD>)

  /** Each key listed once, and the listed keys are the keys of the entries. */
  predicate PoolOk(p: Pool) {
    Distinct(p.keys) && (forall k :: k in p.keys ==> k in p.at) && (forall k :: k in p.at ==> k in p.keys)
  }

  /** What every puddle of the dict keeps: it sits at its own key, is between one column
      and `PUDDLE_MAX_WIDTH_PER_POINT` columns wide, and holds some water, no more than
      the cap. */
  predicate PuddlesOk(p: Pool) {
    && PoolOk(p)
    && forall k :: k in p.at ==>
         p.at[k].baseX == k && 1 <= p.at[k].width <= PUDDLE_MAX_WIDTH_PER_POINT && 0.0 < p.at[k].intensity <= DICT_CAP
  }

  /** The water a splash brings to column `x`: `puddles[x]` is first created empty, one
      column wide at `x`, when it is missing, and then gains `PUDDLE_FORMATION_PER_SPLASH`
      up to the cap. A new key goes to the end of the dict; no other entry changes. */
  function Splashed(p: Pool, x: int): (r: Pool)
    requires PoolOk(p)
    ensures PoolOk(r)
    ensures r.keys == if x in p.at then p.keys else p.keys + [x]
    ensures x !in p.at ==> r.at[x] == PuddleD(PUDDLE_FORMATION_PER_SPLASH, 1, x)
    ensures x in p.at ==> r.at[x] == p.at[x].(intensity := MinR(DICT_CAP, p.at[x].intensity + PUDDLE_FORMATION_PER_SPLASH))
    ensures forall k :: k in p.at && k != x ==> k in r.at && r.at[k] == p.at[k]
  {
    var was := if x in p.at then p.at[x] else PuddleD(0.0, 1, x);
    var at := p.at[x := was.(intensity := MinR(DICT_CAP, was.intensity + PUDDLE_FORMATION_PER_SPLASH))];
    if x in p.at then Pool(p.keys, at)
    else
      DistinctAppend(p.keys, x);
      Pool(p.keys + [x], at)
  }

  /** The splashes at the columns `xs`, in order, poured into the dict. */
  function Soak(p: Pool, xs: seq<int>): (r: Pool)
    requires PoolOk(p)
    ensures PoolOk(r)
  {
    if xs == [] then p else Splashed(Soak(p, xs[..|xs| - 1]), xs[|xs| - 1])
  }

  /** One more splash column. */
  lemma SoakSnoc(p: Pool, xs: seq<int>, x: int)
    requires PoolOk(p)
    ensures Soak(p, xs + [x]) == Splashed(Soak(p, xs), x)
  {
    assert (xs + [x])[..|xs|] == xs;
  }

  /** After the splashes the dict has a key for every old key and every splash column and
      no other; the old keys keep their places at the front, and a column no splash hit
      keeps its puddle. */
  lemma {:induction false} SoakKeys(p: Pool, xs: seq<int>)
    requires PoolOk(p)
    ensures var r := Soak(p, xs);
      && (forall k :: k in r.at <==> k in p.at || k in xs)
      && |r.keys| >= |p.keys| && r.keys[..|p.keys|] == p.keys
      && (forall k :: k in p.at && k !in xs ==> r.at[k] == p.at[k])
  {
    if xs != [] {
      var init := xs[..|xs| - 1];
      var x := xs[|xs| - 1];
      assert xs == init + [x];
      SoakKeys(p, init);
      var q := Soak(p, init);
      if x !in q.at {
        assert (q.keys + [x])[..|p.keys|] == q.keys[..|p.keys|];
      }
    }
  }

  /** How many of the splashes hit column `x`. */
  function Hits(xs: seq<int>, x: int): nat {
    multiset(xs)[x]
  }

  /** Each splash at a column adds `PUDDLE_FORMATION_PER_SPLASH`, up to the cap: after
      `n >= 1` splashes at `x` the puddle there holds the cap or its old water (none, for a
      new puddle) plus `n` portions, whichever is less. */
  lemma {:induction false} SoakIntensity(p: Pool, xs: seq<int>, x: int)
    requires PoolOk(p) && Hits(xs, x) >= 1
    ensures x in Soak(p, xs).at
    ensures Soak(p, xs).at[x].intensity
         == MinR(DICT_CAP, (if x in p.at then p.at[x].intensity else 0.0) + PUDDLE_FORMATION_PER_SPLASH * Hits(xs, x) as real)
  {
    var init := xs[..|xs| - 1];
    var y := xs[|xs| - 1];
    assert xs == init + [y];
    assert multiset(xs) == multiset(init) + multiset{y};
    var base := if x in p.at then p.at[x].intensity else 0.0;
    if y != x {
      assert Hits(init, x) == Hits(xs, x);
      SoakIntensity(p, init, x);
    } else if Hits(init, x) == 0 {
      SoakKeys(p, init);
      assert Hits(xs, x) == 1;
      if x in p.at {
        assert Soak(p, init).at[x] == p.at[x];
      }
    } else {
      SoakIntensity(p, init, x);
      var before := Soak(p, init).at[x].intensity;
      assert before == MinR(DICT_CAP, base + PUDDLE_FORMATION_PER_SPLASH * Hits(init, x) as real);
      assert Hits(xs, x) as real == Hits(init, x) as real + 1.0;
    }
  }

  /** Splashes on the screen keep the dict's puddles well formed, provided the dict held
      nothing out of range; a splash never lands outside the screen, so no key does. */
  lemma {:induction false} SoakOk(p: Pool, xs: seq<int>)
    requires PuddlesOk(p)
    ensures PuddlesOk(Soak(p, xs))
  {
    if xs != [] {
      SoakOk(p, xs[..|xs| - 1]);
    }
  }

  // ---------------------------------------------------------------- evaporation

  /** A puddle's water after one frame of evaporation under storm intensity `s`: the
      calmer the storm, the faster it dries. */
  function Evaporated(i: real, s: real): (e: real)
    requires 0.0 <= s <= 1.0
    ensures e < i
  {
    i - PUDDLE_EVAPORATION_RATE * (1.5 - s)
  }

  /** The width `update_puddles` gives a puddle holding `i`: one column up to the spread
      threshold, then one more per threshold's worth of water, at most
      `PUDDLE_MAX_WIDTH_PER_POINT`. */
  function SpreadWidth(i: real): (wd: int)
    requires i > 0.0
    ensures 1 <= wd <= PUDDLE_MAX_WIDTH_PER_POINT
    ensures i <= PUDDLE_SPREAD_THRESHOLD ==> wd == 1
    ensures i > PUDDLE_SPREAD_THRESHOLD ==> wd == Min(PUDDLE_MAX_WIDTH_PER_POINT, 1 + Trunc(i / PUDDLE_SPREAD_THRESHOLD))
  {
    if i > PUDDLE_SPREAD_THRESHOLD then Min(PUDDLE_MAX_WIDTH_PER_POINT, 1 + Trunc(i / PUDDLE_SPREAD_THRESHOLD)) else 1
  }

  /** A puddle is kept exactly when water is left after evaporation. */
  predicate Lasts(e: PuddleD, s: real)
    requires 0.0 <= s <= 1.0
  {
    Evaporated(e.intensity, s) > 0.0
  }

  /** The kept puddle: the water left and the width it spreads to, at the same column. */
  function Dried(e: PuddleD, s: real): (r: PuddleD)
    requires 0.0 <= s <= 1.0 && Lasts(e, s)
  {
    var i := Evaporated(e.intensity, s);
    PuddleD(i, SpreadWidth(i), e.baseX)
  }

  /** The loop of `update_puddles` visiting the keys `order` of the dict `p`: a new dict
      that gets, in visiting order, each visited puddle that keeps some water. */
  function Dry(p: Pool, order: seq<int>, s: real): (r: Pool)
    requires PoolOk(p) && Distinct(order) && (forall k :: k in order ==> k in p.at) && 0.0 <= s <= 1.0
    ensures PoolOk(r)
    ensures forall k :: k in r.at <==> k in order && Lasts(p.at[k], s)
  {
    if order == [] then Pool([], map[])
    else
      var init := order[..|order| - 1];
      var k := order[|order| - 1];
      assert order == init + [k];
      assert Distinct(init);
      var r := Dry(p, init, s);
      if Lasts(p.at[k], s) then
        DistinctAppend(r.keys, k);
        Pool(r.keys + [k], r.at[k := Dried(p.at[k], s)])
      else r
  }

  /** `update_puddles` merges nothing and moves nothing: the new dict lists exactly the
      visited keys whose puddle keeps water, in visiting order, and each of them holds the
      evaporated water of its own old puddle, spread to its width. */
  lemma {:induction false} DryEntries(p: Pool, order: seq<int>, s: real)
    requires PoolOk(p) && Distinct(order) && (forall k :: k in order ==> k in p.at) && 0.0 <= s <= 1.0
    ensures Dry(p, order, s).keys == Filter(order, k => k in p.at && Lasts(p.at[k], s))
    ensures forall k :: k in Dry(p, order, s).at ==> Dry(p, order, s).at[k] == Dried(p.at[k], s)
  {
    if order != [] {
      var init := order[..|order| - 1];
      var k := order[|order| - 1];
      assert order == init + [k];
      assert Distinct(init);
      DryEntries(p, init, s);
      var keep := k => k in p.at && Lasts(p.at[k], s);
      FilterAppend(init, [k], keep);
      assert Filter([k], keep) == if keep(k) then [k] else [];
      var r := Dry(p, init, s);
      assert Dry(p, order, s) == if Lasts(p.at[k], s) then Pool(r.keys + [k], r.at[k := Dried(p.at[k], s)]) else r;
    }
  }

  /** The puddles `update_puddles` keeps are well formed: every survivor holds some water
      and at most what it had, and its width follows its water. */
  lemma DryOk(p: Pool, order: seq<int>, s: real)
    requires PuddlesOk(p) && Distinct(order) && (forall k :: k in order ==> k in p.at) && 0.0 <= s <= 1.0
    ensures PuddlesOk(Dry(p, order, s))
  {
    DryEntries(p, order, s);
  }

  // ---------------------------------------------------------------- clouds

  /** `update_clouds_layer` on one cloud dict. The cloud moves by `step`; once its
      rounded column reaches the right edge it restarts its own width left of the
      screen, once its right end passes the left edge it restarts in the last column,
      and either way it takes a row drawn from [minY, hi]. */
  function DriftD(c: CloudV, width: int, minY: int, hi: int, step: real, ky: nat): (r: CloudV)
    requires minY <= hi
    ensures r.width == c.width && r.repr == c.repr
    ensures Round(c.x + step) >= width ==> r.x == -(c.width as real) && minY <= r.y <= hi
    ensures Round(c.x + step) < width && Round(c.x + step) + c.width < 0 ==> r.x == (width - 1) as real && minY <= r.y <= hi
    ensures Round(c.x + step) < width && Round(c.x + step) + c.width >= 0 ==> r == c.(x := c.x + step)
  {
    var x := c.x + step;
    var ix := Round(x);
    if ix >= width then c.(x := -(c.width as real), y := Pick(minY, hi, ky))
    else if ix + c.width < 0 then c.(x := (width - 1) as real, y := Pick(minY, hi, ky))
    else c.(x := x)
  }

  /** Every cloud of a layer, cloud `i` drawing `ky(i)`. */
  function DriftLayerD(cs: seq<CloudV>, width: int, minY: int, hi: int, step: real, ky: nat -> nat): (r: seq<CloudV>)
    requires minY <= hi
    ensures |r| == |cs| && forall i :: 0 <= i < |cs| ==> r[i] == DriftD(cs[i], width, minY, hi, step, ky(i))
  {
    seq(|cs|, i requires 0 <= i < |cs| => DriftD(cs[i], width, minY, hi, step, ky(i)))
  }

  /** The loop of `update_clouds_layer`: each cloud moves by the layer's step, the base
      speed signed by the wind's direction plus the wind times the layer's factor. */
  method UpdateCloudsLayer(cs: seq<CloudV>, width: int, minY: int, hi: int, base: real, wind: real, factor: real, ky: nat -> nat)
    returns (r: seq<CloudV>)
    requires minY <= hi
    ensures r == DriftLayerD(cs, width, minY, hi, CloudStep(base, wind, factor), ky)
  {
    r := cs;
    for i := 0 to |cs|
      invariant |r| == |cs|
      invariant forall j :: 0 <= j < i ==> r[j] == DriftD(cs[j], width, minY, hi, CloudStep(base, wind, factor), ky(j))
      invariant forall j :: i <= j < |cs| ==> r[j] == cs[j]
    {
      var modifier := wind * factor;
      var c := r[i];
      var x := c.x + (base * (if wind >= 0.0 then 1.0 else -1.0) + modifier);
      var ix := Round(x);
      if ix >= width {
        c := c.(x := -(c.width as real), y := Pick(minY, hi, ky(i)));
      } else if ix + c.width < 0 {
        c := c.(x := (width - 1) as real, y := Pick(minY, hi, ky(i)));
      } else {
        c := c.(x := x);
      }
      r := r[i := c];
    }
  }

  /** The draws of one cloud of `initialize_global_structures`: its width, column and row. */
  datatype CloudInitD = CloudInitD(kw: nat, kx: nat, ky: nat)

  /** A new cloud dict: a width from [minW, maxW], that many cloud glyphs, a column from
      [-width, width_of_screen - 1] and a row from [lo, hi]. */
  function NewCloudD(minW: int, maxW: int, width: int, lo: int, hi: int, d: CloudInitD): (c: CloudV)
    requires 1 <= minW <= maxW && width >= 0 && lo <= hi
    ensures minW <= c.width <= maxW && c.repr == Repeat(CLOUD_CHAR, c.width)
    ensures -(c.width as real) <= c.x <= (width - 1) as real && lo <= c.y <= hi
  {
    var cw := Pick(minW, maxW, d.kw);
    CloudV(Pick(-cw, width - 1, d.kx) as real, Pick(lo, hi, d.ky), cw, Repeat(CLOUD_CHAR, cw))
  }

  /** One layer of `initialize_global_structures`: `n` clouds, cloud `i` drawing `ds(i)`. */
  method MakeLayer(n: nat, minW: int, maxW: int, width: int, lo: int, hi: int, ds: nat -> CloudInitD) returns (r: seq<CloudV>)
    requires 1 <= minW <= maxW && width >= 0 && lo <= hi
    ensures |r| == n && forall i :: 0 <= i < n ==> r[i] == NewCloudD(minW, maxW, width, lo, hi, ds(i))
  {
    r := [];
    for i := 0 to n
      invariant |r| == i && forall j :: 0 <= j < i ==> r[j] == NewCloudD(minW, maxW, width, lo, hi, ds(j))
    {
      var cw := Pick(minW, maxW, ds(i).kw);
      r := r + [CloudV(Pick(-cw, width - 1, ds(i).kx) as real, Pick(lo, hi, ds(i).ky), cw, Repeat(CLOUD_CHAR, cw))];
    }
  }

  // ---------------------------------------------------------------- the globals

  /** The lightning globals: the flicker, rumble and flash countdowns, the bolt paths on
      show and the rumble caption. */
  datatype Sky = Sky(flicker: nat, bolts: seq<seq<(int, int)>>, rumble: nat, rumbleText: string, flash: nat)

  /** The module globals of app/storm.py. The terminal's size and the rows derived from
      it are fixed at start-up; the per-frame functions take the globals and give back
      the globals they leave. */
  datatype World = World(width: int, height: int, rumbleLine: int, splashLine: int, sah: int,
                         drops: seq<Drop>, fg: seq<CloudV>, bg: seq<CloudV>, splashes: seq<Effect>,
                         puddles: Pool, intensity: real, wind: real, rainChar: char, target: int, sky: Sky)

  /** The rows a layer's clouds are drawn on: the foreground from a sixth to a third of the
      storm area, the background from the top to a fifth. */
  function LayerRows(sah: int, isFg: bool): (r: (int, int))
    requires sah >= 1
    ensures 0 <= r.0 <= r.1 < sah
  {
    if isFg then (sah / 6, sah / 3) else (0, sah / 5)
  }

  /** A cloud of a layer is on the layer's rows and shows one glyph per column of width. */
  predicate CloudOk(c: CloudV, sah: int, isFg: bool)
    requires sah >= 1
  {
    c.width >= 1 && |c.repr| == c.width && LayerRows(sah, isFg).0 <= c.y <= LayerRows(sah, isFg).1
  }

  /** Every cloud of a layer is well placed. */
  predicate LayerOk(cs: seq<CloudV>, sah: int, isFg: bool)
    requires sah >= 1
  {
    forall c :: c in cs ==> CloudOk(c, sah, isFg)
  }

  /** What every per-frame function keeps: the geometry (a terminal of at least three
      rows, as the first frame's `randint(0, STORM_AREA_HEIGHT - 1)` needs), an intensity
      in [0, 1], clouds on the storm area's rows and a well-formed puddle dict. */
  predicate WorldOk(w: World) {
    && w.width >= 1 && w.height >= 3 && w.rumbleLine == w.height - 1 && w.splashLine == w.height - 2 && w.sah == w.height - 2
    && 0.0 <= w.intensity <= 1.0
    && LayerOk(w.fg, w.sah, true) && LayerOk(w.bg, w.sah, false)
    && PuddlesOk(w.puddles)
  }

  /** `initialize_global_structures` for a terminal of `width` columns and `height` rows:
      empty lists and dict, quiet timers, and the two cloud layers; foreground cloud `i`
      draws `fg(i)`, background cloud `i` draws `bg(i)`. Below two rows the storm area is
      negative, the background rows `randint(0, STORM_AREA_HEIGHT // 5)` form an empty
      range and the call raises (`None`). A terminal of two rows or of no columns starts,
      but the world is not well formed: `FirstParamsRaises` shows the next call raising. */
  method InitializeGlobalStructures(width: nat, height: nat, fg: nat -> CloudInitD, bg: nat -> CloudInitD) returns (r: Option<World>)
    ensures r.None? <==> height < 2
    ensures r.Some? ==> (WorldOk(r.value) <==> width >= 1 && height >= 3)
    ensures r.Some? ==> var w := r.value;
      && w.width == width && w.height == height && w.sah == height - 2
      && w.drops == [] && w.splashes == [] && w.puddles == Pool([], map[])
      && w.sky == Sky(0, [], 0, "", 0) && w.intensity == 0.0 && w.wind == 0.0 && w.target == MIN_RAINDROPS
      && |w.fg| == NUM_CLOUDS_FG && |w.bg| == NUM_CLOUDS_BG
      && (forall i :: 0 <= i < |w.fg| ==> w.fg[i] == NewCloudD(CLOUD_MIN_WIDTH, CLOUD_MAX_WIDTH, width, (height - 2) / 6, (height - 2) / 3, fg(i)))
      && (forall i :: 0 <= i < |w.bg| ==> w.bg[i] == NewCloudD(CLOUD_MIN_WIDTH - 1, CLOUD_MAX_WIDTH - 2, width, 0, (height - 2) / 5, bg(i)))
  {
    var sah := height - 2;
    var fgs := MakeLayer(NUM_CLOUDS_FG, CLOUD_MIN_WIDTH, CLOUD_MAX_WIDTH, width, sah / 6, sah / 3, fg);
    if sah / 5 < 0 {
      r := None;
      return;
    }
    var bgs := MakeLayer(NUM_CLOUDS_BG, CLOUD_MIN_WIDTH - 1, CLOUD_MAX_WIDTH - 2, width, 0, sah / 5, bg);
    var w := World(width, height, height - 1, height - 2, sah, [], fgs, bgs, [], Pool([], map[]),
                   0.0, 0.0, '|', MIN_RAINDROPS, Sky(0, [], 0, "", 0));
    r := Some(w);
  }

  /** The first `update_storm_parameters` after start-up on a terminal of two rows or of no
      columns: the drop list is empty and the target at least `MIN_RAINDROPS`, so the
      spawning loop runs and its first drop draws `randint(0, WIDTH - 1)` and
      `randint(0, STORM_AREA_HEIGHT - 1)`, one of which is an empty range, and the call
      raises. */
  lemma FirstParamsRaises(w: World, s: real)
    requires w.drops == [] && w.sah == w.height - 2 && w.height >= 2
    requires w.width < 1 || w.height < 3
    requires 0.0 <= s <= 1.0
    ensures |w.drops| < TargetDrops(s)
    ensures 0 > w.width - 1 || 0 > w.sah - 1
  {
  }

  // ---------------------------------------------------------------- storm parameters

  /** The draws of one new drop of `update_storm_parameters`: its column and row. */
  datatype SpawnD = SpawnD(kx: nat, ky: nat)

  /** A drop added to reach the target: anywhere on the storm area, in glyph `c`. */
  function Spawned(width: int, sah: int, c: char, d: SpawnD): (v: Drop)
    requires width >= 1 && sah >= 1
    ensures 0.0 <= v.x <= (width - 1) as real && 0 <= v.y <= sah - 1 && v.glyph == c
  {
    Drop(Pick(0, width - 1, d.kx) as real, Pick(0, sah - 1, d.ky), c)
  }

  /** The first `n` spawned drops, drop `i` drawing `ds(i)`. */
  function Spawns(width: int, sah: int, c: char, ds: nat -> SpawnD, n: nat): (r: seq<Drop>)
    requires width >= 1 && sah >= 1
    ensures |r| == n && forall i :: 0 <= i < n ==> r[i] == Spawned(width, sah, c, ds(i))
  {
    if n == 0 then [] else Spawns(width, sah, c, ds, n - 1) + [Spawned(width, sah, c, ds(n - 1))]
  }

  /** The drop list brought to exactly `n` drops: spawns appended when it is short, drops
      at drawn indices popped when it is long. */
  function Resized(vs: seq<Drop>, n: nat, width: int, sah: int, c: char, spawn: nat -> SpawnD, removals: nat -> nat): (r: seq<Drop>)
    requires width >= 1 && sah >= 1
    ensures |r| == n
    ensures |vs| <= n ==> r[..|vs|] == vs
    ensures |vs| >= n ==> multiset(r) <= multiset(vs)
  {
    if |vs| < n then vs + Spawns(width, sah, c, spawn, n - |vs|) else Shrink(vs, n, removals, 0)
  }

  /** `update_storm_parameters` for the storm intensity `s` (the program's
      `(sin(angle) + 1) / 2`) and the gust `gust`: the wind is the base drift plus the
      gust, the rain glyph follows the wind, the target follows the intensity, and the
      drop list is grown or shrunk to exactly the target. Nothing else changes. */
  method UpdateStormParameters(w: World, s: real, gust: real, spawn: nat -> SpawnD, removals: nat -> nat) returns (h: World)
    requires WorldOk(w)
    requires 0.0 <= s <= 1.0 && Abs(gust) <= STORM_GUST_FACTOR * (MAX_WIND_DRIFT_BASE * s)
    ensures WorldOk(h)
    ensures h == w.(intensity := s, wind := WindFor(s, gust), rainChar := RainCharForWind(WindFor(s, gust)), target := TargetDrops(s),
                    drops := Resized(w.drops, TargetDrops(s), w.width, w.sah, RainCharForWind(WindFor(s, gust)), spawn, removals))
    ensures |h.drops| == h.target && MIN_RAINDROPS <= h.target <= MAX_RAINDROPS
  {
    var wind := WindFor(s, gust);
    var c := RainCharForWind(wind);
    var target := TargetDrops(s);
    var drops := ResizeDrops(w.drops, target, w.width, w.sah, c, spawn, removals);
    h := w.(intensity := s, wind := wind, rainChar := c, target := target, drops := drops);
  }

  /** The two loops of `update_storm_parameters` that bring the drop list `vs` to
      `target` drops: a new drop in glyph `c` appended while it is short, the drop at a
      drawn index popped while it is long. */
  method ResizeDrops(vs: seq<Drop>, target: nat, width: int, sah: int, c: char, spawn: nat -> SpawnD, removals: nat -> nat)
    returns (drops: seq<Drop>)
    requires width >= 1 && sah >= 1
    ensures drops == Resized(vs, target, width, sah, c, spawn, removals)
  {
    drops := SpawnDrops(vs, target, width, sah, c, spawn);
    drops := PopDrawn(drops, target, removals);
  }

  /** The appending loop: spawned drops in glyph `c` while the list is short of `target`. */
  method SpawnDrops(vs: seq<Drop>, target: nat, width: int, sah: int, c: char, spawn: nat -> SpawnD)
    returns (drops: seq<Drop>)
    requires width >= 1 && sah >= 1
    ensures |vs| <= target ==> drops == vs + Spawns(width, sah, c, spawn, target - |vs|)
    ensures |vs| > target ==> drops == vs
  {
    drops := vs;
    var n0 := |drops|;
    while |drops| < target
      invariant n0 <= target ==> n0 <= |drops| <= target && drops == vs + Spawns(width, sah, c, spawn, |drops| - n0)
      invariant n0 > target ==> drops == vs
      decreases target - |drops|
    {
      drops := drops + [Spawned(width, sah, c, spawn(|drops| - n0))];
    }
  }
}
