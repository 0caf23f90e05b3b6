/** What app/storm1.py and app/stormnew.py share beyond the puddles: the short-lived
    effect records, the bolt record, the storm parameters' arithmetic and the random
    removals that shrink the raindrop list. */
module StormCommon {
  import opened PyNum
  import opened StormConfig

  /** A short-lived effect at one cell: the splash dots and the ground strikes. */
  datatype Effect = Effect(x: int, y: int, life: int)

  /** One entry of `lightning_bolt_paths`. */
  datatype Bolt = Bolt(path: seq<(int, int)>, glyph: char)

  /** `[e for e in effects if e['life'] - 1 > 0]`, each then one frame older. */
  function AgeEffects(es: seq<Effect>): (r: seq<Effect>)
    ensures |r| <= |es|
    ensures forall i :: 0 <= i < |r| ==> r[i].life >= 1
  {
    if es == [] then []
    else (if es[0].life - 1 > 0 then [es[0].(life := es[0].life - 1)] else []) + AgeEffects(es[1..])
  }

  /** An effect is still there after ageing exactly when it had more than one frame left. */
  lemma {:induction false} AgeEffectsMember(es: seq<Effect>, e: Effect)
    ensures e in AgeEffects(es) <==> e.life >= 1 && e.(life := e.life + 1) in es
    decreases |es|
  {
    if es != [] {
      AgeEffectsMember(es[1..], e);
      assert es == [es[0]] + es[1..];
    }
  }

  /** Ageing a list with one more effect at the end: that effect, a frame older, is
      appended when it had more than one frame left. */
  lemma {:induction false} AgeEffectsSnoc(es: seq<Effect>, e: Effect)
    ensures AgeEffects(es + [e]) == AgeEffects(es) + (if e.life - 1 > 0 then [e.(life := e.life - 1)] else [])
    decreases |es|
  {
    if es == [] {
      assert [e][1..] == [];
    } else {
      assert (es + [e])[1..] == es[1..] + [e];
      AgeEffectsSnoc(es[1..], e);
    }
  }

  /** The splash column a fall reports, when it is on the screen. */
  function OnScreen(splash: Option<int>, width: int): (r: seq<int>)
    ensures |r| <= 1 && forall k :: 0 <= k < |r| ==> 0 <= r[k] < width
    ensures |r| == 1 <==> splash.Some? && 0 <= splash.value < width
  {
    if splash.Some? && 0 <= splash.value < width then [splash.value] else []
  }

  /** The splash effects started at the given columns. */
  function SplashesAt(xs: seq<int>, y: int): (r: seq<Effect>)
    ensures |r| == |xs| && forall k :: 0 <= k < |xs| ==> r[k] == Effect(xs[k], y, SPLASH_DURATION_FRAMES)
  {
    if xs == [] then [] else SplashesAt(xs[..|xs| - 1], y) + [Effect(xs[|xs| - 1], y, SPLASH_DURATION_FRAMES)]
  }

  /** One more splash column adds one splash effect at the end. */
  lemma SplashesAtSnoc(xs: seq<int>, x: int, y: int)
    ensures SplashesAt(xs + [x], y) == SplashesAt(xs, y) + [Effect(x, y, SPLASH_DURATION_FRAMES)]
  {
    assert (xs + [x])[..|xs|] == xs;
  }

  /** `int(MIN_RAINDROPS + (MAX_RAINDROPS - MIN_RAINDROPS) * intensity)`. */
  function TargetDrops(s: real): (n: int)
    requires 0.0 <= s <= 1.0
    ensures MIN_RAINDROPS <= n <= MAX_RAINDROPS
    ensures n as real <= MIN_RAINDROPS as real + (MAX_RAINDROPS - MIN_RAINDROPS) as real * s < n as real + 1.0
  {
    Trunc(MIN_RAINDROPS as real + (MAX_RAINDROPS - MIN_RAINDROPS) as real * s)
  }

  /** The wind of `update_storm_parameters`: the base drift `MAX_WIND_DRIFT_BASE * s` plus
      the gust. The program draws the gust as the base drift times `uniform(-g, g)` for the
      gust factor `g`, so it is any value within `g` times the base drift; it is passed here
      as that value. The wind is then never negative and at most the largest base drift
      scaled by `1 + g`. */
  function WindFor(s: real, gust: real): (w: real)
    requires 0.0 <= s <= 1.0 && Abs(gust) <= STORM_GUST_FACTOR * (MAX_WIND_DRIFT_BASE * s)
    ensures 0.0 <= w <= MAX_WIND_DRIFT_BASE * (1.0 + STORM_GUST_FACTOR)
    ensures Abs(w - MAX_WIND_DRIFT_BASE * s) <= STORM_GUST_FACTOR * (MAX_WIND_DRIFT_BASE * s)
  {
    MAX_WIND_DRIFT_BASE * s + gust
  }

  /** `list.pop(i)`. */
  function RemoveAt<T>(s: seq<T>, i: nat): (r: seq<T>)
    requires i < |s|
    ensures |r| == |s| - 1
    ensures multiset(r) + multiset{s[i]} == multiset(s)
  {
    assert s == s[..i] + [s[i]] + s[i + 1..];
    s[..i] + s[i + 1..]
  }

  /** `while len(s) > n: s.pop(random.randrange(len(s)))`, the `j`-th removal drawing `ks(j)`:
      exactly `n` of the elements are left when there were more, nothing is added, and a
      list that is short enough is left alone. */
  function Shrink<T>(s: seq<T>, n: nat, ks: nat -> nat, j: nat): (r: seq<T>)
    ensures |r| == Min(|s|, n)
    ensures multiset(r) <= multiset(s)
    ensures |s| <= n ==> r == s
    decreases |s|
  {
    if |s| <= n then s
    else
      var t := RemoveAt(s, Pick(0, |s| - 1, ks(j)));
      Shrink(t, n, ks, j + 1)
  }

  /** One pass of the popping loop: one drawn element goes, and the rest of the loop starts
      from the next draw. */
  lemma ShrinkStep<T>(s: seq<T>, n: nat, ks: nat -> nat, j: nat)
    requires |s| > n
    ensures Shrink(s, n, ks, j) == Shrink(RemoveAt(s, Pick(0, |s| - 1, ks(j))), n, ks, j + 1)
  {
  }

  /** The popping loop itself: `s.pop(random.randrange(len(s)))` while the list is longer
      than `n`. */
  method PopDrawn<T>(s: seq<T>, n: nat, ks: nat -> nat) returns (r: seq<T>)
    ensures r == Shrink(s, n, ks, 0)
  {
    r := s;
    var j := 0;
    while |r| > n
      invariant Shrink(r, n, ks, j) == Shrink(s, n, ks, 0)
      decreases |r|
    {
      ShrinkStep(r, n, ks, j);
      r := RemoveAt(r, Pick(0, |r| - 1, ks(j)));
      j := j + 1;
    }
  }

  lemma {:induction false} ShrinkKeeps<T>(s: seq<T>, n: nat, ks: nat -> nat, j: nat)
    ensures forall i :: 0 <= i < |Shrink(s, n, ks, j)| ==> Shrink(s, n, ks, j)[i] in s
  {
    var r := Shrink(s, n, ks, j);
    forall i | 0 <= i < |r| ensures r[i] in s {
      assert r[i] in multiset(r);
    }
  }
}
