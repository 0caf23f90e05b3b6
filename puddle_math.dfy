/** The puddle arithmetic that app/storm1.py and app/stormnew.py share: a puddle's span on
    the ground row, evaporation and growth, the mass-weighted merge and the left-to-right
    merge scan. Both programs keep puddles as objects; these are the values of their fields. */
module PuddleMath {
  import opened PyNum
  import opened PySort
  import opened StormConfig

  datatype Disturbance = Disturbance(x: int, life: int)

  datatype PuddleV = PuddleV(baseX: int, intensity: real, width: int, disturbances: seq<Disturbance>)

  /** `get_min_max_x()[0]` / `get_bounds()[0]`: the base column minus half the width, rounded down. */
  function MinX(p: PuddleV): int {
    p.baseX - p.width / 2
  }

  function MaxX(p: PuddleV): int {
    MinX(p) + p.width - 1
  }

  /** `is_coord_inside`. */
  predicate Inside(p: PuddleV, x: int) {
    MinX(p) <= x <= MaxX(p)
  }

  /** The `n` columns starting at `lo`. */
  function Columns(lo: int, n: nat): (c: set<int>)
    ensures forall x :: x in c <==> lo <= x < lo + n
  {
    if n == 0 then {} else Columns(lo, n - 1) + {lo + n - 1}
  }

  lemma {:induction false} ColumnsCard(lo: int, n: nat)
    ensures |Columns(lo, n)| == n
  {
    if n > 0 {
      ColumnsCard(lo, n - 1);
      var c := Columns(lo, n - 1);
      assert lo + n - 1 !in c;
      assert Columns(lo, n) == c + {lo + n - 1};
    }
  }

  /** A puddle covers exactly `width` columns, and they are the ones `Inside` accepts;
      the base column is among them. */
  lemma SpanColumns(p: PuddleV)
    requires p.width >= 1
    ensures |Columns(MinX(p), p.width)| == p.width
    ensures Inside(p, p.baseX)
    ensures forall x :: Inside(p, x) <==> x in Columns(MinX(p), p.width)
  {
    ColumnsCard(MinX(p), p.width);
  }

  /** `Puddle.merge`: one puddle spanning from the leftmost to the rightmost column of the two,
      holding their combined volume `intensity * width` spread over the new width, capped at
      `cap`; `new_width > 0` guards the division as app/storm1.py does. The merged puddle
      starts without disturbances. */
  function Merge(p1: PuddleV, p2: PuddleV, cap: real): (r: PuddleV)
    ensures MinX(r) == Min(MinX(p1), MinX(p2))
    ensures MaxX(r) == Max(MaxX(p1), MaxX(p2))
    ensures r.disturbances == []
    ensures r.intensity <= cap
    ensures p1.width >= 1 ==> r.width >= p1.width
    ensures p2.width >= 1 ==> r.width >= p2.width
    ensures r.width > 0 ==> r.intensity * r.width as real <= Volume(p1) + Volume(p2)
    ensures r.width > 0 ==> r.intensity == cap || r.intensity * r.width as real == Volume(p1) + Volume(p2)
  {
    var lo := Min(MinX(p1), MinX(p2));
    var hi := Max(MaxX(p1), MaxX(p2));
    var nw := hi - lo + 1;
    var vol := Volume(p1) + Volume(p2);
    var avg := if nw > 0 then vol / nw as real else 0.0;
    SpreadVolume(cap, vol, nw);
    PuddleV(lo + nw / 2, MinR(cap, avg), nw, [])
  }

  /** Spreading the volume `vol` over `nw` columns, capped at `cap`, holds at most `vol`,
      and exactly `vol` unless the cap was hit. */
  lemma SpreadVolume(cap: real, vol: real, nw: int)
    ensures nw > 0 ==> MinR(cap, vol / nw as real) * nw as real <= vol
    ensures nw > 0 ==> MinR(cap, vol / nw as real) == cap || MinR(cap, vol / nw as real) * nw as real == vol
  {
    if nw > 0 {
      var avg := vol / nw as real;
      assert avg * nw as real == vol;
      if cap < avg {
        assert cap * nw as real <= avg * nw as real;
      }
    }
  }

  function Volume(p: PuddleV): real {
    p.intensity * p.width as real
  }

  /** Every column of either puddle is a column of the merged one, and the merged puddle
      covers nothing outside the hull of the two spans. */
  lemma MergeSpan(p1: PuddleV, p2: PuddleV, cap: real, x: int)
    ensures Inside(p1, x) || Inside(p2, x) ==> Inside(Merge(p1, p2, cap), x)
    ensures Inside(Merge(p1, p2, cap), x) <==> Min(MinX(p1), MinX(p2)) <= x <= Max(MaxX(p1), MaxX(p2))
  {
  }

  /** Merging puddles that hold water gives a puddle that holds water. */
  lemma MergePositive(p1: PuddleV, p2: PuddleV, cap: real)
    requires p1.width >= 1 && p2.width >= 1
    requires p1.intensity > 0.0 && p2.intensity > 0.0 && cap > 0.0
    ensures Merge(p1, p2, cap).intensity > 0.0
  {
    var r := Merge(p1, p2, cap);
    assert Volume(p1) > 0.0 && Volume(p2) > 0.0;
    if r.intensity != cap {
      assert r.intensity * r.width as real > 0.0;
    }
  }

  /** The running merge of `update_puddles`: `cur` is the puddle being grown; the next puddle
      is merged into it when its left edge is within `dist` of `cur`'s right edge, otherwise
      `cur` is emitted and the next puddle becomes the one being grown. */
  function MergeScan(cur: PuddleV, rest: seq<PuddleV>, dist: int, cap: real): (r: seq<PuddleV>)
    ensures 1 <= |r| <= 1 + |rest|
    decreases |rest|
  {
    if rest == [] then [cur]
    else if MinX(rest[0]) <= MaxX(cur) + dist then MergeScan(Merge(cur, rest[0], cap), rest[1..], dist, cap)
    else [cur] + MergeScan(rest[0], rest[1..], dist, cap)
  }

  function LeftKey(p: PuddleV): Ext {
    Fin(MinX(p))
  }

  /** Later puddles start more than `dist` columns right of where earlier ones end. */
  predicate Separated(r: seq<PuddleV>, dist: int) {
    forall i, j :: 0 <= i < j < |r| ==> MinX(r[j]) > MaxX(r[i]) + dist
  }

  /** Each puddle starts more than `dist` columns right of where its predecessor ends. */
  predicate Gapped(r: seq<PuddleV>, dist: int) {
    forall i :: 0 <= i < |r| - 1 ==> MinX(r[i + 1]) > MaxX(r[i]) + dist
  }

  predicate AllWide(r: seq<PuddleV>) {
    forall i :: 0 <= i < |r| ==> r[i].width >= 1
  }

  predicate AllWet(r: seq<PuddleV>) {
    forall i :: 0 <= i < |r| ==> r[i].intensity > 0.0
  }

  /** The first puddle the scan emits starts where `cur` started, when nothing to be scanned
      starts further left. */
  lemma {:induction false} ScanHead(cur: PuddleV, rest: seq<PuddleV>, dist: int, cap: real)
    requires forall i :: 0 <= i < |rest| ==> MinX(cur) <= MinX(rest[i])
    ensures MinX(MergeScan(cur, rest, dist, cap)[0]) == MinX(cur)
    decreases |rest|
  {
    if rest != [] && MinX(rest[0]) <= MaxX(cur) + dist {
      var m := Merge(cur, rest[0], cap);
      assert MinX(m) == MinX(cur);
      ScanHead(m, rest[1..], dist, cap);
    }
  }

  lemma {:induction false} ScanWide(cur: PuddleV, rest: seq<PuddleV>, dist: int, cap: real)
    requires cur.width >= 1 && AllWide(rest)
    ensures AllWide(MergeScan(cur, rest, dist, cap))
    decreases |rest|
  {
    if rest != [] {
      if MinX(rest[0]) <= MaxX(cur) + dist {
        ScanWide(Merge(cur, rest[0], cap), rest[1..], dist, cap);
      } else {
        ScanWide(rest[0], rest[1..], dist, cap);
      }
    }
  }

  lemma {:induction false} ScanWet(cur: PuddleV, rest: seq<PuddleV>, dist: int, cap: real)
    requires cap > 0.0 && cur.width >= 1 && AllWide(rest)
    requires cur.intensity > 0.0 && AllWet(rest)
    ensures AllWet(MergeScan(cur, rest, dist, cap))
    decreases |rest|
  {
    if rest != [] {
      if MinX(rest[0]) <= MaxX(cur) + dist {
        MergePositive(cur, rest[0], cap);
        ScanWet(Merge(cur, rest[0], cap), rest[1..], dist, cap);
      } else {
        ScanWet(rest[0], rest[1..], dist, cap);
      }
    }
  }

  /** Consecutive puddles of the scan's output are more than `dist` apart when its input is
      sorted by left edge. */
  lemma {:induction false} ScanGaps(cur: PuddleV, rest: seq<PuddleV>, dist: int, cap: real)
    requires SortedBy(rest, LeftKey)
    ensures Gapped(MergeScan(cur, rest, dist, cap), dist)
    decreases |rest|
  {
    if rest != [] {
      if MinX(rest[0]) <= MaxX(cur) + dist {
        var m := Merge(cur, rest[0], cap);
        assert MergeScan(cur, rest, dist, cap) == MergeScan(m, rest[1..], dist, cap);
        SortedTail(rest);
        ScanGaps(m, rest[1..], dist, cap);
      } else {
        SortedTail(rest);
        ScanGaps(rest[0], rest[1..], dist, cap);
        ScanHead(rest[0], rest[1..], dist, cap);
      }
    }
  }

  /** Gaps between neighbours between puddles at least one column wide add up: every later
      puddle is clear of every earlier one. */
  lemma {:induction false} GapsSeparate(r: seq<PuddleV>, dist: int)
    requires dist >= 0 && AllWide(r)
    requires Gapped(r, dist)
    ensures Separated(r, dist)
    decreases |r|
  {
    if |r| > 1 {
      GapsSeparate(r[1..], dist);
      forall j | 1 <= j < |r| ensures MinX(r[j]) > MaxX(r[0]) + dist {
        assert j - 1 < |r[1..]| && r[1..][j - 1] == r[j];
        if j > 1 {
          assert MinX(r[1..][j - 1]) > MaxX(r[1..][0]) + dist;
        }
      }
    }
  }

  /** No column is lost by the scan: each column of each input puddle lies inside some
      output puddle. */
  lemma {:induction false} ScanCovers(cur: PuddleV, rest: seq<PuddleV>, dist: int, cap: real, x: int)
    requires Inside(cur, x) || exists i :: 0 <= i < |rest| && Inside(rest[i], x)
    ensures exists j :: 0 <= j < |MergeScan(cur, rest, dist, cap)| && Inside(MergeScan(cur, rest, dist, cap)[j], x)
    decreases |rest|
  {
    var r := MergeScan(cur, rest, dist, cap);
    if rest == [] {
      assert Inside(r[0], x);
    } else if MinX(rest[0]) <= MaxX(cur) + dist {
      var m := Merge(cur, rest[0], cap);
      MergeSpan(cur, rest[0], cap, x);
      if !Inside(m, x) {
        var i :| 0 <= i < |rest| && Inside(rest[i], x);
        assert i != 0;
        assert Inside(rest[1..][i - 1], x);
      }
      ScanCovers(m, rest[1..], dist, cap, x);
    } else if Inside(cur, x) {
      assert Inside(r[0], x);
    } else {
      var i :| 0 <= i < |rest| && Inside(rest[i], x);
      if i > 0 {
        assert Inside(rest[1..][i - 1], x);
      }
      ScanCovers(rest[0], rest[1..], dist, cap, x);
      var t := MergeScan(rest[0], rest[1..], dist, cap);
      var j :| 0 <= j < |t| && Inside(t[j], x);
      assert r[j + 1] == t[j];
    }
  }

  /** Evaporation: the storm intensity `s` slows it down. */
  function Evaporate(i: real, s: real): (r: real)
    ensures 0.0 <= s <= 1.0 ==> i - 0.03 <= r <= i - 0.01
  {
    i - PUDDLE_EVAPORATION_RATE * (1.5 - s)
  }

  /** Width of a single puddle: 1 up to the spread threshold, then one more column per 1.5 of
      intensity above it, at most `PUDDLE_MAX_WIDTH_PER_POINT`. */
  function WidthFor(i: real): (w: int)
    ensures 1 <= w <= PUDDLE_MAX_WIDTH_PER_POINT
    ensures i <= PUDDLE_SPREAD_THRESHOLD ==> w == 1
  {
    if i > PUDDLE_SPREAD_THRESHOLD then Min(PUDDLE_MAX_WIDTH_PER_POINT, 1 + Trunc((i - PUDDLE_SPREAD_THRESHOLD) / 1.5))
    else 1
  }

  /** More water never makes a puddle narrower; below intensity 5 a puddle is at most two
      columns wide, so under either program's cap (3.99 or 3) a single puddle never reaches
      `PUDDLE_MAX_WIDTH_PER_POINT`, which takes intensity 8. */
  lemma WidthForGrowth(i: real, j: real)
    ensures i <= j ==> WidthFor(i) <= WidthFor(j)
    ensures i < 5.0 ==> WidthFor(i) <= 2
    ensures WidthFor(i) == PUDDLE_MAX_WIDTH_PER_POINT <==> i >= 8.0
  {
    if i > PUDDLE_SPREAD_THRESHOLD && i <= j {
      assert (i - 2.0) / 1.5 <= (j - 2.0) / 1.5;
    }
  }

  /** Disturbances age by one frame; those in their last frame disappear. */
  function AgeDisturbances(ds: seq<Disturbance>): (r: seq<Disturbance>)
    ensures |r| <= |ds|
    ensures forall i :: 0 <= i < |r| ==> r[i].life >= 1
  {
    if ds == [] then []
    else (if ds[0].life > 1 then [Disturbance(ds[0].x, ds[0].life - 1)] else []) + AgeDisturbances(ds[1..])
  }

  /** A disturbance survives ageing exactly when it had more than one frame left. */
  lemma {:induction false} AgeMember(ds: seq<Disturbance>, x: int, life: int)
    ensures Disturbance(x, life) in AgeDisturbances(ds) <==> life >= 1 && Disturbance(x, life + 1) in ds
  {
    if ds != [] {
      AgeMember(ds[1..], x, life);
      assert ds == [ds[0]] + ds[1..];
    }
  }

  /** Whether a puddle is still there after evaporating one frame. */
  predicate Survives(p: PuddleV, s: real) {
    Evaporate(p.intensity, s) > 0.0
  }

  /** A surviving puddle one frame later: evaporated, its disturbances aged, its width
      recomputed from the new intensity. */
  function Evolve(p: PuddleV, s: real): (r: PuddleV)
    ensures r.baseX == p.baseX && r.intensity == Evaporate(p.intensity, s)
    ensures r.width == WidthFor(r.intensity)
    ensures r.disturbances == AgeDisturbances(p.disturbances)
  {
    var i := Evaporate(p.intensity, s);
    PuddleV(p.baseX, i, WidthFor(i), AgeDisturbances(p.disturbances))
  }

  /** The list comprehension `[p for p in puddles if p.update(...)]`, on values. */
  function Survivors(vs: seq<PuddleV>, s: real): (r: seq<PuddleV>)
    ensures |r| <= |vs|
    ensures AllWet(r) && AllWide(r)
  {
    if vs == [] then []
    else (if Survives(vs[0], s) then [Evolve(vs[0], s)] else []) + Survivors(vs[1..], s)
  }

  /** Survivors keep their list order: the ones that evaporate are the ones left out. */
  lemma {:induction false} SurvivorsExact(vs: seq<PuddleV>, s: real, p: PuddleV)
    ensures p in Survivors(vs, s) <==> exists q :: q in vs && Survives(q, s) && p == Evolve(q, s)
  {
    if vs != [] {
      SurvivorsExact(vs[1..], s, p);
      assert vs == [vs[0]] + vs[1..];
      if p in Survivors(vs[1..], s) {
        var q :| q in vs[1..] && Survives(q, s) && p == Evolve(q, s);
        assert q in vs;
      }
    }
  }

  function SortByLeft(vs: seq<PuddleV>): (r: seq<PuddleV>)
    ensures |r| == |vs| && multiset(r) == multiset(vs)
  {
    SortBy(vs, LeftKey)
  }

  /** What `update_puddles` leaves in the puddle list: the survivors, and when there are two
      or more of them, the merge scan of the survivors sorted by left edge. */
  function Tick(vs: seq<PuddleV>, s: real, cap: real): seq<PuddleV> {
    var surv := Survivors(vs, s);
    if |surv| < 2 then surv
    else
      var t := SortByLeft(surv);
      MergeScan(t[0], t[1..], PUDDLE_MERGE_DISTANCE, cap)
  }

  lemma SortedTail(t: seq<PuddleV>)
    requires SortedBy(t, LeftKey) && |t| >= 1
    ensures SortedBy(t[1..], LeftKey)
    ensures forall i :: 0 <= i < |t[1..]| ==> MinX(t[0]) <= MinX(t[1..][i])
  {
    forall i | 0 <= i < |t[1..]| ensures MinX(t[0]) <= MinX(t[1..][i]) {
      assert Le(LeftKey(t[0]), LeftKey(t[i + 1]));
    }
  }

  lemma MultisetAll(a: seq<PuddleV>, b: seq<PuddleV>)
    requires multiset(a) == multiset(b)
    ensures AllWet(a) ==> AllWet(b)
    ensures AllWide(a) ==> AllWide(b)
  {
    forall i | 0 <= i < |b| ensures b[i] in multiset(a) {
      assert b[i] in multiset(b);
    }
    forall i | 0 <= i < |b| ensures b[i] in a {
      assert b[i] in multiset(a);
    }
  }

  /** The scan of a list sorted by left edge whose puddles hold water and are at least one
      column wide yields such puddles again, pairwise clear by more than `dist`. */
  lemma ScanProperties(t: seq<PuddleV>, dist: int, cap: real)
    requires |t| >= 1 && cap > 0.0 && dist >= 0
    requires SortedBy(t, LeftKey) && AllWet(t) && AllWide(t)
    ensures var r := MergeScan(t[0], t[1..], dist, cap);
      AllWet(r) && AllWide(r) && Separated(r, dist)
  {
    var r := MergeScan(t[0], t[1..], dist, cap);
    SortedTail(t);
    assert AllWide(t[1..]) && AllWet(t[1..]) by {
      forall i | 0 <= i < |t[1..]| ensures t[1..][i] == t[i + 1] { }
    }
    ScanWide(t[0], t[1..], dist, cap);
    ScanWet(t[0], t[1..], dist, cap);
    ScanGaps(t[0], t[1..], dist, cap);
    GapsSeparate(r, dist);
  }

  /** The puddle tick: no evaporated puddle remains, the list never grows, every puddle holds
      water and is at least one column wide, puddles are ordered by left edge and each is
      clear of the previous one by more than `PUDDLE_MERGE_DISTANCE` columns. */
  lemma TickProperties(vs: seq<PuddleV>, s: real, cap: real)
    requires cap > 0.0
    ensures |Tick(vs, s, cap)| <= |Survivors(vs, s)| <= |vs|
    ensures AllWet(Tick(vs, s, cap)) && AllWide(Tick(vs, s, cap))
    ensures Separated(Tick(vs, s, cap), PUDDLE_MERGE_DISTANCE)
    ensures SortedBy(Tick(vs, s, cap), LeftKey)
  {
    var surv := Survivors(vs, s);
    if |surv| >= 2 {
      var t := SortByLeft(surv);
      SortBySorted(surv, LeftKey);
      MultisetAll(surv, t);
      ScanProperties(t, PUDDLE_MERGE_DISTANCE, cap);
    }
    SeparatedSorted(Tick(vs, s, cap), PUDDLE_MERGE_DISTANCE);
  }

  lemma SeparatedSorted(r: seq<PuddleV>, dist: int)
    requires dist >= 0 && AllWide(r) && Separated(r, dist)
    ensures SortedBy(r, LeftKey)
  {
    forall i, j | 0 <= i < j < |r| ensures Le(LeftKey(r[i]), LeftKey(r[j])) {
      assert MinX(r[j]) > MaxX(r[i]) + dist;
    }
  }

  /** The tick keeps every column of every surviving puddle under water. */
  lemma TickCovers(vs: seq<PuddleV>, s: real, cap: real, p: PuddleV, x: int)
    requires p in Survivors(vs, s) && Inside(p, x)
    ensures exists q :: q in Tick(vs, s, cap) && Inside(q, x)
  {
    var surv := Survivors(vs, s);
    if |surv| >= 2 {
      var t := SortByLeft(surv);
      assert p in multiset(t);
      var k :| 0 <= k < |t| && t[k] == p;
      if k > 0 {
        assert Inside(t[1..][k - 1], x);
      }
      ScanCovers(t[0], t[1..], PUDDLE_MERGE_DISTANCE, cap, x);
      var r := Tick(vs, s, cap);
      var j :| 0 <= j < |r| && Inside(r[j], x);
      assert r[j] in r;
    }
  }

  /** `next(p for p in puddles if p.is_coord_inside(x))`, as an index: the first puddle in
      list order whose span holds column `x`. */
  function FirstInside(ps: seq<PuddleV>, x: int): (r: Option<nat>)
    ensures r.Some? ==> r.value < |ps| && Inside(ps[r.value], x)
    ensures r.Some? ==> forall j :: 0 <= j < r.value ==> !Inside(ps[j], x)
    ensures r.None? <==> forall j :: 0 <= j < |ps| ==> !Inside(ps[j], x)
  {
    if ps == [] then None
    else if Inside(ps[0], x) then Some(0)
    else match FirstInside(ps[1..], x)
      case None => None
      case Some(i) => Some(i + 1)
  }

  /** The first puddle holding `x` is the one a left-to-right search stops at. */
  lemma FirstInsideAt(ps: seq<PuddleV>, x: int, i: nat)
    requires i <= |ps| && forall j :: 0 <= j < i ==> !Inside(ps[j], x)
    ensures i < |ps| && Inside(ps[i], x) ==> FirstInside(ps, x) == Some(i)
    ensures i == |ps| ==> FirstInside(ps, x) == None
  {
  }
}
