/** The rest of one frame of app/storm1.py: the puddle tick and the lightning. Like the
    functions in `Storm1Globals`, each takes the `Globals` record and gives back the one
    it leaves. */
module Storm1Frame {
  import opened PyNum
  import opened PySort
  import opened StormConfig
  import opened PuddleMath
  import opened Storm1
  import opened StormCommon
  import opened Storm1Globals

  /** The comprehension's `if` part: the puddles whose flag is set, in list order. */
  function Kept(ps: seq<Puddle>, alive: seq<bool>): (r: seq<Puddle>)
    requires |alive| == |ps|
    ensures multiset(r) <= multiset(ps)
  {
    if ps == [] then []
    else
      assert ps == [ps[0]] + ps[1..];
      (if alive[0] then [ps[0]] else []) + Kept(ps[1..], alive[1..])
  }

  /** When flag `j` says whether value `vs[j]` survives and puddle `j` holds what the
      survivor becomes, the kept puddles hold exactly the survivors. */
  lemma {:induction false} KeptValues(ps: seq<Puddle>, alive: seq<bool>, vs: seq<PuddleV>, s: real)
    requires |alive| == |ps| == |vs|
    requires forall j :: 0 <= j < |ps| ==> alive[j] == Survives(vs[j], s)
    requires forall j :: 0 <= j < |ps| ==> alive[j] ==> ps[j].Value() == Evolve(vs[j], s)
    ensures PuddleValues(Kept(ps, alive)) == Survivors(vs, s)
    decreases |ps|
  {
    if ps != [] {
      KeptValues(ps[1..], alive[1..], vs[1..], s);
      var rest := Kept(ps[1..], alive[1..]);
      if alive[0] {
        assert PuddleValues([ps[0]] + rest) == [ps[0].Value()] + PuddleValues(rest);
      }
    }
  }

  /** Every puddle ages and evaporates in place, puddle `i` reporting in `alive[i]`
      whether it still holds water. */
  method UpdateEach(ps: seq<Puddle>, s: real) returns (alive: seq<bool>)
    requires Distinct(ps)
    modifies ps
    ensures |alive| == |ps|
    ensures forall j :: 0 <= j < |ps| ==> alive[j] == Survives(old(ps[j].Value()), s)
    ensures forall j :: 0 <= j < |ps| ==> alive[j] ==> ps[j].Value() == Evolve(old(ps[j].Value()), s)
  {
    ghost var vs := PuddleValues(ps);
    alive := [];
    var i := 0;
    while i < |ps|
      invariant 0 <= i <= |ps| && |alive| == i
      invariant forall j :: 0 <= j < i ==> alive[j] == Survives(vs[j], s)
      invariant forall j :: 0 <= j < i ==> alive[j] ==> ps[j].Value() == Evolve(vs[j], s)
      invariant forall j :: i <= j < |ps| ==> ps[j].Value() == vs[j]
    {
      assert forall j :: 0 <= j < |ps| && j != i ==> ps[j] != ps[i];
      var a := ps[i].UpdateEffects(s);
      alive := alive + [a];
      i := i + 1;
    }
  }

  /** `[p for p in puddles if p.update_effects(current_storm_intensity)]`: every puddle
      ages and evaporates in place, and the ones still holding water are kept in order. */
  method SurviveEach(ps: seq<Puddle>, s: real) returns (r: seq<Puddle>)
    requires Distinct(ps)
    modifies ps
    ensures Distinct(r) && forall j :: 0 <= j < |r| ==> r[j] in ps
    ensures PuddleValues(r) == Survivors(old(PuddleValues(ps)), s)
  {
    ghost var vs := PuddleValues(ps);
    var alive := UpdateEach(ps, s);
    r := Kept(ps, alive);
    KeptValues(ps, alive, vs, s);
    DistinctPermutation(ps, r);
    forall j | 0 <= j < |r| ensures r[j] in ps {
      assert r[j] in multiset(r);
    }
  }

  /** `SurviveEach`, with the clouds it leaves alone. */
  method SurviveKeeping(ps: seq<Puddle>, fg: seq<Cloud>, bg: seq<Cloud>, wb: int, sah: int, s: real)
    returns (r: seq<Puddle>)
    requires Distinct(ps) && LayersFit(fg, bg, wb, sah)
    modifies ps
    ensures LayersFit(fg, bg, wb, sah)
    ensures Distinct(r) && forall j :: 0 <= j < |r| ==> r[j] in ps
    ensures PuddleValues(r) == Survivors(old(PuddleValues(ps)), s)
  {
    r := SurviveEach(ps, s);
  }

  /** A puddle paired with its value, as the sort sees it. */
  type Keyed = (Puddle, PuddleV)

  function Zip(ps: seq<Puddle>, vs: seq<PuddleV>): (r: seq<Keyed>)
    requires |ps| == |vs|
    ensures |r| == |ps| && forall i :: 0 <= i < |ps| ==> r[i] == (ps[i], vs[i])
  {
    seq(|ps|, i requires 0 <= i < |ps| => (ps[i], vs[i]))
  }

  function KeyedLeft(k: Keyed): Ext {
    LeftKey(k.1)
  }

  function Object(k: Keyed): Puddle {
    k.0
  }

  function Snapshot(k: Keyed): PuddleV {
    k.1
  }

  /** Sorting the pairs by the values' left edges orders the values as sorting them
      alone would. */
  lemma SortKeyedValues(ps: seq<Puddle>, vs: seq<PuddleV>)
    requires |ps| == |vs|
    ensures Map(Snapshot, SortBy(Zip(ps, vs), KeyedLeft)) == SortBy(vs, LeftKey)
  {
    var z := Zip(ps, vs);
    assert Map(Snapshot, z) == vs;
    assert forall a :: a in z ==> LeftKey(Snapshot(a)) == KeyedLeft(a);
    SortByMap(Snapshot, z, KeyedLeft, LeftKey);
  }

  /** A rearrangement of the pairs of a list without repetitions keeps each puddle once,
      still beside its own value. */
  lemma Rearranged(ps: seq<Puddle>, vs: seq<PuddleV>, sorted: seq<Keyed>)
    requires Distinct(ps) && |ps| == |vs|
    requires multiset(sorted) == multiset(Zip(ps, vs))
    ensures forall i :: 0 <= i < |sorted| ==> sorted[i] in Zip(ps, vs)
    ensures Distinct(Map(Object, sorted))
    ensures forall p :: p in Map(Object, sorted) <==> p in ps
  {
    RearrangedPairs(ps, vs, sorted);
    var r := Map(Object, sorted);
    forall i, j | 0 <= i < j < |r| ensures r[i] != r[j] {
      ObjectsDiffer(ps, vs, sorted, i, j);
    }
    RearrangedObjects(ps, vs, sorted);
  }

  lemma RearrangedPairs(ps: seq<Puddle>, vs: seq<PuddleV>, sorted: seq<Keyed>)
    requires |ps| == |vs|
    requires multiset(sorted) == multiset(Zip(ps, vs))
    ensures forall i :: 0 <= i < |sorted| ==> sorted[i] in Zip(ps, vs)
  {
    forall i | 0 <= i < |sorted| ensures sorted[i] in Zip(ps, vs) {
      assert sorted[i] in multiset(Zip(ps, vs));
    }
  }

  lemma RearrangedObjects(ps: seq<Puddle>, vs: seq<PuddleV>, sorted: seq<Keyed>)
    requires |ps| == |vs|
    requires multiset(sorted) == multiset(Zip(ps, vs))
    ensures forall p :: p in Map(Object, sorted) <==> p in ps
  {
    var pairs := Zip(ps, vs);
    var r := Map(Object, sorted);
    RearrangedPairs(ps, vs, sorted);
    forall p ensures p in r <==> p in ps {
      if p in r {
        var i :| 0 <= i < |r| && r[i] == p;
        assert sorted[i] in pairs;
      }
      if p in ps {
        var k :| 0 <= k < |ps| && ps[k] == p;
        assert pairs[k] in multiset(sorted);
        var i :| 0 <= i < |sorted| && sorted[i] == pairs[k];
        assert r[i] == p;
      }
    }
  }

  lemma ObjectsDiffer(ps: seq<Puddle>, vs: seq<PuddleV>, sorted: seq<Keyed>, i: int, j: int)
    requires Distinct(ps) && |ps| == |vs|
    requires multiset(sorted) == multiset(Zip(ps, vs))
    requires 0 <= i < j < |sorted|
    ensures sorted[i].0 != sorted[j].0
  {
    var pairs := Zip(ps, vs);
    assert Distinct(pairs) by {
      forall a, b | 0 <= a < b < |pairs| ensures pairs[a] != pairs[b] {
        assert ps[a] != ps[b];
      }
    }
    DistinctPermutation(pairs, sorted);
    assert sorted[i] in multiset(pairs) && sorted[j] in multiset(pairs);
  }

  /** `puddles.sort(key=lambda p: p.get_min_max_x()[0])`: a stable sort of the puddle
      objects by left edge. It gives the same list of objects, in the order that sorting
      their values by left edge gives. */
  function SortPuddles(ps: seq<Puddle>): (r: seq<Puddle>)
    reads ps
    requires Distinct(ps)
    ensures Distinct(r) && |r| == |ps|
    ensures (forall i :: 0 <= i < |r| ==> r[i] in ps) && forall i :: 0 <= i < |ps| ==> ps[i] in r
    ensures PuddleValues(r) == SortByLeft(PuddleValues(ps))
  {
    var vs := PuddleValues(ps);
    var sorted := SortBy(Zip(ps, vs), KeyedLeft);
    SortKeyedValues(ps, vs);
    Rearranged(ps, vs, sorted);
    SnapshotsMatch(ps, vs, sorted);
    Map(Object, sorted)
  }

  /** Each rearranged pair's puddle holds the pair's value. */
  lemma SnapshotsMatch(ps: seq<Puddle>, vs: seq<PuddleV>, sorted: seq<Keyed>)
    requires |ps| == |vs| && vs == PuddleValues(ps)
    requires forall i :: 0 <= i < |sorted| ==> sorted[i] in Zip(ps, vs)
    ensures PuddleValues(Map(Object, sorted)) == Map(Snapshot, sorted)
  {
    var pairs := Zip(ps, vs);
    var r := Map(Object, sorted);
    forall i | 0 <= i < |r| ensures r[i].Value() == Map(Snapshot, sorted)[i] {
      assert sorted[i] in pairs;
    }
  }

  lemma ValuesSnoc(xs: seq<Puddle>, p: Puddle)
    ensures PuddleValues(xs + [p]) == PuddleValues(xs) + [p.Value()]
  {
  }

  /** The merge scan meeting a puddle `n` that starts within `dist` columns of the
      current one's right edge: the two merge and the scan goes on. */
  lemma ScanMerges(cur: PuddleV, n: PuddleV, rest: seq<PuddleV>, dist: int, cap: real)
    requires MinX(n) <= MaxX(cur) + dist
    ensures MergeScan(cur, [n] + rest, dist, cap) == MergeScan(Merge(cur, n, cap), rest, dist, cap)
  {
    assert ([n] + rest)[0] == n && ([n] + rest)[1..] == rest;
  }

  /** The merge scan meeting a puddle `n` further away: the current puddle is emitted and
      `n` becomes the current one. */
  lemma ScanEmits(cur: PuddleV, n: PuddleV, rest: seq<PuddleV>, dist: int, cap: real)
    requires MinX(n) > MaxX(cur) + dist
    ensures MergeScan(cur, [n] + rest, dist, cap) == [cur] + MergeScan(n, rest, dist, cap)
  {
    assert ([n] + rest)[0] == n && ([n] + rest)[1..] == rest;
  }

  /** No puddle of `xs` is one of the puddles `t[i..]` the merge has still to visit. */
  predicate Unvisited(xs: seq<Puddle>, t: seq<Puddle>, i: int) {
    forall j, k :: 0 <= j < |xs| && 0 <= i <= k < |t| ==> xs[j] != t[k]
  }

  /** Moving on to the next sorted puddle keeps the emitted and current puddles apart. */
  lemma VisitNext(xs: seq<Puddle>, t: seq<Puddle>, i: int)
    requires Distinct(t) && 0 <= i < |t|
    requires Distinct(xs) && Unvisited(xs, t, i)
    ensures Distinct(xs + [t[i]]) && Unvisited(xs + [t[i]], t, i + 1)
  {
    assert t[i] !in xs by {
      forall j | 0 <= j < |xs| ensures xs[j] != t[i] { }
    }
    DistinctAppend(xs, t[i]);
  }

  lemma DropLast(xs: seq<Puddle>, c: Puddle, t: seq<Puddle>, i: int)
    requires Distinct(xs + [c]) && Unvisited(xs + [c], t, i)
    ensures Distinct(xs) && Unvisited(xs, t, i)
  {
    forall j | 0 <= j < |xs| ensures (xs + [c])[j] == xs[j] { }
  }

  /** A puddle that is neither emitted nor sorted keeps them apart too. */
  lemma VisitMerged(xs: seq<Puddle>, m: Puddle, t: seq<Puddle>, i: int)
    requires 0 <= i && Distinct(xs) && Unvisited(xs, t, i) && m !in xs && m !in t
    ensures Distinct(xs + [m]) && Unvisited(xs + [m], t, i + 1)
  {
    DistinctAppend(xs, m);
    forall j, k | 0 <= j < |xs + [m]| && 0 <= i + 1 <= k < |t| ensures (xs + [m])[j] != t[k] {
      if j == |xs| {
        assert t[k] in t;
      } else {
        assert (xs + [m])[j] == xs[j];
      }
    }
  }

  /** One turn of the merge loop: the current puddle swallows `t[i]` when that starts
      within `PUDDLE_MERGE_DISTANCE` columns of its right edge, and is otherwise emitted,
      `t[i]` taking its place. The scan of the values still to come is unchanged. */
  method MergeStep(out: seq<Puddle>, cur: Puddle, t: seq<Puddle>, i: nat, ghost rest: seq<PuddleV>)
    returns (out': seq<Puddle>, cur': Puddle)
    requires Distinct(t) && i < |t|
    requires Distinct(out + [cur]) && Unvisited(out + [cur], t, i)
    ensures Distinct(out' + [cur']) && Unvisited(out' + [cur'], t, i + 1)
    ensures (out' == out + [cur] && cur' == t[i]) || (out' == out && fresh(cur'))
    ensures PuddleValues(out') + MergeScan(cur'.Value(), rest, PUDDLE_MERGE_DISTANCE, PUDDLE_CAP)
      == PuddleValues(out) + MergeScan(cur.Value(), [t[i].Value()] + rest, PUDDLE_MERGE_DISTANCE, PUDDLE_CAP)
  {
    ghost var ov := PuddleValues(out);
    ghost var cv := cur.Value();
    var next := t[i];
    if MinX(next.Value()) <= MaxX(cur.Value()) + PUDDLE_MERGE_DISTANCE {
      ScanMerges(cv, next.Value(), rest, PUDDLE_MERGE_DISTANCE, PUDDLE_CAP);
      DropLast(out, cur, t, i);
      cur' := Puddle.Merge(cur, next);
      assert cur' !in t && cur' !in out;
      VisitMerged(out, cur', t, i);
      out' := out;
      assert PuddleValues(out') == ov;
    } else {
      ScanEmits(cv, next.Value(), rest, PUDDLE_MERGE_DISTANCE, PUDDLE_CAP);
      VisitNext(out + [cur], t, i);
      ValuesSnoc(out, cur);
      out' := out + [cur];
      cur' := next;
    }
  }

  /** The merge loop of `update_puddles` over puddles sorted by left edge: each turn is a
      `MergeStep`, and the last current puddle is emitted at the end. Merging makes a new
      object, so the result holds sorted puddles and new ones, each once, and their values
      are the merge scan of the sorted values. */
  method MergeRun(t: seq<Puddle>) returns (r: seq<Puddle>)
    requires |t| >= 1 && Distinct(t)
    ensures Distinct(r)
    ensures PuddleValues(r) == MergeScan(t[0].Value(), PuddleValues(t[1..]), PUDDLE_MERGE_DISTANCE, PUDDLE_CAP)
  {
    ghost var tv := PuddleValues(t);
    assert PuddleValues(t[1..]) == tv[1..];
    ghost var goal := MergeScan(tv[0], tv[1..], PUDDLE_MERGE_DISTANCE, PUDDLE_CAP);
    var out: seq<Puddle> := [];
    var cur := t[0];
    var i := 1;
    while i < |t|
      invariant 1 <= i <= |t|
      invariant Distinct(out + [cur]) && Unvisited(out + [cur], t, i)
      invariant PuddleValues(out) + MergeScan(cur.Value(), tv[i..], PUDDLE_MERGE_DISTANCE, PUDDLE_CAP) == goal
    {
      ghost var rest := tv[i + 1..];
      assert tv[i..] == [tv[i]] + rest;
      assert t[i].Value() == tv[i];
      out, cur := MergeStep(out, cur, t, i, rest);
      i := i + 1;
    }
    assert tv[i..] == [];
    r := out + [cur];
    ValuesSnoc(out, cur);
  }

  /** The sort and the merge loop of `update_puddles`, with the clouds they leave alone. */
  method SortMerge(ps: seq<Puddle>, fg: seq<Cloud>, bg: seq<Cloud>, wb: int, sah: int)
    returns (r: seq<Puddle>)
    requires |ps| >= 2 && Distinct(ps) && LayersFit(fg, bg, wb, sah)
    ensures Distinct(r) && LayersFit(fg, bg, wb, sah)
    ensures var t := SortByLeft(PuddleValues(ps));
      PuddleValues(r) == MergeScan(t[0], t[1..], PUDDLE_MERGE_DISTANCE, PUDDLE_CAP)
  {
    var sorted := SortPuddles(ps);
    r := MergeKeeping(sorted, fg, bg, wb, sah);
  }

  /** `MergeRun`, with the clouds it leaves alone. */
  method MergeKeeping(t: seq<Puddle>, fg: seq<Cloud>, bg: seq<Cloud>, wb: int, sah: int) returns (r: seq<Puddle>)
    requires |t| >= 1 && Distinct(t) && LayersFit(fg, bg, wb, sah)
    ensures Distinct(r) && LayersFit(fg, bg, wb, sah)
    ensures PuddleValues(r) == MergeScan(PuddleValues(t)[0], PuddleValues(t)[1..], PUDDLE_MERGE_DISTANCE, PUDDLE_CAP)
  {
    r := MergeRun(t);
    assert PuddleValues(t[1..]) == PuddleValues(t)[1..];
  }

  /** Puddle objects held once whose values are a tick fit the screen. */
  lemma TickFits(r: seq<Puddle>, vs: seq<PuddleV>, s: real)
    requires Distinct(r) && PuddleValues(r) == Tick(vs, s, PUDDLE_CAP)
    ensures PuddlesFit(r)
  {
    TickProperties(vs, s, PUDDLE_CAP);
  }

  /** The body of `update_puddles` on the puddle list, with the clouds it leaves alone. */
  method TickPuddles(ps: seq<Puddle>, fg: seq<Cloud>, bg: seq<Cloud>, wb: int, sah: int, s: real)
    returns (r: seq<Puddle>)
    requires PuddlesFit(ps) && LayersFit(fg, bg, wb, sah)
    modifies ps
    ensures PuddlesFit(r) && LayersFit(fg, bg, wb, sah)
    ensures PuddleValues(r) == Tick(old(PuddleValues(ps)), s, PUDDLE_CAP)
  {
    ghost var vs := PuddleValues(ps);
    if ps == [] {
      return ps;
    }
    r := SurviveKeeping(ps, fg, bg, wb, sah, s);
    if |r| >= 2 {
      r := SortMerge(r, fg, bg, wb, sah);
    }
    TickFits(r, vs, s);
  }

  /** `update_puddles`: every puddle ages and evaporates at the current storm intensity
      and the dry ones are dropped; two or more survivors are sorted by left edge and
      merged wherever one starts within `PUDDLE_MERGE_DISTANCE` columns of the previous
      one's right edge. The puddle values become their tick, so the puddles stay wet, at
      least one column wide, ordered and apart (`TickProperties`). Nothing else changes. */
  method UpdatePuddles(g: Globals) returns (h: Globals)
    requires GlobalsOk(g)
    modifies g.puddles
    ensures GlobalsOk(h)
    ensures h == g.(puddles := h.puddles)
    ensures PuddleValues(h.puddles) == Tick(old(PuddleValues(g.puddles)), g.weather.intensity, PUDDLE_CAP)
  {
    var r := TickPuddles(g.puddles, g.cloudsFg, g.cloudsBg, g.width, g.stormAreaHeight, g.weather.intensity);
    h := g.(puddles := r);
  }
}
