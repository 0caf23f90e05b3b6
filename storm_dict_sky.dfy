/** app/storm.py: `generate_bolt_path` and `update_lightning`, which counts the flash,
    flicker and rumble timers down and now and then strikes a bolt, with branches, out of
    a visible foreground cloud. A start row too low for the end row's `randint` makes the
    program raise `ValueError`; the model returns `None` for that. */
module StormDictSky {
  import opened PyNum
  import opened PySort
  import opened StormConfig
  import opened Storm1
  import opened StormDict
  import L = Storm1Lightning

  /** `generate_bolt_path(x_start, y_start, y_end, max_deviation)`: one point per row
      from `y_start` to `y_end`, the column moving by a deviation and clamped to the
      screen between rows; no point at all when `y_start > y_end`. */
  method GenerateBoltPath(xStart: int, yStart: int, yEnd: int, md: nat, width: int, ds: nat -> L.BoltDraw)
    returns (path: seq<(int, int)>)
    requires width >= 1
    ensures path == L.BoltRows(xStart, yStart, yEnd, md, width, ds)
  {
    path := [];
    var x := xStart;
    var y := yStart;
    while y <= yEnd
      invariant yStart <= yEnd ==> yStart <= y <= yEnd + 1
      invariant yStart > yEnd ==> y == yStart
      invariant y <= yEnd ==> x == L.Column(xStart, md, width, ds, y - yStart)
      invariant path == L.BoltRows(xStart, yStart, y - 1, md, width, ds)
      decreases yEnd - y
    {
      L.BoltRowsSnoc(xStart, yStart, y, md, width, ds);
      path := path + [(x, y)];
      if y < yEnd {
        x := L.Deviate(x, md, width, ds((y - yStart) as nat));
      }
      y := y + 1;
    }
  }

  // ---------------------------------------------------------------- the draws

  /** The draws behind one branch: its start index on the main bolt, the
      `uniform(0.5, 1.0)` length factor and its steps. */
  datatype BranchDrawD = BranchDrawD(start: nat, u: real, path: nat -> L.BoltDraw)

  /** The draws behind one call of `update_lightning`: whether the 3% chance fires, the
      rumble length and caption, whether the bolt is complex, the source cloud, the start
      column and (with no visible cloud) row, the end row, the main bolt's steps, the
      number of branches and each branch's draws. */
  datatype StrikeDrawD = StrikeDrawD(fire: bool, rumble: nat, text: nat, complex: bool, cloud: nat, x: nat, y: nat,
                                     yEnd: nat, path: nat -> L.BoltDraw, branches: nat, branch: nat -> BranchDrawD)

  // ---------------------------------------------------------------- the strike

  /** The foreground clouds some of whose columns are on the screen:
      `c['x'] < WIDTH and c['x'] + c['width'] > 0`. */
  function Visible(fg: seq<CloudV>, width: int): (r: seq<CloudV>)
    ensures forall c :: c in r <==> c in fg && c.x < width as real && c.x + c.width as real > 0.0
  {
    FilterKeeps(fg, (c: CloudV) => c.x < width as real && c.x + c.width as real > 0.0);
    Filter(fg, (c: CloudV) => c.x < width as real && c.x + c.width as real > 0.0)
  }

  /** A filter keeps every element that passes. */
  lemma {:induction false} FilterKeeps<T>(s: seq<T>, p: T -> bool)
    ensures forall e :: e in s && p(e) ==> e in Filter(s, p)
    decreases |s|
  {
    if s != [] {
      FilterKeeps(s[1..], p);
      assert forall e :: e in s ==> e == s[0] || e in s[1..];
    }
  }

  /** Where a new bolt starts, before its row is capped: under a column drawn from the
      source cloud's truncated span, clamped to the screen, one row below the cloud; with
      no visible cloud, in the middle half of the screen and the top third of the storm
      area. */
  function StartD(fg: seq<CloudV>, width: int, sah: int, d: StrikeDrawD): (r: (int, int))
    requires width >= 1 && sah >= 1 && LayerOk(fg, sah, true)
    ensures 0 <= r.0 < width && r.1 >= 0
  {
    var src := Visible(fg, width);
    if src != [] then
      var c := src[Pick(0, |src| - 1, d.cloud)];
      assert c in fg;
      TruncMono(c.x, c.x + c.width as real - 1.0);
      var x := Pick(Trunc(c.x), Trunc(c.x + c.width as real - 1.0), d.x);
      (Max(0, Min(width - 1, x)), c.y + 1)
    else
      (Pick(width / 4, 3 * width / 4, d.x), Pick(0, sah / 3, d.y))
  }

  /** The lowest row the main bolt may end on, for a start row `startRow`: two rows down, or
      the middle of the storm area when that is lower. */
  function LowestEnd(startRow: int, sah: int): int {
    Max(startRow + 2, sah / 2)
  }

  /** The branch off the main bolt `main`, which ends on row `yEnd`: it leaves a point
      other than the first and the last and ends a drawn fraction of the way down to
      `yEnd`, capped at the storm area's last row; with no row to descend there is none. */
  function BranchD(main: seq<(int, int)>, yEnd: int, width: int, sah: int, b: BranchDrawD): (r: seq<seq<(int, int)>>)
    requires width >= 1 && |main| >= 3
    ensures |r| <= 1
  {
    var s := main[Pick(1, |main| - 2, b.start)];
    var e := Min(s.1 + L.BranchSpan(yEnd - s.1, b.u), sah - 1);
    if e > s.1 then [L.BoltRows(s.0, s.1, e, 2, width, b.path)] else []
  }

  /** The branches the first `n` branch draws add, in order. */
  function BranchesD(main: seq<(int, int)>, yEnd: int, width: int, sah: int, n: nat, bs: nat -> BranchDrawD): (r: seq<seq<(int, int)>>)
    requires width >= 1 && |main| >= 3
    ensures |r| <= n
  {
    if n == 0 then [] else BranchesD(main, yEnd, width, sah, n - 1, bs) + BranchD(main, yEnd, width, sah, bs(n - 1))
  }

  /** How many branches a complex strike tries. */
  function BranchCount(d: StrikeDrawD): int {
    Pick(1, LIGHTNING_MAX_BRANCHES, d.branches)
  }

  /** The lightning globals a strike with the bolts `bolts` leaves: the flicker and flash
      restart, and a rumble of drawn length with a drawn caption begins. */
  function Struck(bolts: seq<seq<(int, int)>>, d: StrikeDrawD): Sky {
    Sky(LIGHTNING_FLICKER_DURATION, bolts, Pick(RUMBLE_DURATION_MIN, RUMBLE_DURATION_MAX, d.rumble),
        RUMBLE_TEXTS[Pick(0, |RUMBLE_TEXTS| - 1, d.text)], LIGHTNING_FLASH_DURATION)
  }

  /** A strike, which replaces all the lightning globals: the timers restart, a caption is
      drawn, and the bolts are the main bolt and, for a complex strike, its branches.
      `None` when the end row's range is empty, where the program raises `ValueError`. */
  function StrikeSky(fg: seq<CloudV>, width: int, sah: int, d: StrikeDrawD): (r: Option<Sky>)
    requires width >= 1 && sah >= 1 && LayerOk(fg, sah, true)
  {
    var start := StartD(fg, width, sah, d);
    var startRow := Min(start.1, sah - 2);
    if LowestEnd(startRow, sah) > sah - 1 then None
    else
      var yEnd := Pick(LowestEnd(startRow, sah), sah - 1, d.yEnd);
      var main := L.BoltRows(start.0, startRow, yEnd, 1, width, d.path);
      var branches := if d.complex && |main| >= 3 then BranchesD(main, yEnd, width, sah, BranchCount(d), d.branch) else [];
      Some(Struck([main] + branches, d))
  }

  // ---------------------------------------------------------------- the timers

  /** The lightning globals after the countdowns: the flash, flicker and rumble timers
      count down, and the bolts go out when the flicker runs out. */
  function Settle(k: Sky): Sky {
    Sky(L.CountDown(k.flicker), if k.flicker == 1 then [] else k.bolts, L.CountDown(k.rumble), k.rumbleText, L.CountDown(k.flash))
  }

  /** A new strike fires when its chance comes up and both the rumble and the flicker have
      run out. */
  predicate Armed(k: Sky, d: StrikeDrawD) {
    d.fire && Settle(k).rumble == 0 && Settle(k).flicker == 0
  }

  /** The specification of `update_lightning` on the lightning globals `k`. */
  function NextSky(k: Sky, fg: seq<CloudV>, width: int, sah: int, d: StrikeDrawD): Option<Sky>
    requires width >= 1 && sah >= 1 && LayerOk(fg, sah, true)
  {
    if Armed(k, d) then StrikeSky(fg, width, sah, d) else Some(Settle(k))
  }

  // ---------------------------------------------------------------- properties

  /** `update_lightning` raises exactly when a strike fires from a start row at or below
      the storm area's second-to-last row: the start row is capped there, and then the end
      row's range [start + 2, sah - 1] is empty. */
  lemma NextSkyFails(k: Sky, fg: seq<CloudV>, width: int, sah: int, d: StrikeDrawD)
    requires width >= 1 && sah >= 1 && LayerOk(fg, sah, true)
    ensures NextSky(k, fg, width, sah, d).None? <==> Armed(k, d) && StartD(fg, width, sah, d).1 >= sah - 2
  {
  }

  /** On a storm area of five rows or more (a terminal of seven rows or more) the
      program never raises: foreground clouds sit no lower than a third of the way down,
      and the fallback start row is no lower either. */
  lemma NextSkyTotal(k: Sky, fg: seq<CloudV>, width: int, sah: int, d: StrikeDrawD)
    requires width >= 1 && sah >= 5 && LayerOk(fg, sah, true)
    ensures NextSky(k, fg, width, sah, d).Some?
  {
    var src := Visible(fg, width);
    if src != [] {
      var c := src[Pick(0, |src| - 1, d.cloud)];
      assert c in fg;
      assert CloudOk(c, sah, true);
    }
    NextSkyFails(k, fg, width, sah, d);
  }

  /** A terminal of six rows raises: a strike from a foreground cloud on row 1 starts on
      row 2, and `randint(4, 3)` has nothing to draw. */
  lemma NextSkyRaises()
    ensures NextSky(Sky(0, [], 0, "", 0), [CloudV(0.0, 1, 5, "ccccc")], 80, 4,
                    StrikeDrawD(true, 0, 0, false, 0, 0, 0, 0, _ => L.BoltDraw(0, false, 0), 0, _ => BranchDrawD(0, 0.5, _ => L.BoltDraw(0, false, 0)))).None?
  {
    var fg := [CloudV(0.0, 1, 5, "ccccc")];
    assert CloudOk(fg[0], 4, true);
    var d := StrikeDrawD(true, 0, 0, false, 0, 0, 0, 0, _ => L.BoltDraw(0, false, 0), 0, _ => BranchDrawD(0, 0.5, _ => L.BoltDraw(0, false, 0)));
    assert fg[0] in Visible(fg, 80);
    NextSkyFails(Sky(0, [], 0, "", 0), fg, 80, 4, d);
  }

  /** No strike can fire while a rumble still has two or more frames to go, or while a
      bolt still has two or more frames of flicker: only the timers move. */
  lemma NoStrikeDuringRumble(k: Sky, fg: seq<CloudV>, width: int, sah: int, d: StrikeDrawD)
    requires width >= 1 && sah >= 1 && LayerOk(fg, sah, true)
    requires k.rumble >= 2 || k.flicker >= 2
    ensures NextSky(k, fg, width, sah, d) == Some(Settle(k))
  {
  }

  /** What a branch is: a path of at least two points that leaves the main bolt at a
      point other than the first and the last, descends, each step at most two columns
      sideways, and ends above the main bolt's last row. */
  ghost predicate BranchOfD(main: seq<(int, int)>, p: seq<(int, int)>, width: int, sah: int) {
    && |p| >= 2 && main != []
    && (exists j :: 1 <= j < |main| - 1 && p[0] == main[j])
    && L.Descends(p, width, sah, 2)
    && p[|p| - 1].1 < main[|main| - 1].1
  }

  /** A branch drawn with a length factor from [0.5, 1.0] off a descending main bolt is a
      branch of it. */
  lemma BranchDShape(main: seq<(int, int)>, yEnd: int, width: int, sah: int, b: BranchDrawD)
    requires width >= 1 && |main| >= 3 && L.Descends(main, width, sah, 2) && main[|main| - 1].1 == yEnd
    requires 0.5 <= b.u <= 1.0
    ensures forall p :: p in BranchD(main, yEnd, width, sah, b) ==> BranchOfD(main, p, width, sah)
  {
    var r := BranchD(main, yEnd, width, sah, b);
    var j := Pick(1, |main| - 2, b.start);
    var s := main[j];
    var e := Min(s.1 + L.BranchSpan(yEnd - s.1, b.u), sah - 1);
    if e > s.1 {
      var p := L.BoltRows(s.0, s.1, e, 2, width, b.path);
      assert r == [p];
      assert s.1 == main[0].1 + j && yEnd == main[0].1 + (|main| - 1);
      assert 0 <= s.0 < width && 0 <= s.1 < sah;
      L.BranchSpanShorter(yEnd - s.1, b.u);
      L.BoltRowsDescend(s.0, s.1, e, 2, width, sah, b.path);
      assert p[0] == main[j];
      assert BranchOfD(main, p, width, sah);
    }
  }

  /** Every branch of a strike is a branch of the main bolt. */
  lemma {:induction false} BranchesDShape(main: seq<(int, int)>, yEnd: int, width: int, sah: int, n: nat, bs: nat -> BranchDrawD)
    requires width >= 1 && |main| >= 3 && L.Descends(main, width, sah, 2) && main[|main| - 1].1 == yEnd
    requires forall i :: 0.5 <= bs(i).u <= 1.0
    ensures forall p :: p in BranchesD(main, yEnd, width, sah, n, bs) ==> BranchOfD(main, p, width, sah)
  {
    if n > 0 {
      BranchesDShape(main, yEnd, width, sah, n - 1, bs);
      BranchDShape(main, yEnd, width, sah, bs(n - 1));
    }
  }

  /** A strike restarts the timers, shows a caption from the list, and shows the main
      bolt first: it starts at the capped start point and runs one point per row, at
      least three of them, down to a row between `LowestEnd` and the storm area's last
      row; every other bolt is a branch of it. */
  lemma StrikeShape(fg: seq<CloudV>, width: int, sah: int, d: StrikeDrawD)
    requires width >= 1 && sah >= 1 && LayerOk(fg, sah, true) && StrikeSky(fg, width, sah, d).Some?
    requires forall i :: 0.5 <= d.branch(i).u <= 1.0
    ensures var k := StrikeSky(fg, width, sah, d).value;
      var start := StartD(fg, width, sah, d);
      var main := k.bolts[0];
      && k.flicker == LIGHTNING_FLICKER_DURATION && k.flash == LIGHTNING_FLASH_DURATION
      && RUMBLE_DURATION_MIN <= k.rumble <= RUMBLE_DURATION_MAX && k.rumbleText in RUMBLE_TEXTS
      && |main| >= 3 && main[0] == (start.0, Min(start.1, sah - 2)) && L.Descends(main, width, sah, 2)
      && LowestEnd(Min(start.1, sah - 2), sah) <= main[|main| - 1].1 <= sah - 1
      && forall p :: p in k.bolts[1..] ==> BranchOfD(main, p, width, sah)
  {
    var k := StrikeSky(fg, width, sah, d).value;
    var start := StartD(fg, width, sah, d);
    var startRow := Min(start.1, sah - 2);
    var yEnd := Pick(LowestEnd(startRow, sah), sah - 1, d.yEnd);
    L.BoltRowsDescend(start.0, startRow, yEnd, 1, width, sah, d.path);
    var main := L.BoltRows(start.0, startRow, yEnd, 1, width, d.path);
    assert k.bolts[0] == main;
    if d.complex && |main| >= 3 {
      BranchesDShape(main, yEnd, width, sah, BranchCount(d), d.branch);
    }
  }

  // ---------------------------------------------------------------- the method

  /** The branch loop of `update_lightning`: `n` branch draws, appended in order. */
  method AddBranches(bolts: seq<seq<(int, int)>>, main: seq<(int, int)>, yEnd: int, width: int, sah: int, n: nat, bs: nat -> BranchDrawD)
    returns (r: seq<seq<(int, int)>>)
    requires width >= 1 && |main| >= 3
    ensures r == bolts + BranchesD(main, yEnd, width, sah, n, bs)
  {
    r := bolts;
    for i := 0 to n
      invariant r == bolts + BranchesD(main, yEnd, width, sah, i, bs)
    {
      var more := TryBranch(main, yEnd, width, sah, bs(i));
      r := r + more;
    }
  }

  /** One pass of the branch loop: a start point drawn from the inner points of the main
      bolt, an end row capped to the storm area, and a jagged path when it goes down. */
  method TryBranch(main: seq<(int, int)>, yEnd: int, width: int, sah: int, b: BranchDrawD) returns (more: seq<seq<(int, int)>>)
    requires width >= 1 && |main| >= 3
    ensures more == BranchD(main, yEnd, width, sah, b)
  {
    var branchStart := main[Pick(1, |main| - 2, b.start)];
    var branchYEnd := branchStart.1 + L.BranchSpan(yEnd - branchStart.1, b.u);
    branchYEnd := Min(branchYEnd, sah - 1);
    more := [];
    if branchYEnd > branchStart.1 {
      var branchPath := GenerateBoltPath(branchStart.0, branchStart.1, branchYEnd, 2, width, b.path);
      more := [branchPath];
    }
  }

  /** `update_lightning` on the globals `w` with the draws `d`: only the lightning
      globals change, or the program raises (`None`). */
  method UpdateLightning(w: World, d: StrikeDrawD) returns (r: Option<World>)
    requires WorldOk(w)
    ensures r.None? <==> NextSky(w.sky, w.fg, w.width, w.sah, d).None?
    ensures r.Some? ==> r.value == w.(sky := NextSky(w.sky, w.fg, w.width, w.sah, d).value)
  {
    var k := w.sky;
    if k.flash > 0 {
      k := k.(flash := k.flash - 1);
    }
    if k.flicker > 0 {
      k := k.(flicker := k.flicker - 1);
      if k.flicker == 0 {
        k := k.(bolts := []);
      }
    }
    if k.rumble > 0 {
      k := k.(rumble := k.rumble - 1);
    }
    assert k == Settle(w.sky);
    if d.fire && k.rumble == 0 && k.flicker == 0 {
      var struck := Strike(w.fg, w.width, w.sah, d);
      if struck.None? {
        return None;
      }
      k := struck.value;
    }
    r := Some(w.(sky := k));
  }

  /** A strike whose end row has a range to be drawn from: the main bolt from the capped
      start row to the drawn end row, and its branches when the strike is complex. */
  lemma StrikeSkySome(fg: seq<CloudV>, width: int, sah: int, d: StrikeDrawD, startRow: int, yEnd: int)
    requires width >= 1 && sah >= 1 && LayerOk(fg, sah, true)
    requires startRow == Min(StartD(fg, width, sah, d).1, sah - 2) && LowestEnd(startRow, sah) <= sah - 1
    requires yEnd == Pick(LowestEnd(startRow, sah), sah - 1, d.yEnd)
    ensures var main := L.BoltRows(StartD(fg, width, sah, d).0, startRow, yEnd, 1, width, d.path);
      StrikeSky(fg, width, sah, d)
      == Some(Struck([main] + (if d.complex && |main| >= 3 then BranchesD(main, yEnd, width, sah, BranchCount(d), d.branch) else []), d))
  {
  }

  /** The strike part of `update_lightning`. */
  method Strike(fg: seq<CloudV>, width: int, sah: int, d: StrikeDrawD) returns (r: Option<Sky>)
    requires width >= 1 && sah >= 1 && LayerOk(fg, sah, true)
    ensures r == StrikeSky(fg, width, sah, d)
  {
    var start := StartD(fg, width, sah, d);
    var boltXStart, boltYStart := start.0, start.1;
    boltYStart := Min(boltYStart, sah - 2);
    var lowest := LowestEnd(boltYStart, sah);
    if lowest > sah - 1 {
      return None;
    }
    var boltYEnd := Pick(lowest, sah - 1, d.yEnd);
    if boltYEnd <= boltYStart {
      assert false;
    }
    // The path has a point per row from the start row to the end row, so the program's
    // check that it is not empty always passes.
    var main := GenerateBoltPath(boltXStart, boltYStart, boltYEnd, 1, width, d.path);
    var bolts := [main];
    if d.complex && |main| >= 3 {
      bolts := AddBranches(bolts, main, boltYEnd, width, sah, BranchCount(d), d.branch);
    }
    assert main == L.BoltRows(StartD(fg, width, sah, d).0, boltYStart, boltYEnd, 1, width, d.path);
    assert bolts == [main] + (if d.complex && |main| >= 3 then BranchesD(main, boltYEnd, width, sah, BranchCount(d), d.branch) else []);
    StrikeSkySome(fg, width, sah, d, boltYStart, boltYEnd);
    assert StrikeSky(fg, width, sah, d) == Some(Struck([main] + (if d.complex && |main| >= 3 then BranchesD(main, boltYEnd, width, sah, BranchCount(d), d.branch) else []), d));
    r := Some(Struck(bolts, d));
  }
}
