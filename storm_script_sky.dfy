/** scripts/bin/storm.py: `generate_bolt_path` and `update_lightning`. Unlike app/storm.py
    the bolts take plain `randint(-max_deviation, max_deviation)` steps, the start row is
    not capped, the end row is drawn from [start + 2, sah - 1], and a strike whose end row
    has no room returns early instead of raising: the timers are then already armed and
    the screen flashes with no bolt. The 1.5% chance of a strike is the `fire` draw. */
module StormScriptSky {
  import opened PyNum
  import opened StormConfig
  import opened Storm1
  import opened StormDict
  import L = Storm1Lightning
  import DS = StormDictSky

  // ---------------------------------------------------------------- the draws

  /** The draws behind one branch: its start index on the main bolt, the
      `uniform(0.5, 1.0)` length factor and the `randint` of each of its steps. */
  datatype BranchDrawS = BranchDrawS(start: nat, u: real, path: nat -> nat)

  /** The draws behind one call of `update_lightning`: whether the chance comes up, the
      rumble length and caption, whether the bolt is complex, the source cloud, the start
      column and (with no visible cloud) row, the end row, the main bolt's steps, the
      number of branches and each branch's draws. */
  datatype StrikeDrawS = StrikeDrawS(fire: bool, rumble: nat, text: nat, complex: bool, cloud: nat, x: nat, y: nat,
                                     yEnd: nat, path: nat -> nat, branches: nat, branch: nat -> BranchDrawS)

  /** Plain steps: each one only the `randint` deviation, never the wild choice of
      app/storm1.py. */
  function Steps(devs: nat -> nat): nat -> L.BoltDraw {
    (j: nat) => L.BoltDraw(devs(j), false, 0)
  }

  /** A branch draw in the form the shared branch functions take. */
  function AsBranch(b: BranchDrawS): DS.BranchDrawD {
    DS.BranchDrawD(b.start, b.u, Steps(b.path))
  }

  /** Every branch draw in that form. */
  function AsBranches(bs: nat -> BranchDrawS): nat -> DS.BranchDrawD {
    (j: nat) => AsBranch(bs(j))
  }

  /** The strike draws in the form the shared strike functions take. */
  function AsDict(d: StrikeDrawS): DS.StrikeDrawD {
    DS.StrikeDrawD(d.fire, d.rumble, d.text, d.complex, d.cloud, d.x, d.y, d.yEnd, Steps(d.path), d.branches, AsBranches(d.branch))
  }

  // ---------------------------------------------------------------- the bolt

  /** A plain step moves at most `md` columns. */
  lemma PlainDeviation(md: nat, devs: nat -> nat, j: nat)
    ensures L.Deviation(md, Steps(devs)(j)) == Pick(-(md as int), md as int, devs(j))
    ensures -(md as int) <= L.Deviation(md, Steps(devs)(j)) <= md
  {
  }

  /** A bolt of plain steps from an on-screen point descends, each step at most `md`
      columns sideways: the tighter bound the script's bolts keep. */
  lemma PlainDescends(x: int, y: int, yEnd: int, md: nat, width: int, sah: int, devs: nat -> nat)
    requires width >= 1 && 0 <= x < width && 0 <= y <= yEnd < sah
    ensures var p := L.BoltRows(x, y, yEnd, md, width, Steps(devs));
      |p| == yEnd - y + 1 && p[0] == (x, y) && L.Descends(p, width, sah, md)
  {
    var p := L.BoltRows(x, y, yEnd, md, width, Steps(devs));
    L.BoltRowsDescend(x, y, yEnd, md, width, sah, Steps(devs));
    forall i, j | 0 <= i < j < |p| && j == i + 1
      ensures -(md as int) <= p[j].0 - p[i].0 <= md
    {
      PlainStep(x, md, width, devs, i);
    }
  }

  /** One plain step of a bolt moves at most `md` columns. */
  lemma PlainStep(x: int, md: nat, width: int, devs: nat -> nat, i: nat)
    requires width >= 1 && 0 <= L.Column(x, md, width, Steps(devs), i) < width
    ensures -(md as int) <= L.Column(x, md, width, Steps(devs), i + 1) - L.Column(x, md, width, Steps(devs), i) <= md
  {
    PlainDeviation(md, devs, i);
    L.ClampStep(L.Column(x, md, width, Steps(devs), i), L.Deviation(md, Steps(devs)(i)), width, md);
  }

  /** `generate_bolt_path(x_start, y_start, y_end, max_deviation)`: one point per row
      from `y_start` to `y_end`, the column moving by a plain deviation and clamped to the
      screen between rows. */
  method GenerateBoltPath(xStart: int, yStart: int, yEnd: int, md: nat, width: int, devs: nat -> nat)
    returns (path: seq<(int, int)>)
    requires width >= 1
    ensures path == L.BoltRows(xStart, yStart, yEnd, md, width, Steps(devs))
  {
    path := [];
    var x := xStart;
    var y := yStart;
    while y <= yEnd
      invariant yStart <= yEnd ==> yStart <= y <= yEnd + 1
      invariant yStart > yEnd ==> y == yStart
      invariant y <= yEnd ==> x == L.Column(xStart, md, width, Steps(devs), y - yStart)
      invariant path == L.BoltRows(xStart, yStart, y - 1, md, width, Steps(devs))
      decreases yEnd - y
    {
      L.BoltRowsSnoc(xStart, yStart, y, md, width, Steps(devs));
      path := path + [(x, y)];
      if y < yEnd {
        PlainDeviation(md, devs, (y - yStart) as nat);
        var deviation := Pick(-(md as int), md as int, devs((y - yStart) as nat));
        x := x + deviation;
        x := Max(0, Min(width - 1, x));
      }
      y := y + 1;
    }
  }

  // ---------------------------------------------------------------- the strike

  /** Whether the end row has room: `y_end_min >= y_end_max` makes the strike return with
      no bolt. */
  predicate Cramped(startRow: int, sah: int) {
    startRow + 2 >= sah - 1
  }

  /** A strike: the timers restart and a caption is drawn in any case; the bolts are the
      main bolt from the (uncapped) start point down to a row drawn from
      [start + 2, sah - 1] and, for a complex strike, its branches, or none at all when
      that range is cramped. */
  function ScriptStrike(fg: seq<CloudV>, width: int, sah: int, d: StrikeDrawS): (k: Sky)
    requires width >= 1 && sah >= 1 && LayerOk(fg, sah, true)
  {
    var start := DS.StartD(fg, width, sah, AsDict(d));
    if Cramped(start.1, sah) then DS.Struck([], AsDict(d))
    else
      var yEnd := Pick(start.1 + 2, sah - 1, d.yEnd);
      var main := L.BoltRows(start.0, start.1, yEnd, 1, width, Steps(d.path));
      var branches := if d.complex && |main| >= 3 then DS.BranchesD(main, yEnd, width, sah, DS.BranchCount(AsDict(d)), AsBranches(d.branch)) else [];
      DS.Struck([main] + branches, AsDict(d))
  }

  /** The specification of `update_lightning` on the lightning globals `k`: the countdowns,
      then a strike when its chance comes up and the rumble and flicker have run out. */
  function ScriptNextSky(k: Sky, fg: seq<CloudV>, width: int, sah: int, d: StrikeDrawS): Sky
    requires width >= 1 && sah >= 1 && LayerOk(fg, sah, true)
  {
    if DS.Armed(k, AsDict(d)) then ScriptStrike(fg, width, sah, d) else DS.Settle(k)
  }

  // ---------------------------------------------------------------- properties

  /** Every strike restarts the flicker and the flash and starts a rumble with a caption
      from the list; it shows a bolt exactly when the end row has room. */
  lemma StrikeTimers(fg: seq<CloudV>, width: int, sah: int, d: StrikeDrawS)
    requires width >= 1 && sah >= 1 && LayerOk(fg, sah, true)
    ensures var k := ScriptStrike(fg, width, sah, d);
      && k.flicker == LIGHTNING_FLICKER_DURATION && k.flash == LIGHTNING_FLASH_DURATION
      && RUMBLE_DURATION_MIN <= k.rumble <= RUMBLE_DURATION_MAX && k.rumbleText in RUMBLE_TEXTS
      && (k.bolts == [] <==> Cramped(DS.StartD(fg, width, sah, AsDict(d)).1, sah))
  {
    var start := DS.StartD(fg, width, sah, AsDict(d));
    if !Cramped(start.1, sah) {
      var k := ScriptStrike(fg, width, sah, d);
      assert |k.bolts| >= 1;
    }
  }

  /** A strike with room shows the main bolt first: from the start point, one point per
      row, at least three of them, down to a row between start + 2 and the storm area's
      last row, each step at most one column sideways; every other bolt is a branch of it. */
  lemma ScriptStrikeShape(fg: seq<CloudV>, width: int, sah: int, d: StrikeDrawS)
    requires width >= 1 && sah >= 1 && LayerOk(fg, sah, true)
    requires !Cramped(DS.StartD(fg, width, sah, AsDict(d)).1, sah)
    requires forall i :: 0.5 <= d.branch(i).u <= 1.0
    ensures var k := ScriptStrike(fg, width, sah, d);
      var start := DS.StartD(fg, width, sah, AsDict(d));
      var main := k.bolts[0];
      && |main| >= 3 && main[0] == start && L.Descends(main, width, sah, 1)
      && start.1 + 2 <= main[|main| - 1].1 <= sah - 1
      && forall p :: p in k.bolts[1..] ==> DS.BranchOfD(main, p, width, sah)
  {
    var k := ScriptStrike(fg, width, sah, d);
    var start := DS.StartD(fg, width, sah, AsDict(d));
    var yEnd := Pick(start.1 + 2, sah - 1, d.yEnd);
    var main := L.BoltRows(start.0, start.1, yEnd, 1, width, Steps(d.path));
    var branches := if d.complex && |main| >= 3 then DS.BranchesD(main, yEnd, width, sah, DS.BranchCount(AsDict(d)), AsBranches(d.branch)) else [];
    ScriptStrikeRoomy(fg, width, sah, d, yEnd);
    assert k.bolts == [main] + branches;
    assert k.bolts[0] == main && k.bolts[1..] == branches;
    PlainDescends(start.0, start.1, yEnd, 1, width, sah, d.path);
    MainBranches(main, yEnd, width, sah, d.complex, DS.BranchCount(AsDict(d)), d.branch);
  }

  /** The branches of a strike with a plain main bolt are branches of it. */
  lemma MainBranches(main: seq<(int, int)>, yEnd: int, width: int, sah: int, complex: bool, n: nat, bs: nat -> BranchDrawS)
    requires width >= 1 && |main| >= 3 && L.Descends(main, width, sah, 1) && main[|main| - 1].1 == yEnd
    requires forall i :: 0.5 <= bs(i).u <= 1.0
    ensures forall p :: p in (if complex then DS.BranchesD(main, yEnd, width, sah, n, AsBranches(bs)) else []) ==> DS.BranchOfD(main, p, width, sah)
  {
    if complex {
      forall i ensures 0.5 <= AsBranches(bs)(i).u <= 1.0 {
        assert AsBranches(bs)(i) == AsBranch(bs(i));
      }
      DS.BranchesDShape(main, yEnd, width, sah, n, AsBranches(bs));
    }
  }

  /** No strike can fire while a rumble still has two or more frames to go, or while a
      bolt still has two or more frames of flicker: only the timers move. */
  lemma ScriptNoStrikeDuringRumble(k: Sky, fg: seq<CloudV>, width: int, sah: int, d: StrikeDrawS)
    requires width >= 1 && sah >= 1 && LayerOk(fg, sah, true)
    requires k.rumble >= 2 || k.flicker >= 2
    ensures ScriptNextSky(k, fg, width, sah, d) == DS.Settle(k)
  {
  }

  /** Where app/storm.py raises (a six-row terminal, a strike from a foreground cloud on
      row 1) this program flashes with no bolt. */
  lemma FlashWithoutBolt()
    ensures var fg := [CloudV(0.0, 1, 5, "ccccc")];
      var d := StrikeDrawS(true, 0, 0, false, 0, 0, 0, 0, _ => 0, 0, _ => BranchDrawS(0, 0.5, _ => 0));
      && DS.NextSky(Sky(0, [], 0, "", 0), fg, 80, 4, AsDict(d)).None?
      && ScriptNextSky(Sky(0, [], 0, "", 0), fg, 80, 4, d) == Sky(LIGHTNING_FLICKER_DURATION, [], RUMBLE_DURATION_MIN, RUMBLE_TEXTS[0], LIGHTNING_FLASH_DURATION)
  {
    var fg := [CloudV(0.0, 1, 5, "ccccc")];
    var d := StrikeDrawS(true, 0, 0, false, 0, 0, 0, 0, _ => 0, 0, _ => BranchDrawS(0, 0.5, _ => 0));
    assert CloudOk(fg[0], 4, true);
    assert fg[0] in DS.Visible(fg, 80);
    assert DS.StartD(fg, 80, 4, AsDict(d)) == (0, 2);
    DS.NextSkyFails(Sky(0, [], 0, "", 0), fg, 80, 4, AsDict(d));
  }

  // ---------------------------------------------------------------- the method

  /** One pass of the branch loop: a start point drawn from the inner points of the main
      bolt, an end row capped to the storm area, and a plain path when it goes down. */
  method TryBranch(main: seq<(int, int)>, yEnd: int, width: int, sah: int, b: BranchDrawS) returns (more: seq<seq<(int, int)>>)
    requires width >= 1 && |main| >= 3
    ensures more == DS.BranchD(main, yEnd, width, sah, AsBranch(b))
  {
    var branchStart := main[Pick(1, |main| - 2, b.start)];
    var branchYEnd := branchStart.1 + L.BranchSpan(yEnd - branchStart.1, b.u);
    branchYEnd := Min(branchYEnd, sah - 1);
    more := [];
    if branchYEnd > branchStart.1 {
      var branchPath := GenerateBoltPath(branchStart.0, branchStart.1, branchYEnd, 2, width, b.path);
      more := [branchPath];
    }
  }

  /** The branch loop of `update_lightning`: `n` branch draws, appended in order. */
  method AddBranches(bolts: seq<seq<(int, int)>>, main: seq<(int, int)>, yEnd: int, width: int, sah: int, n: nat, bs: nat -> BranchDrawS)
    returns (r: seq<seq<(int, int)>>)
    requires width >= 1 && |main| >= 3
    ensures r == bolts + DS.BranchesD(main, yEnd, width, sah, n, AsBranches(bs))
  {
    r := bolts;
    for i := 0 to n
      invariant r == bolts + DS.BranchesD(main, yEnd, width, sah, i, AsBranches(bs))
    {
      var more := TryBranch(main, yEnd, width, sah, bs(i));
      r := r + more;
    }
  }

  /** The strike part of `update_lightning`, from `lightning_flicker_countdown = ...` on. */
  method Strike(fg: seq<CloudV>, width: int, sah: int, d: StrikeDrawS) returns (k: Sky)
    requires width >= 1 && sah >= 1 && LayerOk(fg, sah, true)
    ensures k == ScriptStrike(fg, width, sah, d)
  {
    k := DS.Struck([], AsDict(d));
    var start := DS.StartD(fg, width, sah, AsDict(d));
    var boltXStart, boltYStart := start.0, start.1;
    var yEndMin := boltYStart + 2;
    var yEndMax := sah - 1;
    if yEndMin >= yEndMax {
      return;
    }
    var boltYEnd := Pick(yEndMin, yEndMax, d.yEnd);
    var main := GenerateBoltPath(boltXStart, boltYStart, boltYEnd, 1, width, d.path);
    // One point per row from the start row to the end row: never empty.
    var bolts := [main];
    if d.complex && |main| >= 3 {
      bolts := AddBranches(bolts, main, boltYEnd, width, sah, DS.BranchCount(AsDict(d)), d.branch);
    }
    assert bolts == [main] + (if d.complex && |main| >= 3 then DS.BranchesD(main, boltYEnd, width, sah, DS.BranchCount(AsDict(d)), AsBranches(d.branch)) else []);
    ScriptStrikeRoomy(fg, width, sah, d, boltYEnd);
    k := k.(bolts := bolts);
  }

  /** A strike whose end row has room, with the end row drawn. */
  lemma ScriptStrikeRoomy(fg: seq<CloudV>, width: int, sah: int, d: StrikeDrawS, yEnd: int)
    requires width >= 1 && sah >= 1 && LayerOk(fg, sah, true)
    requires !Cramped(DS.StartD(fg, width, sah, AsDict(d)).1, sah)
    requires yEnd == Pick(DS.StartD(fg, width, sah, AsDict(d)).1 + 2, sah - 1, d.yEnd)
    ensures var start := DS.StartD(fg, width, sah, AsDict(d));
      var main := L.BoltRows(start.0, start.1, yEnd, 1, width, Steps(d.path));
      ScriptStrike(fg, width, sah, d)
      == DS.Struck([main] + (if d.complex && |main| >= 3 then DS.BranchesD(main, yEnd, width, sah, DS.BranchCount(AsDict(d)), AsBranches(d.branch)) else []), AsDict(d))
  {
    var start := DS.StartD(fg, width, sah, AsDict(d));
    var main := L.BoltRows(start.0, start.1, yEnd, 1, width, Steps(d.path));
    var branches := if d.complex && |main| >= 3 then DS.BranchesD(main, yEnd, width, sah, DS.BranchCount(AsDict(d)), AsBranches(d.branch)) else [];
    assert ScriptStrike(fg, width, sah, d) == DS.Struck([main] + branches, AsDict(d));
  }

  /** `update_lightning` on the globals `w` with the draws `d`: only the lightning
      globals change, and it always returns. */
  method UpdateLightning(w: World, d: StrikeDrawS) returns (h: World)
    requires WorldOk(w)
    ensures h == w.(sky := ScriptNextSky(w.sky, w.fg, w.width, w.sah, d))
  {
    var k := w.sky;
    if k.flash > 0 {
      k := k.(flash := k.flash - 1);
    }
    if k.flicker > 0 {
      k := k.(flicker := k.flicker - 1);
      if k.flicker == 0 {
        k := k.(bolts := []);
      }
    }
    if k.rumble > 0 {
      k := k.(rumble := k.rumble - 1);
    }
    assert k == DS.Settle(w.sky);
    if d.fire && k.rumble == 0 && k.flicker == 0 {
      k := Strike(w.fg, w.width, w.sah, d);
    }
    h := w.(sky := k);
  }
}
