/** `draw_scene` of app/storm.py and of scripts/bin/storm.py, which differ only in the
    flash colour: the writes one frame makes into the screen buffer, in the order the
    program makes them, and what the composed buffer then shows. The puddles are drawn
    from the dict in key order, each column of the splash line by the first puddle that
    covers it (`drawn_puddle_coords`). */
module StormDictDraw {
  import opened PyNum
  import opened StormConfig
  import opened StormCommon
  import opened Screen
  import opened Storm1
  import opened StormDict
  import D = Storm1Draw

  /** `LIGHTNING_BOLT_CHAR` of app/storm.py: every bolt is drawn in this one glyph. */
  const BOLT_CHAR: char := '#'

  /** One dict cloud: its glyphs from column `int(round(x))` on, spaces included. */
  function CloudWritesD(c: CloudV, color: Option<string>): (r: seq<Write>)
    ensures Tinted(r, color)
  {
    TextWrites(Round(c.x), c.y, c.repr, color, false)
  }

  /** The clouds of one layer, in list order. */
  function LayerWritesD(cs: seq<CloudV>, color: Option<string>): (r: seq<Write>)
    ensures Tinted(r, color)
  {
    if cs == [] then []
    else
      var init := LayerWritesD(cs[..|cs| - 1], color);
      var last := CloudWritesD(cs[|cs| - 1], color);
      TintedAppend(init, last, color);
      init + last
  }

  /** The drops, in list order, each at column `int(round(x))` of its row. */
  function RainWritesD(ds: seq<Drop>, color: Option<string>): (r: seq<Write>)
    ensures |r| == |ds|
    ensures forall k :: 0 <= k < |r| ==> r[k] == Write(Round(ds[k].x), ds[k].y, Cell(ds[k].glyph, color))
  {
    if ds == [] then []
    else
      var d := ds[|ds| - 1];
      RainWritesD(ds[..|ds| - 1], color) + [Write(Round(d.x), d.y, Cell(d.glyph, color))]
  }

  /** Every point of every bolt path, path by path, in `BOLT_CHAR`. */
  function BoltWritesD(bolts: seq<seq<(int, int)>>, color: Option<string>): (r: seq<Write>)
    ensures Tinted(r, color)
  {
    if bolts == [] then []
    else
      var init := BoltWritesD(bolts[..|bolts| - 1], color);
      var last := D.PathWrites(bolts[|bolts| - 1], BOLT_CHAR, color);
      TintedAppend(init, last, color);
      init + last
  }

  /** The columns puddle `e` spans: `width` columns from `base_x - width // 2`. */
  predicate Covers(e: PuddleD, x: int) {
    e.baseX - e.width / 2 <= x < e.baseX - e.width / 2 + e.width
  }

  /** What the drawing loop needs of each listed puddle: an entry, water that is not
      negative (so its glyph index is in range) and a width that is not negative. */
  predicate Listed(keys: seq<int>, at: map<int, PuddleD>) {
    forall i :: 0 <= i < |keys| ==> keys[i] in at && at[keys[i]].intensity >= 0.0 && at[keys[i]].width >= 0
  }

  /** Puddle `j` of the dict order is the first that covers column `x`. */
  predicate FirstCover(keys: seq<int>, at: map<int, PuddleD>, j: int, x: int)
    requires Listed(keys, at)
  {
    0 <= j < |keys| && Covers(at[keys[j]], x) && forall i :: 0 <= i < j ==> !Covers(at[keys[i]], x)
  }

  /** The columns the writes are aimed at: `drawn_puddle_coords`. */
  function Claimed(ws: seq<Write>): set<int> {
    set m | 0 <= m < |ws| :: ws[m].x
  }

  lemma ClaimedAppend(a: seq<Write>, b: seq<Write>)
    ensures Claimed(a + b) == Claimed(a) + Claimed(b)
  {
    forall x | x in Claimed(a + b) ensures x in Claimed(a) + Claimed(b) {
      var m :| 0 <= m < |a + b| && (a + b)[m].x == x;
      if m < |a| {
        assert a[m] == (a + b)[m];
      } else {
        assert b[m - |a|] == (a + b)[m];
      }
    }
    forall x | x in Claimed(a) + Claimed(b) ensures x in Claimed(a + b) {
      if x in Claimed(a) {
        var m :| 0 <= m < |a| && a[m].x == x;
        assert (a + b)[m] == a[m];
      } else {
        var m :| 0 <= m < |b| && b[m].x == x;
        assert (a + b)[|a| + m] == b[m];
      }
    }
  }

  /** The inner loop over one puddle's span: column `start + i` for `i` in [0, n), written
      in `cell` when it is on the screen and not yet drawn. The columns come out left to
      right, each once. */
  function SpanWritesD(start: int, n: nat, width: int, line: int, cell: Cell, drawn: set<int>): (r: seq<Write>)
    ensures forall m :: 0 <= m < |r| ==>
      r[m].y == line && r[m].cell == cell && 0 <= r[m].x < width && r[m].x !in drawn && start <= r[m].x < start + n
    ensures forall m, k :: 0 <= m < k < |r| ==> r[m].x < r[k].x
    decreases n
  {
    if n == 0 then []
    else
      var init := SpanWritesD(start, n - 1, width, line, cell, drawn);
      var x := start + n - 1;
      if 0 <= x < width && x !in drawn then init + [Write(x, line, cell)] else init
  }

  /** Every column of the span that is on the screen and not yet drawn is written. */
  lemma {:induction false} SpanWritesAll(start: int, n: nat, width: int, line: int, cell: Cell, drawn: set<int>, x: int)
    requires start <= x < start + n && 0 <= x < width && x !in drawn
    ensures x in Claimed(SpanWritesD(start, n, width, line, cell, drawn))
    decreases n
  {
    var r := SpanWritesD(start, n, width, line, cell, drawn);
    if x == start + n - 1 {
      assert r[|r| - 1].x == x;
    } else {
      var init := SpanWritesD(start, n - 1, width, line, cell, drawn);
      SpanWritesAll(start, n - 1, width, line, cell, drawn, x);
      var m :| 0 <= m < |init| && init[m].x == x;
      assert r[m] == init[m];
    }
  }

  /** The puddle loop of `draw_scene`: the puddles in dict order, each writing the columns
      of its span that no earlier puddle wrote, in its own glyph, on row `line`. */
  function ClaimWritesD(keys: seq<int>, at: map<int, PuddleD>, width: int, line: int, color: Option<string>): (r: seq<Write>)
    requires Listed(keys, at)
    ensures forall m :: 0 <= m < |r| ==> r[m].y == line && r[m].cell.color == color && 0 <= r[m].x < width
    decreases |keys|
  {
    if keys == [] then []
    else
      var init := ClaimWritesD(keys[..|keys| - 1], at, width, line, color);
      var e := at[keys[|keys| - 1]];
      init + SpanWritesD(e.baseX - e.width / 2, e.width, width, line, Cell(PuddleGlyph(e.intensity), color), Claimed(init))
  }

  /** No two of the writes are aimed at the same column. */
  predicate OncePerColumn(ws: seq<Write>) {
    forall m, k :: 0 <= m < k < |ws| ==> ws[m].x != ws[k].x
  }

  /** No column is written twice. */
  lemma {:induction false} ClaimOnce(keys: seq<int>, at: map<int, PuddleD>, width: int, line: int, color: Option<string>)
    requires Listed(keys, at)
    ensures OncePerColumn(ClaimWritesD(keys, at, width, line, color))
    decreases |keys|
  {
    if keys != [] {
      var init := ClaimWritesD(keys[..|keys| - 1], at, width, line, color);
      var e := at[keys[|keys| - 1]];
      var span := SpanWritesD(e.baseX - e.width / 2, e.width, width, line, Cell(PuddleGlyph(e.intensity), color), Claimed(init));
      ClaimOnce(keys[..|keys| - 1], at, width, line, color);
      var r := init + span;
      forall m, k | 0 <= m < k < |r| ensures r[m].x != r[k].x {
        if k >= |init| {
          assert r[k] == span[k - |init|];
          if m >= |init| {
            assert r[m] == span[m - |init|];
            assert span[m - |init|].x < span[k - |init|].x;
          } else {
            assert r[m] == init[m];
            assert r[m].x in Claimed(init);
            assert span[k - |init|].x !in Claimed(init);
          }
        } else {
          assert r[m] == init[m] && r[k] == init[k];
          assert init[m].x != init[k].x;
        }
      }
    }
  }

  /** Every column on the screen that some puddle covers is written. */
  lemma {:induction false} ClaimCovered(keys: seq<int>, at: map<int, PuddleD>, width: int, line: int, color: Option<string>, j: int, x: int)
    requires Listed(keys, at) && 0 <= j < |keys| && Covers(at[keys[j]], x) && 0 <= x < width
    ensures x in Claimed(ClaimWritesD(keys, at, width, line, color))
    decreases |keys|
  {
    var init := ClaimWritesD(keys[..|keys| - 1], at, width, line, color);
    var e := at[keys[|keys| - 1]];
    var span := SpanWritesD(e.baseX - e.width / 2, e.width, width, line, Cell(PuddleGlyph(e.intensity), color), Claimed(init));
    ClaimedAppend(init, span);
    if j < |keys| - 1 {
      assert keys[..|keys| - 1][j] == keys[j];
      ClaimCovered(keys[..|keys| - 1], at, width, line, color, j, x);
    } else if x !in Claimed(init) {
      SpanWritesAll(e.baseX - e.width / 2, e.width, width, line, Cell(PuddleGlyph(e.intensity), color), Claimed(init), x);
    }
  }

  /** Whatever column is written, it is written by the first puddle in dict order that
      covers it, in that puddle's glyph. */
  lemma {:induction false} ClaimFirst(keys: seq<int>, at: map<int, PuddleD>, width: int, line: int, color: Option<string>, m: int)
    requires Listed(keys, at)
    requires 0 <= m < |ClaimWritesD(keys, at, width, line, color)|
    ensures var r := ClaimWritesD(keys, at, width, line, color);
      exists j :: FirstCover(keys, at, j, r[m].x) && r[m].cell.glyph == PuddleGlyph(at[keys[j]].intensity)
    decreases |keys|
  {
    var r := ClaimWritesD(keys, at, width, line, color);
    var front := keys[..|keys| - 1];
    var init := ClaimWritesD(front, at, width, line, color);
    var e := at[keys[|keys| - 1]];
    var span := SpanWritesD(e.baseX - e.width / 2, e.width, width, line, Cell(PuddleGlyph(e.intensity), color), Claimed(init));
    assert r == init + span;
    var x := r[m].x;
    if m < |init| {
      assert r[m] == init[m];
      ClaimFirst(front, at, width, line, color, m);
      var j :| FirstCover(front, at, j, x) && init[m].cell.glyph == PuddleGlyph(at[front[j]].intensity);
      assert front[j] == keys[j];
      assert forall i :: 0 <= i < j ==> front[i] == keys[i];
      assert FirstCover(keys, at, j, x);
    } else {
      var j := |keys| - 1;
      assert r[m] == span[m - |init|];
      forall i | 0 <= i < j ensures !Covers(at[keys[i]], x) {
        if Covers(at[keys[i]], x) {
          assert front[i] == keys[i];
          ClaimCovered(front, at, width, line, color, i, x);
          assert false;
        }
      }
      assert FirstCover(keys, at, j, x);
    }
  }

  /** The first puddle in dict order that covers an on-screen column is the one that
      writes it, and no other write is aimed at it. */
  lemma ClaimedBy(keys: seq<int>, at: map<int, PuddleD>, width: int, line: int, color: Option<string>, j: int, x: int)
    requires Listed(keys, at) && FirstCover(keys, at, j, x) && 0 <= x < width
    ensures var r := ClaimWritesD(keys, at, width, line, color);
      exists m :: 0 <= m < |r| && r[m] == Write(x, line, Cell(PuddleGlyph(at[keys[j]].intensity), color))
                  && forall k :: 0 <= k < |r| && k != m ==> r[k].x != x
  {
    var r := ClaimWritesD(keys, at, width, line, color);
    ClaimCovered(keys, at, width, line, color, j, x);
    var m :| 0 <= m < |r| && r[m].x == x;
    ClaimFirst(keys, at, width, line, color, m);
    var j' :| FirstCover(keys, at, j', x) && r[m].cell.glyph == PuddleGlyph(at[keys[j']].intensity);
    assert j' == j;
    ClaimOnce(keys, at, width, line, color);
  }

  /** The puddle loop as app/storm.py runs it: a set of drawn columns, and for each dict
      entry the loop over its span. */
  method DrawPuddles(keys: seq<int>, at: map<int, PuddleD>, width: int, line: int, color: Option<string>) returns (ws: seq<Write>)
    requires Listed(keys, at)
    ensures ws == ClaimWritesD(keys, at, width, line, color)
  {
    ws := [];
    var drawn: set<int> := {};
    for i := 0 to |keys|
      invariant ws == ClaimWritesD(keys[..i], at, width, line, color)
      invariant drawn == Claimed(ws)
    {
      assert keys[..i + 1][..i] == keys[..i];
      var e := at[keys[i]];
      ws, drawn := DrawSpan(e, width, line, color, ws, drawn);
      assert keys[..i + 1][i] == keys[i];
    }
    assert keys[..|keys|] == keys;
  }

  /** The span loop of one puddle: `px = base_x - half_width + i` for `i` in
      `range(width)`, written and marked drawn when on the screen and not yet drawn. */
  method DrawSpan(e: PuddleD, width: int, line: int, color: Option<string>, ws: seq<Write>, drawn: set<int>)
    returns (ws': seq<Write>, drawn': set<int>)
    requires e.intensity >= 0.0 && e.width >= 0 && drawn == Claimed(ws)
    ensures ws' == ws + SpanWritesD(e.baseX - e.width / 2, e.width, width, line, Cell(PuddleGlyph(e.intensity), color), drawn)
    ensures drawn' == Claimed(ws')
  {
    var c := Cell(PuddleGlyph(e.intensity), color);
    var half := e.width / 2;
    ws', drawn' := ws, drawn;
    for i := 0 to e.width
      invariant ws' == ws + SpanWritesD(e.baseX - half, i, width, line, c, drawn)
      invariant drawn' == Claimed(ws')
    {
      var px := e.baseX - half + i;
      ghost var span := SpanWritesD(e.baseX - half, i, width, line, c, drawn);
      if 0 <= px < width && px !in drawn' {
        assert px !in drawn by {
          ClaimedAppend(ws, span);
        }
        ClaimedAppend(ws', [Write(px, line, c)]);
        assert Claimed([Write(px, line, c)]) == {px} by {
          assert [Write(px, line, c)][0].x == px;
        }
        ws' := ws' + [Write(px, line, c)];
        drawn' := drawn' + {px};
      } else if 0 <= px < width {
        assert px in drawn by {
          ClaimedAppend(ws, span);
        }
      }
    }
  }

  /** `flash_color_override`: the flash colour `fc` while the screen flash lasts, else
      none; app/storm.py flashes in `COLOR_SCREEN_FLASH`, scripts/bin/storm.py in
      `"\033[47m"`. */
  function Override(w: World, fc: string): Option<string> {
    if w.sky.flash > 0 then Some(fc) else None
  }

  /** Everything `draw_scene` writes before the splash dots: background then foreground
      clouds, the rain, the bolts while the flicker lasts and the puddles on the splash
      line. */
  function BackdropD(w: World, fc: string): seq<Write>
    requires WorldOk(w)
  {
    PuddlesListed(w);
    var o := Override(w, fc);
    LayerWritesD(w.bg, Tint(o, COLOR_CLOUD_BG)) + LayerWritesD(w.fg, Tint(o, COLOR_CLOUD_FG))
    + RainWritesD(w.drops, Tint(o, COLOR_RAIN))
    + (if w.sky.flicker > 0 && w.sky.bolts != [] then BoltWritesD(w.sky.bolts, Tint(o, COLOR_LIGHTNING)) else [])
    + ClaimWritesD(w.puddles.keys, w.puddles.at, w.width, w.splashLine, Tint(o, COLOR_PUDDLE))
  }

  /** The splash dots. */
  function SplashWritesD(w: World, fc: string): seq<Write> {
    D.EffectWrites(w.splashes, SPLASH_CHAR, Tint(Override(w, fc), COLOR_SPLASH))
  }

  /** The rumble caption while the rumble lasts, centred on the rumble row. */
  function RumbleWritesD(w: World, fc: string): seq<Write> {
    if w.sky.rumble > 0 then
      TextWrites(D.RumbleStart(w.sky.rumbleText, w.width), w.rumbleLine, w.sky.rumbleText,
                 Tint(Override(w, fc), COLOR_RUMBLE_TEXT), false)
    else []
  }

  /** Every write of `draw_scene`, in order. */
  function SceneWritesD(w: World, fc: string): seq<Write>
    requires WorldOk(w)
  {
    BackdropD(w, fc) + SplashWritesD(w, fc) + RumbleWritesD(w, fc)
  }

  /** The cleared buffer: blank cells in the flash colour, if any. */
  function BlankD(w: World, fc: string): Cell {
    Cell(' ', Override(w, fc))
  }

  lemma PuddlesListed(w: World)
    requires WorldOk(w)
    ensures Listed(w.puddles.keys, w.puddles.at)
  {
    forall i | 0 <= i < |w.puddles.keys|
      ensures w.puddles.keys[i] in w.puddles.at && w.puddles.at[w.puddles.keys[i]].intensity >= 0.0
      ensures w.puddles.at[w.puddles.keys[i]].width >= 0
    {
      assert PuddlesOk(w.puddles) && PoolOk(w.puddles);
      var k := w.puddles.keys[i];
      assert k in w.puddles.keys;
      assert k in w.puddles.at;
    }
  }

  /** While the screen flash lasts every cell of the frame, written or not, is in the
      flash colour. */
  lemma FlashTintsScene(w: World, fc: string, x: int, y: int)
    requires WorldOk(w) && w.sky.flash > 0
    ensures Shown(BlankD(w, fc), SceneWritesD(w, fc), x, y).color == Some(fc)
  {
    PuddlesListed(w);
    var o := Override(w, fc);
    var bolts := if w.sky.flicker > 0 && w.sky.bolts != [] then BoltWritesD(w.sky.bolts, Tint(o, COLOR_LIGHTNING)) else [];
    var a := LayerWritesD(w.bg, o) + LayerWritesD(w.fg, o);
    TintedAppend(LayerWritesD(w.bg, o), LayerWritesD(w.fg, o), o);
    var b := a + RainWritesD(w.drops, o);
    TintedAppend(a, RainWritesD(w.drops, o), o);
    var c := b + bolts;
    TintedAppend(b, bolts, o);
    var p := ClaimWritesD(w.puddles.keys, w.puddles.at, w.width, w.splashLine, o);
    TintedAppend(c, p, o);
    assert c + p == BackdropD(w, fc);
    var g := c + p + SplashWritesD(w, fc);
    TintedAppend(c + p, SplashWritesD(w, fc), o);
    TintedAppend(g, RumbleWritesD(w, fc), o);
    ShownTinted(BlankD(w, fc), SceneWritesD(w, fc), x, y);
  }

  /** While the rumble lasts, its caption is on top: character `i` shows at its column of
      the rumble row, centred at `(WIDTH - len) // 2`, whatever else was drawn there. */
  lemma RumbleOnTopD(w: World, fc: string, i: int)
    requires WorldOk(w) && w.sky.rumble > 0 && 0 <= i < |w.sky.rumbleText|
    ensures var x := D.RumbleStart(w.sky.rumbleText, w.width) + i;
      Shown(BlankD(w, fc), SceneWritesD(w, fc), x, w.rumbleLine)
      == Cell(w.sky.rumbleText[i], Tint(Override(w, fc), COLOR_RUMBLE_TEXT))
  {
    var pre := BackdropD(w, fc) + SplashWritesD(w, fc);
    assert SceneWritesD(w, fc) == pre + RumbleWritesD(w, fc);
    TextOnTop(BlankD(w, fc), pre, D.RumbleStart(w.sky.rumbleText, w.width), w.rumbleLine, w.sky.rumbleText,
              Tint(Override(w, fc), COLOR_RUMBLE_TEXT), i);
  }

  /** A splash dot covers whatever cloud, drop, bolt or puddle was drawn at its cell,
      unless the rumble caption is on show on that row. */
  lemma SplashOverPuddleD(w: World, fc: string, k: int)
    requires WorldOk(w) && 0 <= k < |w.splashes|
    requires w.sky.rumble == 0 || w.splashes[k].y != w.rumbleLine
    ensures Shown(BlankD(w, fc), SceneWritesD(w, fc), w.splashes[k].x, w.splashes[k].y).glyph == SPLASH_CHAR
  {
    var e := w.splashes[k];
    var s := SplashWritesD(w, fc);
    var r := RumbleWritesD(w, fc);
    if w.sky.rumble > 0 {
      TextWritesAll(D.RumbleStart(w.sky.rumbleText, w.width), w.rumbleLine, w.sky.rumbleText,
                    Tint(Override(w, fc), COLOR_RUMBLE_TEXT));
    }
    assert forall m :: 0 <= m < |r| ==> !Screen.Hits(r[m], e.x, e.y);
    var under := Shown(BlankD(w, fc), BackdropD(w, fc), e.x, e.y);
    ShownConcat(BlankD(w, fc), BackdropD(w, fc) + s, r, e.x, e.y);
    ShownUntouched(Shown(BlankD(w, fc), BackdropD(w, fc) + s, e.x, e.y), r, e.x, e.y);
    ShownConcat(BlankD(w, fc), BackdropD(w, fc), s, e.x, e.y);
    assert Screen.Hits(s[k], e.x, e.y);
    ShownGlyph(under, s, e.x, e.y, SPLASH_CHAR);
  }

  /** At a column of the splash line with no splash dot on it, the frame shows what the
      backdrop left there: neither the splashes nor the rumble caption touch it. */
  lemma SplashLineBackdrop(w: World, fc: string, x: int)
    requires WorldOk(w)
    requires forall k :: 0 <= k < |w.splashes| ==> !(w.splashes[k].x == x && w.splashes[k].y == w.splashLine)
    ensures Shown(BlankD(w, fc), SceneWritesD(w, fc), x, w.splashLine) == Shown(BlankD(w, fc), BackdropD(w, fc), x, w.splashLine)
  {
    var o := Override(w, fc);
    if w.sky.rumble > 0 {
      TextWritesAll(D.RumbleStart(w.sky.rumbleText, w.width), w.rumbleLine, w.sky.rumbleText,
                    Tint(o, COLOR_RUMBLE_TEXT));
    }
    var b := BackdropD(w, fc);
    var s := SplashWritesD(w, fc);
    var r := RumbleWritesD(w, fc);
    assert SceneWritesD(w, fc) == b + s + r;
    assert forall k :: 0 <= k < |s| ==> !Screen.Hits(s[k], x, w.splashLine);
    assert forall k :: 0 <= k < |r| ==> !Screen.Hits(r[k], x, w.splashLine);
    ShownConcat(BlankD(w, fc), b + s, r, x, w.splashLine);
    ShownUntouched(Shown(BlankD(w, fc), b + s, x, w.splashLine), r, x, w.splashLine);
    ShownConcat(BlankD(w, fc), b, s, x, w.splashLine);
    ShownUntouched(Shown(BlankD(w, fc), b, x, w.splashLine), s, x, w.splashLine);
  }

  /** Over any earlier cell, the puddle writes leave at column `x` of their line the glyph
      of the first puddle covering `x`. */
  lemma ClaimShown(base: Cell, keys: seq<int>, at: map<int, PuddleD>, width: int, line: int, color: Option<string>, j: int, x: int)
    requires Listed(keys, at) && FirstCover(keys, at, j, x) && 0 <= x < width
    ensures Shown(base, ClaimWritesD(keys, at, width, line, color), x, line) == Cell(PuddleGlyph(at[keys[j]].intensity), color)
  {
    var p := ClaimWritesD(keys, at, width, line, color);
    ClaimedBy(keys, at, width, line, color, j, x);
    var m :| 0 <= m < |p| && p[m] == Write(x, line, Cell(PuddleGlyph(at[keys[j]].intensity), color))
             && forall k :: 0 <= k < |p| && k != m ==> p[k].x != x;
    assert LastHit(p, m, x, line);
    ShownLastWrite(base, p, m, x, line);
  }

  /** A column of the splash line with no splash dot on it shows the glyph of the first
      puddle in dict order that covers it, whatever later puddles cover it too. */
  lemma PuddleColumnShown(w: World, fc: string, j: int, x: int)
    requires WorldOk(w) && 0 <= x < w.width && Listed(w.puddles.keys, w.puddles.at)
    requires FirstCover(w.puddles.keys, w.puddles.at, j, x)
    requires forall k :: 0 <= k < |w.splashes| ==> !(w.splashes[k].x == x && w.splashes[k].y == w.splashLine)
    ensures Shown(BlankD(w, fc), SceneWritesD(w, fc), x, w.splashLine)
      == Cell(PuddleGlyph(w.puddles.at[w.puddles.keys[j]].intensity), Tint(Override(w, fc), COLOR_PUDDLE))
  {
    SplashLineBackdrop(w, fc, x);
    var o := Override(w, fc);
    var p := ClaimWritesD(w.puddles.keys, w.puddles.at, w.width, w.splashLine, Tint(o, COLOR_PUDDLE));
    var pre := LayerWritesD(w.bg, Tint(o, COLOR_CLOUD_BG)) + LayerWritesD(w.fg, Tint(o, COLOR_CLOUD_FG))
      + RainWritesD(w.drops, Tint(o, COLOR_RAIN))
      + (if w.sky.flicker > 0 && w.sky.bolts != [] then BoltWritesD(w.sky.bolts, Tint(o, COLOR_LIGHTNING)) else []);
    assert BackdropD(w, fc) == pre + p;
    ShownConcat(BlankD(w, fc), pre, p, x, w.splashLine);
    ClaimShown(Shown(BlankD(w, fc), pre, x, w.splashLine), w.puddles.keys, w.puddles.at, w.width, w.splashLine, Tint(o, COLOR_PUDDLE), j, x);
  }

  /** Bolts are drawn only while the flicker lasts: with the flicker over, the frame is
      the same whatever bolt paths are still recorded. */
  lemma BoltsOnlyWhileFlickeringD(w: World, fc: string, bolts: seq<seq<(int, int)>>)
    requires WorldOk(w) && w.sky.flicker == 0
    ensures SceneWritesD(w, fc) == SceneWritesD(w.(sky := w.sky.(bolts := bolts)), fc)
  {
  }

  /** The frame `draw_scene` leaves in `screen_buffer`: the cleared buffer with every write
      of the frame applied in order, the puddles by the program's own loop. */
  method DrawSceneD(w: World, fc: string) returns (buf: array2<Cell>)
    requires WorldOk(w)
    ensures fresh(buf) && buf.Length0 == w.height && buf.Length1 == w.width
    ensures forall i, j :: 0 <= i < w.height && 0 <= j < w.width ==>
      buf[i, j] == Shown(BlankD(w, fc), SceneWritesD(w, fc), j, i)
  {
    PuddlesListed(w);
    var o := Override(w, fc);
    var puddles := DrawPuddles(w.puddles.keys, w.puddles.at, w.width, w.splashLine, Tint(o, COLOR_PUDDLE));
    var bolts := if w.sky.flicker > 0 && w.sky.bolts != [] then BoltWritesD(w.sky.bolts, Tint(o, COLOR_LIGHTNING)) else [];
    var ws := LayerWritesD(w.bg, Tint(o, COLOR_CLOUD_BG)) + LayerWritesD(w.fg, Tint(o, COLOR_CLOUD_FG))
      + RainWritesD(w.drops, Tint(o, COLOR_RAIN)) + bolts + puddles + SplashWritesD(w, fc) + RumbleWritesD(w, fc);
    assert ws == SceneWritesD(w, fc);
    buf := Compose(w.width, w.height, BlankD(w, fc), ws);
  }
}
