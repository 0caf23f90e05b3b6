/** `draw_scene` of app/storm1.py: the writes one frame makes into the screen buffer, in
    the order the program makes them, and what the composed buffer then shows. */
module Storm1Draw {
  import opened PyNum
  import opened StormConfig
  import opened PuddleMath
  import opened Screen
  import opened Storm1
  import opened StormCommon
  import opened Storm1Globals

  /** `flash_color_override`: the flash colour while the screen flash lasts, else none. */
  function FlashOverride(flash: nat): (o: Option<string>)
    ensures o.Some? <==> flash > 0
    ensures o.Some? ==> o.value == COLOR_SCREEN_FLASH
  {
    if flash > 0 then Some(COLOR_SCREEN_FLASH) else None
  }

  /** The glyph and colour a disturbed puddle column shows. app/config.py defines neither
      `PUDDLE_DISTURBANCE_CHAR` nor `COLOR_PUDDLE_DISTURBANCE`, so they are parameters. */
  datatype Look = Look(glyph: char, color: string)

  /** Some disturbance of the list is at column `x`. */
  predicate DisturbedAt(ds: seq<Disturbance>, x: int) {
    exists k :: 0 <= k < |ds| && ds[k].x == x
  }

  /** What `Puddle.draw` puts in column `x`: the disturbance glyph where the puddle is
      disturbed, otherwise the glyph of its intensity. */
  function ColumnCell(p: PuddleV, x: int, o: Option<string>, look: Look): (c: Cell)
    requires p.intensity >= 0.0
  {
    if DisturbedAt(p.disturbances, x) then Cell(look.glyph, Tint(o, look.color))
    else Cell(PuddleGlyph(p.intensity), Tint(o, COLOR_PUDDLE))
  }

  /** The loop of `Puddle.draw` over the first `n` columns from the left edge of the
      puddle, skipping the ones off the screen. */
  function SpanWrites(p: PuddleV, line: int, width: int, o: Option<string>, look: Look, n: nat): seq<Write>
    requires p.intensity >= 0.0
  {
    if n == 0 then []
    else
      var x := MinX(p) + n - 1;
      SpanWrites(p, line, width, o, look, n - 1) + (if 0 <= x < width then [Write(x, line, ColumnCell(p, x, o, look))] else [])
  }

  /** `Puddle.draw` on the row `line`, with disturbed columns drawn in `look`. */
  function PuddleWrites(p: PuddleV, line: int, width: int, o: Option<string>, look: Look): seq<Write>
    requires p.intensity >= 0.0
  {
    SpanWrites(p, line, width, o, look, if p.width > 0 then p.width else 0)
  }

  /** The columns drawn are the on-screen columns from the puddle's left edge on, one write
      each, left to right. */
  lemma {:induction false} SpanWritesClosed(p: PuddleV, line: int, width: int, o: Option<string>, look: Look, n: nat)
    requires p.intensity >= 0.0
    ensures var r := SpanWrites(p, line, width, o, look, n);
      var lo := Max(MinX(p), 0);
      var hi := Min(MinX(p) + n - 1, width - 1);
      && |r| == Max(0, hi - lo + 1)
      && forall k :: 0 <= k < |r| ==> r[k] == Write(lo + k, line, ColumnCell(p, lo + k, o, look))
  {
    if n > 0 {
      SpanWritesClosed(p, line, width, o, look, n - 1);
    }
  }

  /** A puddle writes exactly its on-screen columns, each once, in order from the left,
      on the given row; a column shows the disturbance glyph exactly when a disturbance
      is there, otherwise the glyph of the puddle's intensity. */
  lemma PuddleWritesShape(p: PuddleV, line: int, width: int, o: Option<string>, look: Look)
    requires p.intensity >= 0.0 && p.width >= 1
    ensures var r := PuddleWrites(p, line, width, o, look);
      var lo := Max(MinX(p), 0);
      var hi := Min(MaxX(p), width - 1);
      && |r| == Max(0, hi - lo + 1)
      && (forall k :: 0 <= k < |r| ==> r[k].x == lo + k && r[k].y == line && Inside(p, r[k].x) && 0 <= r[k].x < width)
      && (forall k :: 0 <= k < |r| ==> (r[k].cell.glyph == look.glyph && r[k].cell.color == Tint(o, look.color)) || !DisturbedAt(p.disturbances, r[k].x))
      && (forall k :: 0 <= k < |r| ==> r[k].cell == Cell(PuddleGlyph(p.intensity), Tint(o, COLOR_PUDDLE)) || DisturbedAt(p.disturbances, r[k].x))
  {
    SpanWritesClosed(p, line, width, o, look, p.width);
  }

  /** Some on-screen column of the puddle holds a disturbance. */
  predicate DisturbedOnScreen(p: PuddleV, width: int) {
    exists x :: Inside(p, x) && 0 <= x < width && DisturbedAt(p.disturbances, x)
  }

  /** `Puddle.draw` as app/storm1.py has it: the first disturbed on-screen column reads
      `config.PUDDLE_DISTURBANCE_CHAR`, which raises, so no frame comes out (`None`). */
  function SpanAsWritten(p: PuddleV, line: int, width: int, o: Option<string>, n: nat): Option<seq<Write>>
    requires p.intensity >= 0.0
  {
    if n == 0 then Some([])
    else
      var x := MinX(p) + n - 1;
      match SpanAsWritten(p, line, width, o, n - 1)
      case None => None
      case Some(ws) =>
        if !(0 <= x < width) then Some(ws)
        else if DisturbedAt(p.disturbances, x) then None
        else Some(ws + [Write(x, line, Cell(PuddleGlyph(p.intensity), Tint(o, COLOR_PUDDLE)))])
  }

  function PuddleAsWritten(p: PuddleV, line: int, width: int, o: Option<string>): Option<seq<Write>>
    requires p.intensity >= 0.0
  {
    SpanAsWritten(p, line, width, o, if p.width > 0 then p.width else 0)
  }

  /** Some column among the first `n` of the puddle is on the screen and disturbed. */
  predicate DisturbedWithin(p: PuddleV, width: int, n: nat) {
    exists x :: MinX(p) <= x < MinX(p) + n && 0 <= x < width && DisturbedAt(p.disturbances, x)
  }

  lemma {:induction false} SpanAsWrittenAgrees(p: PuddleV, line: int, width: int, o: Option<string>, look: Look, n: nat)
    requires p.intensity >= 0.0
    ensures SpanAsWritten(p, line, width, o, n) == if DisturbedWithin(p, width, n) then None else Some(SpanWrites(p, line, width, o, look, n))
  {
    if n > 0 {
      SpanAsWrittenAgrees(p, line, width, o, look, n - 1);
      var x := MinX(p) + n - 1;
      var here := 0 <= x < width && DisturbedAt(p.disturbances, x);
      if here {
        assert MinX(p) <= x < MinX(p) + n;
        assert DisturbedWithin(p, width, n);
      } else if DisturbedWithin(p, width, n) {
        var y :| MinX(p) <= y < MinX(p) + n && 0 <= y < width && DisturbedAt(p.disturbances, y);
        assert y != x;
        assert DisturbedWithin(p, width, n - 1);
      } else {
        assert !DisturbedWithin(p, width, n - 1);
        var ws := SpanWrites(p, line, width, o, look, n - 1);
        if 0 <= x < width {
          assert ColumnCell(p, x, o, look) == Cell(PuddleGlyph(p.intensity), Tint(o, COLOR_PUDDLE));
        } else {
          assert ws + [] == ws;
        }
      }
    }
  }

  /** The puddle as written breaks exactly when one of its on-screen columns is disturbed;
      otherwise it draws what the intended puddle draws, whatever the disturbance look. */
  lemma PuddleAsWrittenAgrees(p: PuddleV, line: int, width: int, o: Option<string>, look: Look)
    requires p.intensity >= 0.0 && p.width >= 1
    ensures PuddleAsWritten(p, line, width, o).None? <==> DisturbedOnScreen(p, width)
    ensures !DisturbedOnScreen(p, width) ==> PuddleAsWritten(p, line, width, o) == Some(PuddleWrites(p, line, width, o, look))
  {
    SpanAsWrittenAgrees(p, line, width, o, look, p.width);
    assert DisturbedWithin(p, width, p.width) <==> DisturbedOnScreen(p, width);
  }

  /** The frame on the screen after the first drop in a frame with no puddles lands in
      column `x`: the new puddle is still disturbed when it is drawn, so the program as
      written raises instead of drawing. */
  lemma FirstSplashBreaksDraw(x: int, line: int, width: int, s: real, o: Option<string>)
    requires 0 <= x < width && 0.0 <= s <= 1.0
    ensures var ps := Tick(Absorb([], x), s, PUDDLE_CAP);
      |ps| == 1 && ps[0].intensity >= 0.0 && PuddleAsWritten(ps[0], line, width, o).None?
  {
    var q := Absorb([], x)[0];
    assert q == PuddleV(x, INITIAL_PUDDLE_INTENSITY as real, 1, [Disturbance(x, PUDDLE_DISTURBANCE_DURATION)]);
    assert Survives(q, s);
    var e := Evolve(q, s);
    assert AgeDisturbances(q.disturbances) == [Disturbance(x, PUDDLE_DISTURBANCE_DURATION - 1)];
    assert Survivors([q], s) == [e];
    assert e.disturbances[0].x == x;
    assert e.width == 1 && Inside(e, x) && DisturbedAt(e.disturbances, x);
    PuddleAsWrittenAgrees(e, line, width, o, Look(' ', ""));
  }

  // ---------------------------------------------------------------- the frame

  /** One frame's worth of the globals, as values. */
  datatype Frame = Frame(width: int, height: int, rumbleLine: int, splashLine: int, sah: int,
                         bg: seq<CloudV>, fg: seq<CloudV>, drops: seq<DropV>, lightning: Lightning,
                         puddles: seq<PuddleV>, splashes: seq<Effect>)

  /** The clouds are on rows of the storm area and the puddles hold no negative water. */
  predicate Drawable(f: Frame) {
    && (forall i :: 0 <= i < |f.bg| ==> 0 <= f.bg[i].y < f.sah)
    && (forall i :: 0 <= i < |f.fg| ==> 0 <= f.fg[i].y < f.sah)
    && (forall i :: 0 <= i < |f.puddles| ==> f.puddles[i].intensity >= 0.0)
  }

  /** The clouds of one layer, in list order. */
  function LayerWrites(cs: seq<CloudV>, isFg: bool, sah: int, o: Option<string>): (r: seq<Write>)
    requires forall i :: 0 <= i < |cs| ==> 0 <= cs[i].y < sah
    ensures Tinted(r, Tint(o, if isFg then COLOR_CLOUD_FG else COLOR_CLOUD_BG))
  {
    if cs == [] then []
    else
      var init := LayerWrites(cs[..|cs| - 1], isFg, sah, o);
      var last := CloudWrites(cs[|cs| - 1], isFg, sah, o);
      TintedAppend(init, last, Tint(o, if isFg then COLOR_CLOUD_FG else COLOR_CLOUD_BG));
      init + last
  }

  /** The drops, in list order. */
  function RainWrites(ds: seq<DropV>, splashLine: int, width: int, o: Option<string>): (r: seq<Write>)
    ensures Tinted(r, Tint(o, COLOR_RAIN))
    ensures forall k :: 0 <= k < |r| ==> 0 <= r[k].y < splashLine
  {
    if ds == [] then []
    else
      var init := RainWrites(ds[..|ds| - 1], splashLine, width, o);
      var last := DropWrites(ds[|ds| - 1], splashLine, width, o);
      TintedAppend(init, last, Tint(o, COLOR_RAIN));
      init + last
  }

  /** One write of glyph `g` in colour `c` per point. */
  function PathWrites(path: seq<(int, int)>, g: char, c: Option<string>): (r: seq<Write>)
    ensures |r| == |path|
    ensures forall k :: 0 <= k < |r| ==> r[k] == Write(path[k].0, path[k].1, Cell(g, c))
  {
    if path == [] then [] else PathWrites(path[..|path| - 1], g, c) + [Write(path[|path| - 1].0, path[|path| - 1].1, Cell(g, c))]
  }

  /** Every point of every bolt, bolt by bolt, in the bolt's glyph. */
  function BoltWrites(bolts: seq<Bolt>, c: Option<string>): (r: seq<Write>)
    ensures Tinted(r, c)
  {
    if bolts == [] then []
    else
      var init := BoltWrites(bolts[..|bolts| - 1], c);
      var last := PathWrites(bolts[|bolts| - 1].path, bolts[|bolts| - 1].glyph, c);
      TintedAppend(init, last, c);
      init + last
  }

  /** One write of glyph `g` in colour `c` per effect, at the effect's cell. */
  function EffectWrites(es: seq<Effect>, g: char, c: Option<string>): (r: seq<Write>)
    ensures |r| == |es|
    ensures forall k :: 0 <= k < |r| ==> r[k] == Write(es[k].x, es[k].y, Cell(g, c))
  {
    if es == [] then [] else EffectWrites(es[..|es| - 1], g, c) + [Write(es[|es| - 1].x, es[|es| - 1].y, Cell(g, c))]
  }

  /** The puddles, in list order. */
  function PuddlesWrites(ps: seq<PuddleV>, line: int, width: int, o: Option<string>, look: Look): (r: seq<Write>)
    requires forall i :: 0 <= i < |ps| ==> ps[i].intensity >= 0.0
    ensures o.Some? ==> Tinted(r, o)
  {
    if ps == [] then []
    else
      var init := PuddlesWrites(ps[..|ps| - 1], line, width, o, look);
      var last := PuddleWrites(ps[|ps| - 1], line, width, o, look);
      if o.Some? then
        PuddleTinted(ps[|ps| - 1], line, width, o, look);
        TintedAppend(init, last, o);
        init + last
      else init + last
  }

  lemma PuddleTinted(p: PuddleV, line: int, width: int, o: Option<string>, look: Look)
    requires p.intensity >= 0.0 && o.Some?
    ensures Tinted(PuddleWrites(p, line, width, o, look), o)
  {
    SpanWritesClosed(p, line, width, o, look, if p.width > 0 then p.width else 0);
  }

  /** The rumble caption, centred on its row: character `i` at `(width - len) // 2 + i`. */
  function RumbleStart(text: string, width: int): int {
    (width - |text|) / 2
  }

  /** Everything `draw_scene` writes before the splash dots: background then foreground
      clouds, the rain, the bolts while the flicker lasts, the ground strikes and the
      puddles on the splash line. */
  function Backdrop(f: Frame, look: Look): seq<Write>
    requires Drawable(f)
  {
    var o := FlashOverride(f.lightning.flash);
    LayerWrites(f.bg, false, f.sah, o) + LayerWrites(f.fg, true, f.sah, o)
    + RainWrites(f.drops, f.splashLine, f.width, o)
    + (if f.lightning.flicker > 0 && f.lightning.bolts != [] then BoltWrites(f.lightning.bolts, Tint(o, COLOR_LIGHTNING)) else [])
    + EffectWrites(f.lightning.groundStrikes, GROUND_STRIKE_EFFECT_CHAR, Tint(o, COLOR_GROUND_STRIKE))
    + PuddlesWrites(f.puddles, f.splashLine, f.width, o, look)
  }

  /** The splash dots. */
  function SplashWrites(f: Frame): seq<Write> {
    EffectWrites(f.splashes, SPLASH_CHAR, Tint(FlashOverride(f.lightning.flash), COLOR_SPLASH))
  }

  /** The rumble caption while the rumble lasts. */
  function RumbleWrites(f: Frame): seq<Write> {
    if f.lightning.rumble > 0 then
      TextWrites(RumbleStart(f.lightning.rumbleText, f.width), f.rumbleLine, f.lightning.rumbleText,
                 Tint(FlashOverride(f.lightning.flash), COLOR_RUMBLE_TEXT), false)
    else []
  }

  /** Every write of `draw_scene`, in order. */
  function SceneWrites(f: Frame, look: Look): seq<Write>
    requires Drawable(f)
  {
    Backdrop(f, look) + SplashWrites(f) + RumbleWrites(f)
  }

  /** The cleared buffer: blank cells in the flash colour, if any. */
  function Blank(f: Frame): Cell {
    Cell(' ', FlashOverride(f.lightning.flash))
  }

  /** While the screen flash lasts every cell of the frame, written or not, is in the
      flash colour. */
  lemma FlashTintsFrame(f: Frame, look: Look, x: int, y: int)
    requires Drawable(f) && f.lightning.flash > 0
    ensures Shown(Blank(f), SceneWrites(f, look), x, y).color == Some(COLOR_SCREEN_FLASH)
  {
    var o := FlashOverride(f.lightning.flash);
    var bolts := if f.lightning.flicker > 0 && f.lightning.bolts != [] then BoltWrites(f.lightning.bolts, Tint(o, COLOR_LIGHTNING)) else [];
    var a := LayerWrites(f.bg, false, f.sah, o) + LayerWrites(f.fg, true, f.sah, o);
    TintedAppend(LayerWrites(f.bg, false, f.sah, o), LayerWrites(f.fg, true, f.sah, o), o);
    var b := a + RainWrites(f.drops, f.splashLine, f.width, o);
    TintedAppend(a, RainWrites(f.drops, f.splashLine, f.width, o), o);
    var c := b + bolts;
    TintedAppend(b, bolts, o);
    var strikes := EffectWrites(f.lightning.groundStrikes, GROUND_STRIKE_EFFECT_CHAR, Tint(o, COLOR_GROUND_STRIKE));
    var d := c + strikes;
    TintedAppend(c, strikes, o);
    var e := d + PuddlesWrites(f.puddles, f.splashLine, f.width, o, look);
    TintedAppend(d, PuddlesWrites(f.puddles, f.splashLine, f.width, o, look), o);
    assert e == Backdrop(f, look);
    var g := e + SplashWrites(f);
    TintedAppend(e, SplashWrites(f), o);
    TintedAppend(g, RumbleWrites(f), o);
    ShownTinted(Blank(f), SceneWrites(f, look), x, y);
  }

  /** While the rumble lasts, its caption is on top: character `i` shows at its column of
      the rumble row, whatever else was drawn there. */
  lemma RumbleOnTop(f: Frame, look: Look, i: int)
    requires Drawable(f) && f.lightning.rumble > 0 && 0 <= i < |f.lightning.rumbleText|
    ensures var x := RumbleStart(f.lightning.rumbleText, f.width) + i;
      Shown(Blank(f), SceneWrites(f, look), x, f.rumbleLine)
      == Cell(f.lightning.rumbleText[i], Tint(FlashOverride(f.lightning.flash), COLOR_RUMBLE_TEXT))
  {
    var pre := Backdrop(f, look) + SplashWrites(f);
    assert SceneWrites(f, look) == pre + RumbleWrites(f);
    TextOnTop(Blank(f), pre, RumbleStart(f.lightning.rumbleText, f.width), f.rumbleLine, f.lightning.rumbleText,
              Tint(FlashOverride(f.lightning.flash), COLOR_RUMBLE_TEXT), i);
  }

  /** A splash dot covers whatever cloud, drop, bolt, strike or puddle was drawn at its
      cell, unless the rumble caption is on show on that row. */
  lemma SplashOverPuddle(f: Frame, look: Look, k: int)
    requires Drawable(f) && 0 <= k < |f.splashes|
    requires f.lightning.rumble == 0 || f.splashes[k].y != f.rumbleLine
    ensures Shown(Blank(f), SceneWrites(f, look), f.splashes[k].x, f.splashes[k].y).glyph == SPLASH_CHAR
  {
    var e := f.splashes[k];
    var s := SplashWrites(f);
    var r := RumbleWrites(f);
    if f.lightning.rumble > 0 {
      TextWritesAll(RumbleStart(f.lightning.rumbleText, f.width), f.rumbleLine, f.lightning.rumbleText,
                    Tint(FlashOverride(f.lightning.flash), COLOR_RUMBLE_TEXT));
    }
    assert forall m :: 0 <= m < |r| ==> !Hits(r[m], e.x, e.y);
    var under := Shown(Blank(f), Backdrop(f, look), e.x, e.y);
    ShownConcat(Blank(f), Backdrop(f, look) + s, r, e.x, e.y);
    ShownUntouched(Shown(Blank(f), Backdrop(f, look) + s, e.x, e.y), r, e.x, e.y);
    ShownConcat(Blank(f), Backdrop(f, look), s, e.x, e.y);
    assert Hits(s[k], e.x, e.y);
    ShownGlyph(under, s, e.x, e.y, SPLASH_CHAR);
  }

  /** Bolts are drawn only while the flicker lasts: with the flicker over, the frame is
      the same whatever bolts are still recorded. */
  lemma BoltsOnlyWhileFlickering(f: Frame, look: Look, bolts: seq<Bolt>)
    requires Drawable(f) && f.lightning.flicker == 0
    ensures SceneWrites(f, look) == SceneWrites(f.(lightning := f.lightning.(bolts := bolts)), look)
  {
  }

  /** `draw_scene` with the drop, cloud and puddle objects read into values. */
  function FrameOf(g: Globals): (f: Frame)
    reads g.cloudsFg, g.cloudsBg, g.raindrops, g.puddles
  {
    Frame(g.width, g.height, g.rumbleLine, g.splashLine, g.stormAreaHeight, CloudValues(g.cloudsBg), CloudValues(g.cloudsFg),
          DropValues(g.raindrops), g.lightning, PuddleValues(g.puddles), g.splashes)
  }

  /** The frame `draw_scene` leaves in `screen_buffer`, disturbed puddle columns drawn in
      `look`: the cleared buffer with every write of the frame applied in order. */
  method DrawScene(g: Globals, look: Look) returns (buf: array2<Cell>)
    requires GlobalsOk(g)
    ensures fresh(buf) && buf.Length0 == g.height && buf.Length1 == g.width
    ensures Drawable(FrameOf(g))
    ensures forall i, j :: 0 <= i < g.height && 0 <= j < g.width ==>
      buf[i, j] == Shown(Blank(FrameOf(g)), SceneWrites(FrameOf(g), look), j, i)
  {
    FrameDrawable(g);
    var f := FrameOf(g);
    buf := Compose(g.width, g.height, Blank(f), SceneWrites(f, look));
    assert FrameOf(g) == f;
  }

  lemma FrameDrawable(g: Globals)
    requires GlobalsOk(g)
    ensures Drawable(FrameOf(g))
  {
    var f := FrameOf(g);
    assert forall i :: 0 <= i < |f.bg| ==> f.bg[i] == g.cloudsBg[i].Value() && g.cloudsBg[i].Valid();
    assert forall i :: 0 <= i < |f.fg| ==> f.fg[i] == g.cloudsFg[i].Value() && g.cloudsFg[i].Valid();
    assert forall i :: 0 <= i < |f.puddles| ==> f.puddles[i].intensity > 0.0;
  }

  /** `draw_scene` as app/storm1.py has it: no frame when a puddle breaks its draw. */
  function PuddlesAsWritten(ps: seq<PuddleV>, line: int, width: int, o: Option<string>): Option<seq<Write>>
    requires forall i :: 0 <= i < |ps| ==> ps[i].intensity >= 0.0
  {
    if ps == [] then Some([])
    else
      match PuddlesAsWritten(ps[..|ps| - 1], line, width, o)
      case None => None
      case Some(init) =>
        match PuddleAsWritten(ps[|ps| - 1], line, width, o)
        case None => None
        case Some(last) => Some(init + last)
  }

  function SceneAsWritten(f: Frame): Option<seq<Write>>
    requires Drawable(f)
  {
    var o := FlashOverride(f.lightning.flash);
    match PuddlesAsWritten(f.puddles, f.splashLine, f.width, o)
    case None => None
    case Some(pw) =>
      Some(LayerWrites(f.bg, false, f.sah, o) + LayerWrites(f.fg, true, f.sah, o)
           + RainWrites(f.drops, f.splashLine, f.width, o)
           + (if f.lightning.flicker > 0 && f.lightning.bolts != [] then BoltWrites(f.lightning.bolts, Tint(o, COLOR_LIGHTNING)) else [])
           + EffectWrites(f.lightning.groundStrikes, GROUND_STRIKE_EFFECT_CHAR, Tint(o, COLOR_GROUND_STRIKE))
           + pw + SplashWrites(f) + RumbleWrites(f))
  }

  lemma {:induction false} PuddlesAsWrittenAgrees(ps: seq<PuddleV>, line: int, width: int, o: Option<string>, look: Look)
    requires forall i :: 0 <= i < |ps| ==> ps[i].intensity >= 0.0 && ps[i].width >= 1
    ensures var bad := exists i :: 0 <= i < |ps| && DisturbedOnScreen(ps[i], width);
      PuddlesAsWritten(ps, line, width, o) == if bad then None else Some(PuddlesWrites(ps, line, width, o, look))
  {
    if ps != [] {
      var init := ps[..|ps| - 1];
      var p := ps[|ps| - 1];
      PuddlesAsWrittenAgrees(init, line, width, o, look);
      PuddleAsWrittenAgrees(p, line, width, o, look);
      if exists i :: 0 <= i < |init| && DisturbedOnScreen(init[i], width) {
        var i :| 0 <= i < |init| && DisturbedOnScreen(init[i], width);
        assert ps[i] == init[i];
      }
      if exists i :: 0 <= i < |ps| && DisturbedOnScreen(ps[i], width) {
        var i :| 0 <= i < |ps| && DisturbedOnScreen(ps[i], width);
        if i < |init| {
          assert init[i] == ps[i];
        }
      }
    }
  }

  /** The program as written produces no frame exactly when some puddle has a disturbed
      column on the screen; otherwise its frame is the intended one, whatever the look. */
  lemma SceneAsWrittenAgrees(f: Frame, look: Look)
    requires Drawable(f) && AllWide(f.puddles)
    ensures SceneAsWritten(f).None? <==> exists i :: 0 <= i < |f.puddles| && DisturbedOnScreen(f.puddles[i], f.width)
    ensures SceneAsWritten(f).Some? ==> SceneAsWritten(f) == Some(SceneWrites(f, look))
  {
    PuddlesAsWrittenAgrees(f.puddles, f.splashLine, f.width, FlashOverride(f.lightning.flash), look);
  }
}
