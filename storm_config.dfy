/** Settings of the terminal storm animation and the helpers that depend only on them
    (app/config.py). The terminal width and height are defaults that the programs
    override from the terminal size, so the simulation modules take them as values. */
module StormConfig {
  import opened PyNum
  import opened PyStr

  const WIDTH := 80
  const HEIGHT := 24

  const STORM_CYCLE_SPEED := 0.01
  const STORM_GUST_FACTOR := 0.3
  const MAX_WIND_DRIFT_BASE := 3.0
  const MIN_RAINDROPS := 10
  const MAX_RAINDROPS := 150
  const RAIN_SIDE_ORIGIN_THRESHOLD := 1.5

  const SPLASH_CHAR := '.'
  const SPLASH_DURATION_FRAMES := 2

  const PUDDLE_CHARS := ['.', '-', '~', '≈']
  const PUDDLE_MAX_INTENSITY := |PUDDLE_CHARS| - 1
  const PUDDLE_FORMATION_PER_SPLASH := 0.5
  const PUDDLE_EVAPORATION_RATE := 0.02
  const PUDDLE_SPREAD_THRESHOLD := 2.0
  const PUDDLE_MAX_WIDTH_PER_POINT := 5
  const PUDDLE_MERGE_DISTANCE := 2
  const PUDDLE_DISTURBANCE_DURATION := 3
  const INITIAL_PUDDLE_INTENSITY := 2

  const NUM_CLOUDS_FG := 4
  const NUM_CLOUDS_BG := 3
  const CLOUD_CHAR := '☁'
  const CLOUD_MIN_WIDTH := 5
  const CLOUD_MAX_WIDTH := 12
  const BASE_CLOUD_SPEED_FG := 0.3
  const CLOUD_WIND_FACTOR_FG := 0.4
  const BASE_CLOUD_SPEED_BG_FACTOR := 0.6
  const CLOUD_WIND_FACTOR_BG := 0.2

  const LIGHTNING_PROBABILITY := 0.03
  const LIGHTNING_BOLT_CHARS := ['#', '*', '+', '⚡']
  const LIGHTNING_PRIMARY_BOLT_CHAR := '#'
  const RUMBLE_TEXTS := ["RUMBLE...", "CRACK...", "BOOOM...", "rumble..."]
  const RUMBLE_DURATION_MIN := 12
  const RUMBLE_DURATION_MAX := 30
  const LIGHTNING_FLICKER_DURATION := 3
  const LIGHTNING_COMPLEXITY_PROBABILITY := 0.5
  const LIGHTNING_MAX_BRANCHES := 4
  const LIGHTNING_BRANCH_LENGTH_FACTOR := 0.6
  const LIGHTNING_FLASH_DURATION := 1
  const GROUND_STRIKE_EFFECT_CHAR := '⁂'
  const GROUND_STRIKE_EFFECT_DURATION := 2

  /** Colours are kept as the escape strings the programs store in their buffers. */
  const COLOR_RAIN := "\U{1B}[34m"
  const COLOR_CLOUD_FG := "\U{1B}[90m"
  const COLOR_CLOUD_BG := "\U{1B}[37m"
  const COLOR_LIGHTNING := "\U{1B}[93m"
  const COLOR_SPLASH := "\U{1B}[36m"
  const COLOR_RUMBLE_TEXT := "\U{1B}[37m"
  const COLOR_SCREEN_FLASH := "\U{1B}[97m"
  const COLOR_PUDDLE := "\U{1B}[34;1m"
  const COLOR_GROUND_STRIKE := "\U{1B}[93;1m"

  /** The settings the simulations rely on are mutually consistent. */
  lemma ConstantsConsistent()
    ensures MIN_RAINDROPS <= MAX_RAINDROPS
    ensures CLOUD_MIN_WIDTH <= CLOUD_MAX_WIDTH
    ensures RUMBLE_DURATION_MIN <= RUMBLE_DURATION_MAX
    ensures LIGHTNING_FLASH_DURATION < LIGHTNING_FLICKER_DURATION
    ensures PUDDLE_MAX_INTENSITY == 3
  {
  }

  /** `get_rain_char_for_wind`: a drop leans with the wind once the wind is at least 0.5
      either way. */
  function RainCharForWind(w: real): (c: char)
    ensures c == '|' <==> -0.5 < w < 0.5
    ensures c == '/' <==> w >= 0.5
    ensures c == '\\' <==> w <= -0.5
  {
    if Abs(w) < 0.5 then '|' else if w > 0.0 then '/' else '\\'
  }

  /** The glyph of a puddle of intensity `i`: `PUDDLE_CHARS[min(PUDDLE_MAX_INTENSITY, int(i))]`.
      The index is in range for every non-negative intensity. */
  function PuddleGlyph(i: real): (c: char)
    requires i >= 0.0
    ensures c in PUDDLE_CHARS
    ensures i >= PUDDLE_MAX_INTENSITY as real ==> c == '≈'
    ensures i < 1.0 ==> c == '.'
  {
    PUDDLE_CHARS[Min(PUDDLE_MAX_INTENSITY, Trunc(i))]
  }

  /** The four entries of `CLOUD_SHAPE_PATTERNS`, in list order. */
  datatype CloudShape = Solid | Broken | Streaky | Contained

  function IndexToShape(k: nat): (s: CloudShape)
    ensures k % 4 == 0 <==> s == Solid
    ensures k % 4 == 1 <==> s == Broken
  {
    match k % 4
    case 0 => Solid
    case 1 => Broken
    case 2 => Streaky
    case _ => Contained
  }

  /** The left padding Python's `str.center` uses for a text of length `n` in width `w`:
      half the margin, plus the odd space only when both the margin and `w` are odd. */
  function CenterLeft(n: nat, w: int): (left: nat)
    requires n < w
    ensures left <= w - n
    ensures left == (w - n) / 2 || left == (w - n) / 2 + 1
  {
    var marg := w - n;
    marg / 2 + (if marg % 2 == 1 && w % 2 == 1 then 1 else 0)
  }

  /** Python `str.center(w)`: `s` unchanged when it is already that wide, otherwise `s`
      at offset `CenterLeft` with spaces everywhere else. */
  function Center(s: string, w: int): (r: string)
    ensures |r| == Max(w, |s|)
    ensures |s| >= w ==> r == s
    ensures |s| < w ==> r[CenterLeft(|s|, w)..CenterLeft(|s|, w) + |s|] == s
  {
    if |s| >= w then s
    else
      var left := CenterLeft(|s|, w);
      var r := Repeat(' ', left) + s + Repeat(' ', w - |s| - left);
      assert r[left..left + |s|] == s;
      r
  }

  /** Outside the centred text, `Center` holds only spaces. */
  lemma CenterPadding(s: string, w: int)
    requires |s| < w
    ensures forall i :: 0 <= i < |Center(s, w)| && !(CenterLeft(|s|, w) <= i < CenterLeft(|s|, w) + |s|) ==> Center(s, w)[i] == ' '
  {
    var left := CenterLeft(|s|, w);
    var r := Repeat(' ', left) + s + Repeat(' ', w - |s| - left);
    assert Center(s, w) == r;
  }

  /** The groups of the broken cloud: `w // 2` runs of 1 to 3 cloud glyphs, run `i` drawn by `g(i)`. */
  function BrokenGroups(n: nat, g: nat -> nat): (r: seq<string>)
    ensures |r| == n
    ensures forall i :: 0 <= i < n ==> 1 <= |r[i]| <= 3 && r[i] == Repeat(CLOUD_CHAR, |r[i]|)
  {
    if n == 0 then [] else BrokenGroups(n - 1, g) + [Repeat(CLOUD_CHAR, Pick(1, 3, g(n - 1)))]
  }

  /** A cloud picture of nominal width `w`; the broken shape draws its run lengths from `g`. */
  function ShapeOf(kind: CloudShape, w: nat, g: nat -> nat): string {
    match kind
    case Solid => Repeat(CLOUD_CHAR, w)
    case Broken => Center(Join(" ", BrokenGroups(w / 2, g)), w)
    case Streaky => if w > 2 then "-" + Repeat(CLOUD_CHAR, w - 2) + "-" else Repeat(CLOUD_CHAR, w)
    case Contained => if w > 2 then "(" + Repeat(CLOUD_CHAR, w - 2) + ")" else Repeat(CLOUD_CHAR, w)
  }

  /** Joining runs of cloud glyphs with single spaces: the length is the runs plus the
      separators, and the text starts and ends with a glyph. */
  lemma {:induction false} JoinGroups(gs: seq<string>)
    requires gs != []
    requires forall i :: 0 <= i < |gs| ==> 1 <= |gs[i]| && gs[i] == Repeat(CLOUD_CHAR, |gs[i]|)
    ensures |Join(" ", gs)| >= 2 * |gs| - 1
    ensures Join(" ", gs)[0] == CLOUD_CHAR
    ensures Join(" ", gs)[|Join(" ", gs)| - 1] == CLOUD_CHAR
  {
    if |gs| > 1 {
      JoinGroups(gs[1..]);
      var tail := Join(" ", gs[1..]);
      assert Join(" ", gs) == gs[0] + " " + tail;
      assert gs[0][0] == CLOUD_CHAR;
    } else {
      assert gs[0][|gs[0]| - 1] == CLOUD_CHAR;
    }
  }

  /** The lengths promised for each cloud shape. */
  lemma ShapeLength(kind: CloudShape, w: nat, g: nat -> nat)
    ensures kind == Solid ==> ShapeOf(kind, w, g) == Repeat(CLOUD_CHAR, w)
    ensures kind in {Streaky, Contained} ==> |ShapeOf(kind, w, g)| == w
    ensures kind == Streaky && w > 2 ==> ShapeOf(kind, w, g)[0] == '-' && ShapeOf(kind, w, g)[w - 1] == '-'
    ensures kind == Contained && w > 2 ==> ShapeOf(kind, w, g)[0] == '(' && ShapeOf(kind, w, g)[w - 1] == ')'
    ensures kind == Broken ==> |ShapeOf(kind, w, g)| == Max(w, |Join(" ", BrokenGroups(w / 2, g))|)
  {
  }

  /** Every shape of positive width shows at least one cloud glyph except the broken shape
      of width 1, which is `center` of the empty string and hence a single space. */
  lemma ShapeHasGlyph(kind: CloudShape, w: nat, g: nat -> nat)
    requires w >= 1
    ensures Strip(ShapeOf(kind, w, g)) == [] <==> kind == Broken && w == 1
  {
    var s := ShapeOf(kind, w, g);
    if kind == Broken {
      var j := Join(" ", BrokenGroups(w / 2, g));
      if w == 1 {
        assert j == "";
        assert s == " ";
        assert RStrip(s) == "";
      } else {
        JoinGroups(BrokenGroups(w / 2, g));
        if |j| >= w {
          NonSpaceSurvivesStrip(s, 0);
        } else {
          var left := CenterLeft(|j|, w);
          assert s[left] == j[0];
          NonSpaceSurvivesStrip(s, left);
        }
      }
    } else {
      NonSpaceSurvivesStrip(s, if kind == Solid || w <= 2 then 0 else 1);
    }
  }

  /** A string holding a non-whitespace character does not strip to nothing. */
  lemma NonSpaceSurvivesStrip(s: string, k: nat)
    requires k < |s| && !IsSpace(s[k])
    ensures Strip(s) != []
  {
    var r := RStrip(s);
    RStripRemovesSpaces(s);
    assert k < |r|;
    var l := LStrip(r);
    LStripRemovesSpaces(r);
    assert |r| - |l| <= k;
  }
}
