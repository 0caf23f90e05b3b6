/** The character buffer every storm variant composes a frame into: `HEIGHT` rows of
    `WIDTH` cells, each a glyph with an optional colour, written through
    `set_char_in_buffer`, which ignores coordinates off the screen. */
module Screen {
  import opened PyNum

  datatype Cell = Cell(glyph: char, color: Option<string>)

  datatype Write = Write(x: int, y: int, cell: Cell)

  predicate Hits(w: Write, x: int, y: int) {
    w.x == x && w.y == y
  }

  /** What a cell at column `x`, row `y` shows after the writes, in order, over a buffer
      cleared to `base`. */
  function Shown(base: Cell, ws: seq<Write>, x: int, y: int): Cell
    decreases |ws|
  {
    if ws == [] then base
    else
      var last := ws[|ws| - 1];
      if Hits(last, x, y) then last.cell else Shown(base, ws[..|ws| - 1], x, y)
  }

  /** Write `k` is the last one aimed at column `x`, row `y`. */
  predicate LastHit(ws: seq<Write>, k: int, x: int, y: int) {
    0 <= k < |ws| && Hits(ws[k], x, y) && forall m :: k < m < |ws| ==> !Hits(ws[m], x, y)
  }

  /** A cell no write is aimed at keeps the background. */
  lemma {:induction false} ShownUntouched(base: Cell, ws: seq<Write>, x: int, y: int)
    requires forall k :: 0 <= k < |ws| ==> !Hits(ws[k], x, y)
    ensures Shown(base, ws, x, y) == base
    decreases |ws|
  {
    if ws != [] {
      var init := ws[..|ws| - 1];
      assert forall k :: 0 <= k < |init| ==> init[k] == ws[k];
      ShownUntouched(base, init, x, y);
    }
  }

  /** The last write aimed at a cell decides what it shows. */
  lemma {:induction false} ShownLastWrite(base: Cell, ws: seq<Write>, k: int, x: int, y: int)
    requires LastHit(ws, k, x, y)
    ensures Shown(base, ws, x, y) == ws[k].cell
    decreases |ws|
  {
    if k < |ws| - 1 {
      var init := ws[..|ws| - 1];
      assert !Hits(ws[|ws| - 1], x, y);
      assert LastHit(init, k, x, y) by {
        forall m | k < m < |init| ensures !Hits(init[m], x, y) {
          assert init[m] == ws[m];
        }
      }
      ShownLastWrite(base, init, k, x, y);
    }
  }

  /** Writing `a` and then `b` leaves a cell showing what `b` paints over what `a` left. */
  lemma {:induction false} ShownConcat(base: Cell, a: seq<Write>, b: seq<Write>, x: int, y: int)
    ensures Shown(base, a + b, x, y) == Shown(Shown(base, a, x, y), b, x, y)
    decreases |b|
  {
    if b == [] {
      assert a + b == a;
    } else {
      var init := b[..|b| - 1];
      assert (a + b)[..|a + b| - 1] == a + init;
      assert (a + b)[|a + b| - 1] == b[|b| - 1];
      ShownConcat(base, a, init, x, y);
    }
  }

  /** When some write hits a cell and every write carries glyph `g`, the cell shows `g`. */
  lemma {:induction false} ShownGlyph(base: Cell, ws: seq<Write>, x: int, y: int, g: char)
    requires exists k :: 0 <= k < |ws| && Hits(ws[k], x, y)
    requires forall k :: 0 <= k < |ws| ==> ws[k].cell.glyph == g
    ensures Shown(base, ws, x, y).glyph == g
    decreases |ws|
  {
    var last := ws[|ws| - 1];
    if !Hits(last, x, y) {
      var init := ws[..|ws| - 1];
      var k :| 0 <= k < |ws| && Hits(ws[k], x, y);
      assert k < |init| && init[k] == ws[k];
      assert forall m :: 0 <= m < |init| ==> init[m] == ws[m];
      ShownGlyph(base, init, x, y, g);
    }
  }

  /** Every write of the sequence carries colour `c`. */
  predicate Tinted(ws: seq<Write>, c: Option<string>) {
    forall k :: 0 <= k < |ws| ==> ws[k].cell.color == c
  }

  lemma TintedAppend(a: seq<Write>, b: seq<Write>, c: Option<string>)
    requires Tinted(a, c) && Tinted(b, c)
    ensures Tinted(a + b, c)
  {
    forall k | 0 <= k < |a + b| ensures (a + b)[k].cell.color == c {
      if k < |a| {
        assert (a + b)[k] == a[k];
      } else {
        assert (a + b)[k] == b[k - |a|];
      }
    }
  }

  /** A background of colour `c` under writes of colour `c` shows `c` everywhere. */
  lemma {:induction false} ShownTinted(base: Cell, ws: seq<Write>, x: int, y: int)
    requires Tinted(ws, base.color)
    ensures Shown(base, ws, x, y).color == base.color
    decreases |ws|
  {
    if ws != [] {
      var init := ws[..|ws| - 1];
      assert forall m :: 0 <= m < |init| ==> init[m] == ws[m];
      ShownTinted(base, init, x, y);
    }
  }

  /** `set_char_in_buffer`: writes the cell when the coordinates are on the screen; the
      buffer is otherwise untouched. */
  method SetCharInBuffer(buf: array2<Cell>, x: int, y: int, c: Cell)
    modifies buf
    ensures 0 <= y < buf.Length0 && 0 <= x < buf.Length1 ==> buf[y, x] == c
    ensures forall i, j :: 0 <= i < buf.Length0 && 0 <= j < buf.Length1 && !(i == y && j == x) ==> buf[i, j] == old(buf[i, j])
    ensures !(0 <= y < buf.Length0 && 0 <= x < buf.Length1) ==> forall i, j :: 0 <= i < buf.Length0 && 0 <= j < buf.Length1 ==> buf[i, j] == old(buf[i, j])
  {
    if 0 <= y < buf.Length0 && 0 <= x < buf.Length1 {
      buf[y, x] := c;
    }
  }

  /** A fresh `height` x `width` buffer cleared to `base`, then every write applied in order. */
  method Compose(width: nat, height: nat, base: Cell, ws: seq<Write>) returns (buf: array2<Cell>)
    ensures fresh(buf) && buf.Length0 == height && buf.Length1 == width
    ensures forall i, j :: 0 <= i < height && 0 <= j < width ==> buf[i, j] == Shown(base, ws, j, i)
  {
    buf := new Cell[height, width]((i, j) => base);
    var k := 0;
    while k < |ws|
      invariant 0 <= k <= |ws|
      invariant forall i, j :: 0 <= i < height && 0 <= j < width ==> buf[i, j] == Shown(base, ws[..k], j, i)
    {
      SetCharInBuffer(buf, ws[k].x, ws[k].y, ws[k].cell);
      assert ws[..k + 1][..k] == ws[..k];
      k := k + 1;
    }
    assert ws[..k] == ws;
  }

  /** One write per character of `s` along row `y` from column `x0`, in order; with
      `skipSpaces` the spaces are left out, as clouds draw only their visible glyphs. */
  function TextWrites(x0: int, y: int, s: string, color: Option<string>, skipSpaces: bool): (r: seq<Write>)
    ensures |r| <= |s|
    ensures forall k :: 0 <= k < |r| ==> r[k].y == y && x0 <= r[k].x < x0 + |s| && r[k].cell.color == color
    ensures skipSpaces ==> forall k :: 0 <= k < |r| ==> r[k].cell.glyph != ' '
    decreases |s|
  {
    if s == [] then []
    else
      var head := if skipSpaces && s[0] == ' ' then [] else [Write(x0, y, Cell(s[0], color))];
      head + TextWrites(x0 + 1, y, s[1..], color, skipSpaces)
  }

  /** Without skipping, character `i` of the text lands in column `x0 + i`. */
  lemma {:induction false} TextWritesAll(x0: int, y: int, s: string, color: Option<string>)
    ensures |TextWrites(x0, y, s, color, false)| == |s|
    ensures forall i :: 0 <= i < |s| ==> TextWrites(x0, y, s, color, false)[i] == Write(x0 + i, y, Cell(s[i], color))
    decreases |s|
  {
    if s != [] {
      TextWritesAll(x0 + 1, y, s[1..], color);
    }
  }

  /** Text written last shows in full: its character `i` is what column `x0 + i` shows. */
  lemma TextOnTop(base: Cell, pre: seq<Write>, x0: int, y: int, s: string, color: Option<string>, i: int)
    requires 0 <= i < |s|
    ensures Shown(base, pre + TextWrites(x0, y, s, color, false), x0 + i, y) == Cell(s[i], color)
  {
    var r := TextWrites(x0, y, s, color, false);
    TextWritesAll(x0, y, s, color);
    assert LastHit(r, i, x0 + i, y);
    ShownConcat(base, pre, r, x0 + i, y);
    ShownLastWrite(Shown(base, pre, x0 + i, y), r, i, x0 + i, y);
  }

  /** `color_override or default`: the flash colour, when there is one, wins. */
  function Tint(override: Option<string>, default: string): (c: Option<string>)
    ensures c.Some?
    ensures override.Some? ==> c == override
    ensures override.None? ==> c == Some(default)
  {
    if override.Some? then override else Some(default)
  }
}
