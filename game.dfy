/** The game layer: the gradient renderer and the per-frame entry point.

    Memory is a flat array of 32-bit pixels. Row `y` of the picture starts
    `y * pitch` bytes into it, that is at pixel index `y * (pitch / 4)`. */
module Game {
  import opened GameHeader

  /** Conversion of an `int` to `u8`: reduction modulo 256. */
  function Wrap8(n: int): (r: u8) {
    n % 256
  }

  /** The conversion keeps values of the type as they are and ignores
      whole multiples of 256. */
  lemma Wrap8Congruent(n: int, k: int)
    ensures 0 <= n < 256 ==> Wrap8(n) == n
    ensures Wrap8(n + 256 * k) == Wrap8(n)
  {
  }

  /** The word the renderer stores for pixel (x, y): `(g << 8) | b` with
      `b = u8(x + xOffset)` and `g = u8(y + yOffset)`.
      The red byte and the top byte of the word stay zero. */
  function PixelValue(x: int, y: int, xOffset: int, yOffset: int): (r: u32)
    ensures r < 0x1_0000
  {
    var b := Wrap8(x + xOffset);
    var g := Wrap8(y + yOffset);
    ShiftLeftIsProduct(g, 8);
    BitOr(ShiftLeft(g, 8), b)
  }

  /** Reference definition of the gradient: green (bits 8 to 15) carries the
      row phase, blue (bits 0 to 7) the column phase, each modulo 256; red
      and the top byte are zero. */
  function GradientValue(x: int, y: int, xOffset: int, yOffset: int): (r: u32)
    ensures r < 0x1_0000
    ensures r / 256 == (y + yOffset) % 256 && r % 256 == (x + xOffset) % 256
  {
    ((y + yOffset) % 256) * 256 + (x + xOffset) % 256
  }

  /** The packed word is the gradient value. */
  lemma PixelValueIsGradient(x: int, y: int, xOffset: int, yOffset: int)
    ensures PixelValue(x, y, xOffset, yOffset) == GradientValue(x, y, xOffset, yOffset)
  {
    var b: nat, g: nat := Wrap8(x + xOffset), Wrap8(y + yOffset);
    assert Pow2(8) == 256;
    ShiftLeftIsProduct(g, 8);
    BitOrDisjoint(g, 8, b);
    assert PixelValue(x, y, xOffset, yOffset) == g * 256 + b;
  }

  /** The row of pixel index `i` when rows are `p` pixels apart. */
  function RowOf(i: nat, p: nat): (r: nat)
    requires p > 0
    decreases i
  {
    if i < p then 0 else 1 + RowOf(i - p, p)
  }

  /** The column of pixel index `i` when rows are `p` pixels apart. */
  function ColOf(i: nat, p: nat): (c: nat)
    requires p > 0
    decreases i
  {
    if i < p then i else ColOf(i - p, p)
  }

  /** Row `y` at column `x` is pixel index `y * p + x`, and no other index. */
  lemma {:induction false} RowColumn(y: nat, p: nat, x: nat)
    requires x < p
    ensures RowOf(y * p + x, p) == y && ColOf(y * p + x, p) == x
  {
    if y > 0 {
      assert y * p + x - p == (y - 1) * p + x;
      RowColumn(y - 1, p, x);
    }
  }

  /** The next row starts one stride further on. */
  lemma NextRow(y: int, p: int)
    ensures (y + 1) * p == y * p + p
  {
  }

  /** Index `i` is row `RowOf(i, p)`, column `ColOf(i, p)`. */
  lemma {:induction false} Decompose(i: nat, p: nat)
    requires p > 0
    ensures i == RowOf(i, p) * p + ColOf(i, p) && ColOf(i, p) < p
    decreases i
  {
    if i >= p {
      Decompose(i - p, p);
      assert (RowOf(i - p, p) + 1) * p == RowOf(i - p, p) * p + p;
    }
  }

  /** Pixel index `i` lies inside the picture of `w` by `h` pixels whose rows
      are `p` pixels apart. */
  predicate InFrame(i: nat, w: int, h: int, p: int) {
    0 < w <= p && RowOf(i, p) < h && ColOf(i, p) < w
  }

  /** What the memory holds after rendering `s`: every pixel of the picture
      gets its gradient word, everything else keeps its old value. */
  function Rendered(s: seq<u32>, w: int, h: int, p: int, xOffset: int, yOffset: int): (r: seq<u32>)
    ensures |r| == |s|
    ensures w <= 0 || h <= 0 ==> r == s
  {
    seq(|s|, i requires 0 <= i < |s| =>
      if InFrame(i, w, h, p) then GradientValue(ColOf(i, p), RowOf(i, p), xOffset, yOffset) else s[i])
  }

  /** Pixel `i` comes before pixel (x, y) in row-major order. */
  predicate Before(i: nat, p: int, y: int, x: int)
    requires p > 0
  {
    RowOf(i, p) < y || (RowOf(i, p) == y && ColOf(i, p) < x)
  }

  /** The state part-way through rendering: rows above `y` and the first `x`
      pixels of row `y` are done. */
  ghost function RenderedUpTo(s: seq<u32>, w: int, h: int, p: int, xOffset: int, yOffset: int,
                              y: int, x: int): (r: seq<u32>)
  {
    seq(|s|, i requires 0 <= i < |s| =>
      if InFrame(i, w, h, p) && Before(i, p, y, x)
      then GradientValue(ColOf(i, p), RowOf(i, p), xOffset, yOffset) else s[i])
  }

  lemma RenderedUpToStart(s: seq<u32>, w: int, h: int, p: int, xOffset: int, yOffset: int)
    ensures RenderedUpTo(s, w, h, p, xOffset, yOffset, 0, 0) == s
  {
  }

  lemma RenderedUpToEnd(s: seq<u32>, w: int, h: int, p: int, xOffset: int, yOffset: int)
    ensures RenderedUpTo(s, w, h, p, xOffset, yOffset, h, 0) == Rendered(s, w, h, p, xOffset, yOffset)
  {
  }

  /** Writing pixel (x, y) extends the finished part by one pixel. */
  lemma RenderedUpToPixel(s: seq<u32>, w: int, h: int, p: int, xOffset: int, yOffset: int,
                          y: nat, x: nat)
    requires y < h && x < w <= p && y * p + x < |s|
    ensures RenderedUpTo(s, w, h, p, xOffset, yOffset, y, x)[y * p + x := GradientValue(x, y, xOffset, yOffset)]
         == RenderedUpTo(s, w, h, p, xOffset, yOffset, y, x + 1)
  {
    RenderedUpToAt(s, w, h, p, xOffset, yOffset, y, x);
    RenderedUpToOthers(s, w, h, p, xOffset, yOffset, y, x);
  }

  /** Stepping past pixel (x, y) renders that pixel. */
  lemma RenderedUpToAt(s: seq<u32>, w: int, h: int, p: int, xOffset: int, yOffset: int,
                       y: nat, x: nat)
    requires y < h && x < w <= p && y * p + x < |s|
    ensures RenderedUpTo(s, w, h, p, xOffset, yOffset, y, x + 1)[y * p + x]
         == GradientValue(x, y, xOffset, yOffset)
  {
    RowColumn(y, p, x);
    assert InFrame(y * p + x, w, h, p) && Before(y * p + x, p, y, x + 1);
  }

  /** Stepping past pixel (x, y) changes no other pixel. */
  lemma RenderedUpToOthers(s: seq<u32>, w: int, h: int, p: int, xOffset: int, yOffset: int,
                           y: nat, x: nat)
    requires x < w <= p
    ensures forall i :: 0 <= i < |s| && i != y * p + x ==>
      RenderedUpTo(s, w, h, p, xOffset, yOffset, y, x + 1)[i] == RenderedUpTo(s, w, h, p, xOffset, yOffset, y, x)[i]
  {
    forall i | 0 <= i < |s| && i != y * p + x
      ensures RenderedUpTo(s, w, h, p, xOffset, yOffset, y, x + 1)[i] == RenderedUpTo(s, w, h, p, xOffset, yOffset, y, x)[i]
    {
      Decompose(i, p);
      assert !(RowOf(i, p) == y && ColOf(i, p) == x);
    }
  }

  /** Finishing row `y` is the same as starting row `y + 1`. */
  lemma RenderedUpToRow(s: seq<u32>, w: int, h: int, p: int, xOffset: int, yOffset: int, y: int)
    ensures RenderedUpTo(s, w, h, p, xOffset, yOffset, y, if w < 0 then 0 else w)
         == RenderedUpTo(s, w, h, p, xOffset, yOffset, y + 1, 0)
  {
  }

  /** Pixel (x, y) of a picture whose last row ends inside the region lies
      inside the region. */
  lemma PixelIndexInRange(y: int, x: int, w: int, h: int, p: int, len: int)
    requires 0 <= y < h && 0 <= x < w && 0 <= p && (h - 1) * p + w <= len
    ensures 0 <= y * p + x < len
  {
    assert y * p <= (h - 1) * p;
  }

  /** The renderer needs a region large enough for `height` rows of
      `pitch / 4` pixels, the last of which holds `width` pixels. */
  predicate Renderable(buf: OffscreenBuffer) {
    buf.pitch % 4 == 0 &&
    (buf.width > 0 && buf.height > 0 ==>
      buf.memory != null &&
      buf.width <= buf.pitch / 4 &&
      (buf.height - 1) * (buf.pitch / 4) + buf.width <= buf.memory.Length)
  }

  /** render_cool_gradient: fills the picture row by row, stepping the row
      start by the pitch. */
  method RenderCoolGradient(buf: OffscreenBuffer, xOffset: int, yOffset: int)
    requires Renderable(buf)
    modifies buf.memory
    ensures buf.memory != null ==>
      buf.memory[..] == Rendered(old(buf.memory[..]), buf.width, buf.height, buf.pitch / 4, xOffset, yOffset)
  {
    ghost var s := if buf.memory == null then [] else buf.memory[..];
    ghost var w, h, p := buf.width, buf.height, buf.pitch / 4;
    RenderedUpToStart(s, w, h, p, xOffset, yOffset);
    var row := 0;
    var y := 0;
    while y < buf.height
      invariant 0 <= y && (h >= 0 ==> y <= h)
      invariant row == y * p
      invariant buf.memory != null ==> buf.memory[..] == RenderedUpTo(s, w, h, p, xOffset, yOffset, y, 0)
    {
      var x := 0;
      while x < buf.width
        invariant 0 <= x && (w >= 0 ==> x <= w)
        invariant buf.memory != null ==> buf.memory[..] == RenderedUpTo(s, w, h, p, xOffset, yOffset, y, x)
      {
        PixelIndexInRange(y, x, w, h, p, buf.memory.Length);
        RenderedUpToPixel(s, w, h, p, xOffset, yOffset, y, x);
        PixelValueIsGradient(x, y, xOffset, yOffset);
        buf.memory[row + x] := PixelValue(x, y, xOffset, yOffset);
        x := x + 1;
      }
      RenderedUpToRow(s, w, h, p, xOffset, yOffset, y);
      row := row + buf.pitch / 4;
      y := y + 1;
    }
    if buf.memory != null && h >= 0 {
      RenderedUpToEnd(s, w, h, p, xOffset, yOffset);
    }
  }

  /** game_update_and_render: one frame of the gradient at phase (0, 0). */
  method GameUpdateAndRender(buf: OffscreenBuffer)
    requires Renderable(buf)
    modifies buf.memory
    ensures buf.memory != null ==>
      buf.memory[..] == Rendered(old(buf.memory[..]), buf.width, buf.height, buf.pitch / 4, 0, 0)
  {
    RenderCoolGradient(buf, 0, 0);
  }

  // ---------------------------------------------------------------------
  // Properties of the rendered picture

  /** Pixel (x, y) of the rendered picture is the gradient value at (x, y). */
  lemma RenderedPixel(s: seq<u32>, w: int, h: int, p: int, xOffset: int, yOffset: int, x: int, y: int)
    requires 0 <= x < w <= p && 0 <= y < h && y * p + x < |s|
    ensures Rendered(s, w, h, p, xOffset, yOffset)[y * p + x] == GradientValue(x, y, xOffset, yOffset)
    ensures Rendered(s, w, h, p, xOffset, yOffset)[y * p + x] < 0x1_0000
  {
    RowColumn(y, p, x);
  }

  /** The padding between the end of a row's pixels and the next row start
      is left as it was. */
  lemma RenderedKeepsPadding(s: seq<u32>, w: int, h: int, p: int, xOffset: int, yOffset: int, y: int, c: int)
    requires 0 <= y && 0 <= c < p && w <= c && y * p + c < |s|
    ensures Rendered(s, w, h, p, xOffset, yOffset)[y * p + c] == s[y * p + c]
  {
    RowColumn(y, p, c);
  }

  /** Indices from `h * p` on lie in row `h` or later. */
  lemma {:induction false} RowAtLeast(i: nat, p: nat, h: nat)
    requires p > 0 && h * p <= i
    ensures RowOf(i, p) >= h
  {
    if h > 0 {
      assert (h - 1) * p == h * p - p;
      RowAtLeast(i - p, p, h - 1);
    }
  }

  /** Nothing past the first `h` rows of `p` pixels is written. */
  lemma RenderedKeepsTail(s: seq<u32>, w: int, h: int, p: int, xOffset: int, yOffset: int, i: nat)
    requires 0 <= h && h * p <= i < |s|
    ensures Rendered(s, w, h, p, xOffset, yOffset)[i] == s[i]
  {
    if 0 < w <= p {
      RowAtLeast(i, p, h);
    }
  }

  /** The phases wrap at 256: adding 256 to either offset draws the same picture. */
  lemma RenderedOffsetWraps(s: seq<u32>, w: int, h: int, p: int, xOffset: int, yOffset: int)
    ensures Rendered(s, w, h, p, xOffset + 256, yOffset) == Rendered(s, w, h, p, xOffset, yOffset)
    ensures Rendered(s, w, h, p, xOffset, yOffset + 256) == Rendered(s, w, h, p, xOffset, yOffset)
  {
    var r := Rendered(s, w, h, p, xOffset, yOffset);
    var rx := Rendered(s, w, h, p, xOffset + 256, yOffset);
    var ry := Rendered(s, w, h, p, xOffset, yOffset + 256);
    forall i | 0 <= i < |s| && InFrame(i, w, h, p)
      ensures rx[i] == r[i] && ry[i] == r[i]
    {
      GradientWraps(ColOf(i, p), RowOf(i, p), xOffset, yOffset);
    }
    assert rx == r;
    assert ry == r;
  }

  /** The gradient value repeats with period 256 in either offset. */
  lemma GradientWraps(x: int, y: int, xOffset: int, yOffset: int)
    ensures GradientValue(x, y, xOffset + 256, yOffset) == GradientValue(x, y, xOffset, yOffset)
    ensures GradientValue(x, y, xOffset, yOffset + 256) == GradientValue(x, y, xOffset, yOffset)
  {
    assert (x + (xOffset + 256)) % 256 == (x + xOffset) % 256;
    assert (y + (yOffset + 256)) % 256 == (y + yOffset) % 256;
  }

  /** Scrolling: the pixel one column to the right equals the pixel itself
      rendered with the horizontal offset one larger. */
  lemma RenderedShiftColumn(s: seq<u32>, w: int, h: int, p: int, xOffset: int, yOffset: int, x: nat, y: nat)
    requires x + 1 < w <= p && y < h && y * p + x + 1 < |s|
    ensures Rendered(s, w, h, p, xOffset, yOffset)[y * p + x + 1]
         == Rendered(s, w, h, p, xOffset + 1, yOffset)[y * p + x]
  {
    assert y * p + x + 1 == y * p + (x + 1);
    RenderedPixel(s, w, h, p, xOffset, yOffset, x + 1, y);
    RenderedPixel(s, w, h, p, xOffset + 1, yOffset, x, y);
    assert GradientValue(x + 1, y, xOffset, yOffset) == GradientValue(x, y, xOffset + 1, yOffset);
  }

  /** Scrolling: the pixel one row down equals the pixel itself rendered
      with the vertical offset one larger. */
  lemma RenderedShiftRow(s: seq<u32>, w: int, h: int, p: int, xOffset: int, yOffset: int, x: nat, y: nat)
    requires x < w <= p && y + 1 < h && (y + 1) * p + x < |s|
    ensures Rendered(s, w, h, p, xOffset, yOffset)[(y + 1) * p + x]
         == Rendered(s, w, h, p, xOffset, yOffset + 1)[y * p + x]
  {
    NextRow(y, p);
    RenderedPixel(s, w, h, p, xOffset, yOffset, x, y + 1);
    RenderedPixel(s, w, h, p, xOffset, yOffset + 1, x, y);
    assert GradientValue(x, y + 1, xOffset, yOffset) == GradientValue(x, y, xOffset, yOffset + 1);
  }

  /** A frame overwrites the whole picture: nothing of the previous frame
      shows through. */
  lemma RenderedOverwrites(s: seq<u32>, w: int, h: int, p: int, x0: int, y0: int, x1: int, y1: int)
    ensures Rendered(Rendered(s, w, h, p, x0, y0), w, h, p, x1, y1) == Rendered(s, w, h, p, x1, y1)
  {
  }

  /** game_update_and_render leaves pixel (x, y) = (y mod 256) * 256 + x mod 256. */
  lemma GameFramePixel(s: seq<u32>, w: int, h: int, p: int, x: int, y: int)
    requires 0 <= x < w <= p && 0 <= y < h && y * p + x < |s|
    ensures Rendered(s, w, h, p, 0, 0)[y * p + x] == (y % 256) * 256 + x % 256
  {
    RenderedPixel(s, w, h, p, 0, 0, x, y);
  }

  /** A 4 by 3 picture at phase (0, 0): its top-left pixel is 0. */
  lemma GameFrameTopLeft(s: seq<u32>, w: int, h: int, p: int)
    requires w == 4 && h == 3 && p == 4 && |s| == 12
    ensures Rendered(s, w, h, p, 0, 0)[0] == 0
  {
    RowColumn(0, p, 0);
  }

  /** A 4 by 3 picture at phase (0, 0): pixel (3, 2), at index 2 * 4 + 3,
      is 0x0203. */
  lemma GameFrameCorner(s: seq<u32>, w: int, h: int, p: int)
    requires w == 4 && h == 3 && p == 4 && |s| == 12
    ensures Rendered(s, w, h, p, 0, 0)[11] == 0x0203
  {
    RowColumn(2, p, 3);
    assert GradientValue(3, 2, 0, 0) == 0x0203;
  }

  /** Blue wraps: a 2 by 1 picture at horizontal phase 255 holds 0xFF, then 0. */
  lemma WrapExample(s: seq<u32>, w: int, h: int, p: int)
    requires w == 2 && h == 1 && p == 2 && |s| == 2
    ensures Rendered(s, w, h, p, 255, 0) == [0xFF, 0x00]
  {
    RenderedPixel(s, w, h, p, 255, 0, 0, 0);
    RenderedPixel(s, w, h, p, 255, 0, 1, 0);
  }
}
