/**
 Glyphs as bytes (kern/framebuffer.c): the pixel loops of draw_span_16, draw_span_24
 and draw_span_32, proved against what a pixel of a cell is to show. A glyph row is
 bits, the most significant leftmost; a pixel is a little-endian colour.
 */
module Glyphs {
  import opened Arith
  import opened Bytes
  import opened Bitmap

  type Line = seq<Byte>
  type Cell = c: int | 0 <= c < 0x1_0000

  /**
   The mode and the face: a cell is cw bytes wide and a line width bytes of pixels;
   font[c][gy] are the bytes of a glyph row, palette the device's 16 colours.
   */
  datatype Face = Face(rows: nat, columns: nat, cellw: nat, cellh: nat, bpp: nat, cw: nat, width: nat, pitch: nat,
                       height: nat,
                       font: seq<seq<Line>>, palette: seq<nat>)

  /** What fits a pixel. */
  predicate IsColour(bpp: nat, c: nat) {
    c < if bpp == 2 then 0x1_0000 else 0x1_0000_0000
  }

  predicate FaceOk(f: Face) {
    && f.rows > 0 && f.columns > 0 && f.cellw > 0 && f.cellw % 2 == 0 && f.cellh > 0 && 2 <= f.bpp <= 4
    && f.rows * f.cellh <= f.height && f.columns * f.cw <= f.width <= f.pitch && f.cw == f.cellw * f.bpp && f.cw > 0
    && f.width % f.bpp == 0 && |f.font| == 256 && |f.palette| == 16
    && (forall c :: 0 <= c < 16 ==> IsColour(f.bpp, f.palette[c]))
    && (forall c :: 0 <= c < 256 ==> |f.font[c]| == f.cellh)
    && forall c, g :: 0 <= c < 256 && 0 <= g < f.cellh ==> f.cellw <= 8 * |f.font[c][g]|
  }

  /** Byte k of a colour, little-endian. */
  function ColourByte(c: nat, k: nat): Byte {
    (if k == 0 then c else if k == 1 then c / 0x100 else if k == 2 then c / 0x1_0000 else c / 0x100_0000) % 0x100
  }

  /** Is pixel px of row gy of the cell's glyph set? */
  predicate Inked(f: Face, cell: Cell, gy: nat, px: nat)
    requires FaceOk(f) && gy < f.cellh && px < f.cellw
  {
    Bit(f.font[cell % 0x100][gy][px / 8], 7 - px % 8)
  }

  function Ink(cell: Cell): (c: nat)
    ensures c < 16
  {
    cell / 0x100 % 16
  }

  function Paper(cell: Cell): (c: nat)
    ensures c < 16
  {
    cell / 0x1000 % 16
  }

  /** The colour of pixel px of row gy of a cell. */
  function PixelColour(f: Face, cell: Cell, gy: nat, px: nat): nat
    requires FaceOk(f) && gy < f.cellh && px < f.cellw
  {
    f.palette[if Inked(f, cell, gy, px) then Ink(cell) else Paper(cell)]
  }

  /** Byte b of row gy of a cell as it is drawn. */
  function GlyphByte(f: Face, cell: Cell, gy: nat, b: nat): Byte
    requires FaceOk(f) && gy < f.cellh && b < f.cw
  {
    DivLess(b, f.cellw, f.bpp);
    ColourByte(PixelColour(f, cell, gy, b / f.bpp), b % f.bpp)
  }

  // ------------------------------------------------------------------ bits

  lemma HalfOf(x: nat, m: nat, r: nat)
    requires x == 2 * m + r
    ensures x / 2 == m + r / 2
  {
  }

  lemma DivDiv(x: nat, p: nat, d: nat)
    requires p > 0 && d == 2 * p
    ensures x / 2 / p == x / d
  {
    Euclid(x, d);
    HalfQuotient(x, p, d, x / d, x % d);
  }

  lemma HalfQuotient(x: nat, p: nat, d: nat, q: nat, r: nat)
    requires p > 0 && d == 2 * p && r < d && x == q * d + r
    ensures x / 2 / p == q
  {
    Twice(q, p, d);
    HalfOf(x, q * p, r);
    DivIs(q, r / 2, p);
  }

  lemma Twice(q: nat, p: nat, d: nat)
    requires d == 2 * p
    ensures q * d == 2 * (q * p)
  {
  }

  /** x >> k */
  function ShiftRight(x: nat, k: nat): (r: nat) {
    Euclid(x, Pow2(k));
    x / Pow2(k)
  }

  /** Shifting right by k and masking with 1 is testing bit k. */
  lemma {:induction false} BitIs(x: nat, k: nat)
    ensures Bit(x, k) <==> ShiftRight(x, k) % 2 == 1
  {
    if k > 0 {
      BitIs(x / 2, k - 1);
      DivDiv(x, Pow2(k - 1), Pow2(k));
    }
  }

  /** Shifting by k and masking with 3 gives bits k + 1 and k. */
  lemma PairIs(x: nat, k: nat)
    ensures ShiftRight(x, k) % 4 == (if Bit(x, k + 1) then 2 else 0) + if Bit(x, k) then 1 else 0
  {
    hide Bit, Pow2;
    BitIs(x, k);
    BitIs(x, k + 1);
    NextPow(k);
    DivHalf(x, Pow2(k), Pow2(k + 1));
    TwoDigits(ShiftRight(x, k));
  }

  lemma NextPow(k: nat)
    ensures Pow2(k + 1) == 2 * Pow2(k)
  {
  }

  lemma TwoDigits(y: nat)
    ensures y % 4 == y / 2 % 2 * 2 + y % 2
  {
  }

  lemma EvenPlace(q: nat, r: nat)
    requires r < 8 && (8 * q + r) % 2 == 0
    ensures r % 2 == 0 && r <= 6
  {
  }

  /** glyph_bits(g, px) & (0x80 >> (px & 7)) */
  predicate TestBit(g: Line, px: nat)
    requires px / 8 < |g|
  {
    ShiftRight(g[px / 8], 7 - px % 8) % 2 == 1
  }

  /** (glyph_bits(g, px) >> (6 - (px & 7))) & 3 */
  function TwoBits(g: Line, px: nat): (two: nat)
    requires px / 8 < |g| && px % 2 == 0
    ensures two < 4
  {
    EvenPlace(px / 8, px % 8);
    ShiftRight(g[px / 8], 6 - px % 8) % 4
  }

  lemma DivHalf(x: nat, p: nat, d: nat)
    requires p > 0 && d == 2 * p
    ensures x / d == x / p / 2
  {
    Euclid(x, p);
    QuotientHalf(x, p, d, x / p, x % p);
  }

  lemma QuotientHalf(x: nat, p: nat, d: nat, q: nat, r: nat)
    requires p > 0 && d == 2 * p && r < p && x == q * p + r
    ensures x / d == q / 2
  {
    var h, l := q / 2, q % 2;
    Distribute(2 * h, l, p);
    Twice(h, p, d);
    assert (2 * h) * p == 2 * (h * p);
    DivIs(h, l * p + r, d);
  }

  /** n pixels of a glyph row from px on, read from left to right as a binary number. */
  function RowValue(f: Face, cell: Cell, gy: nat, px: nat, n: nat): nat
    requires FaceOk(f) && gy < f.cellh && px + n <= f.cellw
  {
    if n == 0 then 0
    else 2 * RowValue(f, cell, gy, px, n - 1) + if Inked(f, cell, gy, px + n - 1) then 1 else 0
  }

  /** Eight pixels of a glyph row are the font's byte. */
  lemma RowIsFont(f: Face, cell: Cell, gy: nat, j: nat)
    requires FaceOk(f) && gy < f.cellh && 8 * j + 8 <= f.cellw
    ensures |f.font[cell % 0x100][gy]| > j && RowValue(f, cell, gy, 8 * j, 8) == f.font[cell % 0x100][gy][j]
  {
    RowPart(f, cell, gy, j, 8);
  }

  lemma {:induction false} RowPart(f: Face, cell: Cell, gy: nat, j: nat, n: nat)
    requires FaceOk(f) && gy < f.cellh && 8 * j + 8 <= f.cellw && n <= 8
    ensures |f.font[cell % 0x100][gy]| > j
    ensures RowValue(f, cell, gy, 8 * j, n) == ShiftRight(f.font[cell % 0x100][gy][j], 8 - n)
  {
    hide Bit;
    var x := f.font[cell % 0x100][gy][j];
    if n == 0 {
      Pow8();
    } else {
      RowPart(f, cell, gy, j, n - 1);
      assert (8 * j + n - 1) / 8 == j && (8 * j + n - 1) % 8 == n - 1;
      BitIs(x, 8 - n);
      NextPow(8 - n);
      DivHalf(x, Pow2(8 - n), Pow2(9 - n));
    }
  }

  // ---------------------------------------------------------- pixel by pixel

  /** A colour as the bytes of a pixel. */
  method PixelBytes(bpp: nat, c: nat) returns (t: seq<Byte>)
    requires 2 <= bpp <= 4 && IsColour(bpp, c)
    ensures |t| == bpp && forall k :: 0 <= k < bpp ==> t[k] == ColourByte(c, k)
  {
    if bpp == 2 {
      t := Le16(c);
    } else if bpp == 3 {
      t := [c % 0x100, c / 0x100 % 0x100, c / 0x1_0000 % 0x100];
    } else {
      t := Le32(c);
      WordBytes(c);
    }
  }

  lemma WordBytes(c: Word)
    ensures forall k :: 0 <= k < 4 ==> Le32(c)[k] == ColourByte(c, k)
  {
    assert c / 0x100 / 0x100 == c / 0x1_0000;
    assert c / 0x100 / 0x100 / 0x100 == c / 0x100_0000;
  }

  /** Pixel px of a cell takes its bytes from px * bpp on. */
  lemma PixelByte(f: Face, cell: Cell, gy: nat, px: nat, k: nat)
    requires FaceOk(f) && gy < f.cellh && px < f.cellw && k < f.bpp
    ensures px * f.bpp + k < f.cw
    ensures GlyphByte(f, cell, gy, px * f.bpp + k) == ColourByte(PixelColour(f, cell, gy, px), k)
  {
    hide PixelColour, ColourByte;
    MulMono(px + 1, f.cellw, f.bpp);
    Distribute(px, 1, f.bpp);
    DivIs(px, k, f.bpp);
  }

  /** The first n bytes of the cell's row are in place from at on. */
  ghost predicate DrawnTo(f: Face, cell: Cell, gy: nat, at: nat, line: Line, r: Line, n: nat)
    requires FaceOk(f) && gy < f.cellh && n <= f.cw && at + f.cw <= |line|
  {
    && |r| == |line|
    && (forall x :: 0 <= x < |line| && !(at <= x < at + n) ==> r[x] == line[x])
    && forall b :: 0 <= b < n ==> r[at + b] == GlyphByte(f, cell, gy, b)
  }

  /** One more pixel. */
  lemma PixelDrawn(f: Face, cell: Cell, gy: nat, at: nat, line: Line, r: Line, px: nat, t: seq<Byte>)
    requires FaceOk(f) && gy < f.cellh && px < f.cellw && px * f.bpp + f.bpp <= f.cw && at + f.cw <= |line|
    requires DrawnTo(f, cell, gy, at, line, r, px * f.bpp) && |t| == f.bpp
    requires forall k :: 0 <= k < f.bpp ==> t[k] == ColourByte(PixelColour(f, cell, gy, px), k)
    ensures DrawnTo(f, cell, gy, at, line, Splice(r, at + px * f.bpp, t), px * f.bpp + f.bpp)
  {
    hide GlyphByte, PixelColour, ColourByte, Splice;
    var n := px * f.bpp;
    forall b | 0 <= b < n + f.bpp
      ensures Splice(r, at + n, t)[at + b] == GlyphByte(f, cell, gy, b)
    {
      if b >= n {
        PixelByte(f, cell, gy, px, b - n);
      }
    }
  }

  lemma PixelFits(f: Face, px: nat)
    requires FaceOk(f) && px < f.cellw
    ensures px * f.bpp + f.bpp == (px + 1) * f.bpp <= f.cw && (px + 1 == f.cellw ==> (px + 1) * f.bpp == f.cw)
  {
    MulMono(px + 1, f.cellw, f.bpp);
  }

  lemma FaceFacts(f: Face)
    requires FaceOk(f)
    ensures 2 <= f.bpp <= 4 && f.cellw > 0 && f.cellw % 2 == 0 && |f.font| == 256 && |f.palette| == 16
    ensures forall c :: 0 <= c < 16 ==> IsColour(f.bpp, f.palette[c])
  {
  }

  lemma GlyphRow(f: Face, cell: Cell, gy: nat)
    requires FaceOk(f) && gy < f.cellh
    ensures |f.font| == 256 && |f.font[cell % 0x100]| == f.cellh && f.cellw <= 8 * |f.font[cell % 0x100][gy]|
  {
  }

  /** The colour that a pixel of the glyph asks for. */
  lemma PixelTested(f: Face, cell: Cell, gy: nat, px: nat)
    requires FaceOk(f) && gy < f.cellh && px < f.cellw
    ensures |f.font| == 256 && |f.font[cell % 0x100]| == f.cellh && px / 8 < |f.font[cell % 0x100][gy]|
    ensures TestBit(f.font[cell % 0x100][gy], px) <==> Inked(f, cell, gy, px)
  {
    hide Bit;
    GlyphRow(f, cell, gy);
    BitIs(f.font[cell % 0x100][gy][px / 8], 7 - px % 8);
  }

  /** The attribute byte: ink in the low half, paper in the high one. */
  lemma Attribute(cell: Cell)
    ensures cell / 0x100 % 16 == Ink(cell) && cell / 0x100 / 16 % 16 == Paper(cell)
  {
  }

  /** One more pixel. */
  method DrawPixel(f: Face, ghost line: Line, was: Line, at: nat, cell: Cell, ghost gy: nat, g: Line, px: nat)
      returns (r: Line)
    requires FaceOk(f) && gy < f.cellh && px < f.cellw && px * f.bpp <= f.cw && at + f.cw <= |line| == |was|
    requires |f.font| == 256 && |f.font[cell % 0x100]| == f.cellh && g == f.font[cell % 0x100][gy]
    requires DrawnTo(f, cell, gy, at, line, was, px * f.bpp)
    ensures (px + 1) * f.bpp <= f.cw && DrawnTo(f, cell, gy, at, line, r, (px + 1) * f.bpp) && |r| == |line|
  {
    hide FaceOk, Inked, Ink, Paper, TestBit, GlyphByte, ColourByte, IsColour, DrawnTo, Splice;
    FaceFacts(f);
    PixelFits(f, px);
    PixelTested(f, cell, gy, px);
    Attribute(cell);
    var attr := cell / 0x100;
    var fg, bg := f.palette[attr % 16], f.palette[attr / 16 % 16];
    var t := PixelBytes(f.bpp, if TestBit(g, px) then fg else bg);
    PixelDrawn(f, cell, gy, at, line, was, px, t);
    r := Splice(was, at + px * f.bpp, t);
  }

  /** A row of one cell, a pixel at a time, as in the 16 and 24 bit modes. */
  method DrawPixels(f: Face, line: Line, at: nat, cell: Cell, gy: nat) returns (r: Line)
    requires FaceOk(f) && gy < f.cellh && at + f.cw <= |line|
    ensures DrawnTo(f, cell, gy, at, line, r, f.cw)
  {
    hide FaceOk, DrawnTo;
    GlyphRow(f, cell, gy);
    var g := f.font[cell % 0x100][gy];
    r := line;
    NothingDrawn(f, cell, gy, at, line);
    var px := 0;
    while px < f.cellw
      invariant 0 <= px <= f.cellw && px * f.bpp <= f.cw && |r| == |line|
      invariant DrawnTo(f, cell, gy, at, line, r, px * f.bpp)
    {
      r := DrawPixel(f, line, r, at, cell, gy, g, px);
      px := px + 1;
    }
    WholeCell(f);
  }

  lemma NothingDrawn(f: Face, cell: Cell, gy: nat, at: nat, line: Line)
    requires FaceOk(f) && gy < f.cellh && at + f.cw <= |line|
    ensures DrawnTo(f, cell, gy, at, line, line, 0)
  {
  }

  /** The four pairs of pixels that two bits of a glyph can ask for, the left pixel in the low half. */
  function Lut(fg: Word, bg: Word): seq<nat> {
    [bg * 0x1_0000_0000 + bg, fg * 0x1_0000_0000 + bg, bg * 0x1_0000_0000 + fg, fg * 0x1_0000_0000 + fg]
  }

  /** Two pixels of a glyph at once: the entry of the table that their two bits select. */
  lemma PairColours(f: Face, cell: Cell, gy: nat, px: nat, fg: Word, bg: Word)
    requires FaceOk(f) && f.bpp == 4 && gy < f.cellh && px % 2 == 0 && px + 1 < f.cellw
    requires |f.font| == 256 && |f.font[cell % 0x100]| == f.cellh && px / 8 < |f.font[cell % 0x100][gy]|
    requires fg == f.palette[Ink(cell)] && bg == f.palette[Paper(cell)]
    ensures Lut(fg, bg)[TwoBits(f.font[cell % 0x100][gy], px)] ==
            PixelColour(f, cell, gy, px + 1) * 0x1_0000_0000 + PixelColour(f, cell, gy, px)
  {
    hide FaceOk, Bit;
    EvenPlace(px / 8, px % 8);
    assert (px + 1) / 8 == px / 8 && (px + 1) % 8 == px % 8 + 1;
    PairIs(f.font[cell % 0x100][gy][px / 8], 6 - px % 8);
  }

  /** A qword of two pixels, low half first. */
  method PairBytes(q: nat, ghost left: Word, ghost right: Word) returns (s: seq<Byte>, t: seq<Byte>)
    requires q == right * 0x1_0000_0000 + left
    ensures |s| == |t| == 4
    ensures forall k :: 0 <= k < 4 ==> s[k] == ColourByte(left, k) && t[k] == ColourByte(right, k)
  {
    hide ColourByte, Le32;
    DivIs(right, left, 0x1_0000_0000);
    s, t := Le32(q % 0x1_0000_0000), Le32(q / 0x1_0000_0000);
    WordBytes(left);
    WordBytes(right);
  }

  /** Two more pixels. */
  method DrawPair(f: Face, ghost line: Line, was: Line, at: nat, ghost cell: Cell, ghost gy: nat, px: nat, q: nat)
      returns (r: Line)
    requires FaceOk(f) && f.bpp == 4 && gy < f.cellh && px + 1 < f.cellw && at + f.cw <= |line|
    requires px * f.bpp <= f.cw && DrawnTo(f, cell, gy, at, line, was, px * f.bpp) && |was| == |line|
    requires q == PixelColour(f, cell, gy, px + 1) * 0x1_0000_0000 + PixelColour(f, cell, gy, px)
    ensures (px + 2) * f.bpp <= f.cw && DrawnTo(f, cell, gy, at, line, r, (px + 2) * f.bpp) && |r| == |line|
  {
    hide FaceOk, GlyphByte, ColourByte, DrawnTo, Splice, PixelColour;
    PixelFits(f, px);
    PixelFits(f, px + 1);
    PixelIsColour(f, cell, gy, px);
    PixelIsColour(f, cell, gy, px + 1);
    var s, t := PairBytes(q, PixelColour(f, cell, gy, px), PixelColour(f, cell, gy, px + 1));
    PixelDrawn(f, cell, gy, at, line, was, px, s);
    r := Splice(was, at + px * f.bpp, s);
    PixelDrawn(f, cell, gy, at, line, r, px + 1, t);
    r := Splice(r, at + (px + 1) * f.bpp, t);
  }

  /** A row of one cell, two pixels at a time, as in the 32 bit modes. */
  method DrawPairs(f: Face, line: Line, at: nat, cell: Cell, gy: nat) returns (r: Line)
    requires FaceOk(f) && f.bpp == 4 && gy < f.cellh && at + f.cw <= |line|
    ensures DrawnTo(f, cell, gy, at, line, r, f.cw)
  {
    hide FaceOk, DrawnTo, PixelColour, Lut, TwoBits, Ink, Paper;
    FaceFacts(f);
    GlyphRow(f, cell, gy);
    Attribute(cell);
    var attr := cell / 0x100;
    var fg, bg := f.palette[attr % 16], f.palette[attr / 16 % 16];
    var lut := Lut(fg, bg);
    LutSize(fg, bg);
    var g := f.font[cell % 0x100][gy];
    r := line;
    NothingDrawn(f, cell, gy, at, line);
    var px := 0;
    while px < f.cellw
      invariant 0 <= px <= f.cellw && px % 2 == 0 && px * f.bpp <= f.cw
      invariant DrawnTo(f, cell, gy, at, line, r, px * f.bpp) && |r| == |line|
    {
      PairColours(f, cell, gy, px, fg, bg);
      r := DrawPair(f, line, r, at, cell, gy, px, lut[TwoBits(g, px)]);
      px := px + 2;
    }
    WholeCell(f);
  }

  lemma WholeCell(f: Face)
    requires FaceOk(f)
    ensures f.cellw * f.bpp == f.cw
  {
  }

  lemma PixelIsColour(f: Face, cell: Cell, gy: nat, px: nat)
    requires FaceOk(f) && gy < f.cellh && px < f.cellw
    ensures IsColour(f.bpp, PixelColour(f, cell, gy, px))
  {
  }

  lemma LutSize(fg: Word, bg: Word)
    ensures |Lut(fg, bg)| == 4
  {
  }
}
