/**
 The framebuffer console (kern/framebuffer.c): glyphs go to a shadow canvas, dirty
 byte spans of it go to the display, and a cache of the cells last drawn lets a flush
 redraw only what changed. A line of the canvas is its pitch bytes.
 */
module Framebuffer {
  import opened Arith
  import opened Bytes
  import opened Glyphs

  const UNKNOWN: Cell := 0xffff  // no cell has been drawn here since the last clear

  predicate CanvasOk(f: Face, canvas: seq<Line>) {
    |canvas| == f.height && forall y :: 0 <= y < f.height ==> |canvas[y]| == f.pitch
  }

  // --------------------------------------------------------- dirty spans

  /** A line with nothing dirty has lo 1 and hi 0. */
  predicate SpanOk(f: Face, lo: seq<nat>, hi: seq<nat>, y: nat)
    requires y < |lo| == |hi|
  {
    (lo[y] == 1 && hi[y] == 0) || lo[y] < hi[y] <= f.pitch
  }

  predicate DirtyOk(f: Face, lo: seq<nat>, hi: seq<nat>, top: nat, bot: nat) {
    && |lo| == |hi| == f.height && top <= f.height && bot <= f.height
    && (forall y :: 0 <= y < f.height ==> SpanOk(f, lo, hi, y))
    && forall y :: 0 <= y < f.height && !(top <= y < bot) ==> lo[y] > hi[y]
  }

  predicate IsDirty(lo: seq<nat>, hi: seq<nat>, y: nat, x: nat)
    requires y < |lo| == |hi|
  {
    lo[y] <= x < hi[y]
  }

  predicate InBox(y: nat, x: nat, y0: nat, y1: nat, x0: nat, x1: nat) {
    y0 <= y < y1 && x0 <= x < x1
  }

  /**
   Where the display differs from the canvas, the byte is dirty or one of the odd ones
   that differed to begin with.
   */
  ghost predicate Covered(f: Face, canvas: seq<Line>, display: seq<Line>, lo: seq<nat>, hi: seq<nat>,
                          odd: set<(nat, nat)>)
    requires CanvasOk(f, canvas) && CanvasOk(f, display) && |lo| == |hi| == f.height
  {
    forall y: nat, x: nat :: y < f.height && x < f.pitch ==>
      display[y][x] == canvas[y][x] || IsDirty(lo, hi, y, x) || (y, x) in odd
  }

  /** One line of mark_dirty. */
  function Widened(lo: nat, hi: nat, x0: nat, x1: nat): (nat, nat) {
    if lo > hi then (x0, x1) else (if x0 < lo then x0 else lo, if x1 > hi then x1 else hi)
  }

  lemma WidenedSpan(f: Face, lo: nat, hi: nat, x0: nat, x1: nat)
    requires x0 < x1 <= f.pitch && ((lo == 1 && hi == 0) || lo < hi <= f.pitch)
    ensures var (l, h) := Widened(lo, hi, x0, x1);
            l < h <= f.pitch && l <= x0 && x1 <= h && (lo < hi ==> l <= lo && hi <= h)
  {
  }

  // -------------------------------------------------------------- glyphs

  /** The cell column of byte x of a line, and the byte within the cell. */
  function ColOf(x: nat, cw: nat): (c: nat)
    requires cw > 0
  {
    x / cw
  }

  function OffOf(x: nat, cw: nat): (b: nat)
    requires cw > 0
    ensures b < cw
  {
    x % cw
  }

  /** Byte x of line gy of a row of cells. */
  function RowByte(f: Face, cells: seq<Cell>, gy: nat, x: nat): Byte
    requires FaceOk(f) && gy < f.cellh
  {
    if ColOf(x, f.cw) < |cells| then GlyphByte(f, cells[ColOf(x, f.cw)], gy, OffOf(x, f.cw)) else 0
  }

  /** One scanline of draw_span: the bytes of cells [c0, c1). */
  method DrawLine(f: Face, line: Line, cells: seq<Cell>, gy: nat, c0: nat, c1: nat) returns (r: Line)
    requires FaceOk(f) && |cells| == f.columns && gy < f.cellh && c0 <= c1 <= f.columns && |line| == f.pitch
    ensures |r| == f.pitch && c1 * f.cw <= f.columns * f.cw <= f.pitch
    ensures forall x :: 0 <= x < f.pitch ==>
        r[x] == if c0 * f.cw <= x < c1 * f.cw then RowByte(f, cells, gy, x) else line[x]
  {
    hide GlyphByte, FaceOk, RowByte, DrawnTo;
    var cw := f.cw;
    Sizes(f);
    MulMono(c1, f.columns, cw);
    MulMono(c0, c1, cw);
    r := line;
    for col := c0 to c1
      invariant |r| == f.pitch && c0 * cw <= col * cw <= c1 * cw
      invariant forall x :: 0 <= x < f.pitch ==>
          r[x] == if c0 * cw <= x < col * cw then RowByte(f, cells, gy, x) else line[x]
    {
      MulMono(col + 1, c1, cw);
      Distribute(col, 1, cw);
      ghost var was := r;
      if f.bpp == 4 {
        r := DrawPairs(f, r, col * cw, cells[col], gy);
      } else {
        r := DrawPixels(f, r, col * cw, cells[col], gy);
      }
      CellDrawn(f, cells, gy, col, col * cw, was, r);
    }
  }

  /** A cell drawn at its place is its part of the row. */
  lemma CellDrawn(f: Face, cells: seq<Cell>, gy: nat, col: nat, at: nat, line: Line, r: Line)
    requires FaceOk(f) && gy < f.cellh && col < |cells| && at == col * f.cw && at + f.cw <= |line|
    requires DrawnTo(f, cells[col], gy, at, line, r, f.cw)
    ensures |r| == |line|
    ensures forall x :: 0 <= x < |line| ==> r[x] == if at <= x < at + f.cw then RowByte(f, cells, gy, x) else line[x]
  {
    hide GlyphByte, FaceOk;
    Sizes(f);
    forall x | at <= x < at + f.cw
      ensures r[x] == RowByte(f, cells, gy, x)
    {
      DivIs(col, x - at, f.cw);
      assert r[at + (x - at)] == GlyphByte(f, cells[col], gy, x - at);
    }
  }

  lemma Sizes(f: Face)
    requires FaceOk(f)
    ensures f.cw > 0 && f.columns * f.cw <= f.width <= f.pitch && f.rows * f.cellh <= f.height && f.cellh > 0
  {
  }

  // ------------------------------------------------- cells on the canvas

  predicate CellsOk(f: Face, cells: seq<seq<Cell>>) {
    |cells| == f.rows && forall r :: 0 <= r < f.rows ==> |cells[r]| == f.columns
  }

  /** The byte (y, x) shows its cell of cells. */
  predicate Shows(f: Face, canvas: seq<Line>, cells: seq<seq<Cell>>, y: nat, x: nat)
    requires FaceOk(f) && y < |canvas| && x < |canvas[y]| && ColOf(y, f.cellh) < |cells|
  {
    canvas[y][x] == RowByte(f, cells[ColOf(y, f.cellh)], OffOf(y, f.cellh), x)
  }

  /** The cache does not know what is at the cell of (y, x). */
  predicate Unknown(f: Face, rendered: seq<seq<Cell>>, y: nat, x: nat)
    requires FaceOk(f) && ColOf(y, f.cellh) < |rendered|
  {
    ColOf(x, f.cw) < |rendered[ColOf(y, f.cellh)]| && rendered[ColOf(y, f.cellh)][ColOf(x, f.cw)] == UNKNOWN
  }

  /** (y, x) is a byte of the cell area. */
  predicate InArea(f: Face, y: nat, x: nat)
    requires FaceOk(f)
  {
    y < f.height && x < f.pitch && ColOf(y, f.cellh) < f.rows && ColOf(x, f.cw) < f.columns
  }

  /** What the cache says was drawn is on the canvas. */
  ghost predicate Coherent(f: Face, canvas: seq<Line>, rendered: seq<seq<Cell>>)
    requires FaceOk(f) && CanvasOk(f, canvas) && CellsOk(f, rendered)
  {
    forall y: nat, x: nat :: InArea(f, y, x) ==> Unknown(f, rendered, y, x) || Shows(f, canvas, rendered, y, x)
  }

  /** Lines of a row, and bytes of columns [a, b). */
  lemma Inside(n: nat, a: nat, b: nat, d: nat)
    requires d > 0
    ensures a * d <= n < b * d <==> a <= ColOf(n, d) < b
  {
    Between(n, a, b, d);
  }

  // ------------------------------------------------------------- the class

  class Screen {
    const f: Face
    var canvas: seq<Line>    // the shadow
    var display: seq<Line>   // pixels
    var lo: seq<nat>
    var hi: seq<nat>
    var top: nat
    var bot: nat
    var rendered: seq<seq<Cell>>
    ghost var odd: set<(nat, nat)>

    /**
     framebuffer_init with a shadow: black, no cell known and nothing dirty. What the
     display shows is left alone; those of its bytes that are not black are the odd ones.
     */
    constructor (f: Face, display: seq<Line>)
      requires FaceOk(f) && CanvasOk(f, display)
      ensures this.f == f && this.display == display && Good() && Emptied(f, canvas, rendered)
      ensures forall y: nat, x: nat :: y < f.height ==> !IsDirty(lo, hi, y, x)
      ensures forall y: nat, x: nat :: (y, x) in odd <==> y < f.height && x < f.pitch && display[y][x] != 0
    {
      this.f, this.display := f, display;
      canvas := seq(f.height, _ => Zeros(f.pitch));
      rendered := seq(f.rows, _ => seq(f.columns, _ => UNKNOWN));
      lo, hi, top, bot := seq(f.height, _ => 1), seq(f.height, _ => 0), f.height, 0;
      odd := set y: nat, x: nat | y < f.height && x < f.pitch && display[y][x] != 0 :: (y, x);
      new;
      hide FaceOk;
      AllUnknown(f, canvas, rendered);
    }

    ghost predicate Shaped()
      reads this
    {
      && FaceOk(f) && CanvasOk(f, canvas) && CanvasOk(f, display) && DirtyOk(f, lo, hi, top, bot)
    }

    /** Shaped, and every byte that needs presenting is dirty. */
    ghost predicate Tracked()
      reads this
    {
      Shaped() && Covered(f, canvas, display, lo, hi, odd)
    }

    /** The loop of mark_dirty. */
    method WidenLines(y0: nat, y1: nat, x0: nat, x1: nat)
      requires y0 <= y1 <= |lo| == |hi|
      modifies this`lo, this`hi
      ensures |lo| == |hi| == |old(lo)|
      ensures forall k :: 0 <= k < |lo| ==>
          (lo[k], hi[k]) == if y0 <= k < y1 then Widened(old(lo)[k], old(hi)[k], x0, x1) else (old(lo)[k], old(hi)[k])
    {
      for y := y0 to y1
        invariant |lo| == |hi| == |old(lo)|
        invariant forall k :: 0 <= k < |lo| ==>
            (lo[k], hi[k]) == if y0 <= k < y then Widened(old(lo)[k], old(hi)[k], x0, x1) else (old(lo)[k], old(hi)[k])
      {
        if lo[y] > hi[y] {
          lo := lo[y := x0];
          hi := hi[y := x1];
        } else {
          if x0 < lo[y] {
            lo := lo[y := x0];
          }
          if x1 > hi[y] {
            hi := hi[y := x1];
          }
        }
      }
    }

    /** mark_dirty: the box, clamped to the screen, joins the dirty spans. */
    method MarkDirty(y0: nat, yend: nat, x0: nat, xend: nat)
      requires DirtyOk(f, lo, hi, top, bot)
      modifies this`lo, this`hi, this`top, this`bot
      ensures DirtyOk(f, lo, hi, top, bot) && |lo| == |hi| == |old(lo)| == |old(hi)| == f.height
      ensures forall y: nat, x: nat :: y < f.height && x < f.pitch ==>
        IsDirty(old(lo), old(hi), y, x) || InBox(y, x, y0, yend, x0, xend) ==> IsDirty(lo, hi, y, x)
    {
      hide Widened;
      var y1 := if yend > f.height then f.height else yend;
      var x1 := if xend > f.pitch then f.pitch else xend;
      if y0 >= y1 || x0 >= x1 {
        return;
      }
      WidenLines(y0, y1, x0, x1);
      if y0 < top {
        top := y0;
      }
      if y1 > bot {
        bot := y1;
      }
      forall y: nat | y < f.height
        ensures SpanOk(f, lo, hi, y) && (y0 <= y < y1 || (lo[y] == old(lo)[y] && hi[y] == old(hi)[y]))
        ensures forall x: nat :: x < f.pitch ==>
          IsDirty(old(lo), old(hi), y, x) || InBox(y, x, y0, yend, x0, xend) ==> IsDirty(lo, hi, y, x)
      {
        assert SpanOk(f, old(lo), old(hi), y);
        WidenedSpan(f, old(lo)[y], old(hi)[y], x0, x1);
      }
    }

    /** dirty_reset: only the lines between top and bot can be dirty. */
    method DirtyReset()
      requires DirtyOk(f, lo, hi, top, bot)
      modifies this`lo, this`hi, this`top, this`bot
      ensures DirtyOk(f, lo, hi, top, bot) && forall y: nat, x: nat :: y < f.height ==> !IsDirty(lo, hi, y, x)
    {
      var y := top;
      while y < bot
        invariant top <= y && |lo| == |hi| == f.height && top == old(top) && bot == old(bot) && (top < bot ==> y <= bot)
        invariant forall k :: 0 <= k < f.height ==>
            if top <= k < y then lo[k] == 1 && hi[k] == 0 else lo[k] == old(lo)[k] && hi[k] == old(hi)[k]
      {
        lo := lo[y := 1];
        hi := hi[y := 0];
        y := y + 1;
      }
      forall k | 0 <= k < f.height
        ensures lo[k] == 1 && hi[k] == 0
      {
        assert SpanOk(f, old(lo), old(hi), k);
      }
      top := f.height;
      bot := 0;
    }

    /** The copying loop of fb_present. */
    method CopySpans()
      requires Shaped()
      modifies this`display
      ensures CanvasOk(f, display)
      ensures forall y: nat, x: nat :: y < f.height && x < f.pitch ==>
          display[y][x] == if IsDirty(lo, hi, y, x) then canvas[y][x] else old(display)[y][x]
    {
      hide FaceOk;
      var y := top;
      while y < bot
        invariant top <= y && (top < bot ==> y <= bot) && CanvasOk(f, display)
        invariant forall k: nat, x: nat :: k < f.height && x < f.pitch ==>
          display[k][x] == if k < y && IsDirty(lo, hi, k, x) then canvas[k][x] else old(display)[k][x]
      {
        assert SpanOk(f, lo, hi, y);
        if lo[y] < hi[y] {
          display := display[y := Splice(display[y], lo[y], canvas[y][lo[y]..hi[y]])];
        }
        y := y + 1;
      }
    }

    /** fb_present: afterwards display and canvas agree everywhere but in the odd bytes, and nothing is dirty. */
    method Present()
      requires Tracked()
      modifies this`display, this`lo, this`hi, this`top, this`bot
      ensures Tracked()
      ensures forall y: nat, x: nat :: y < f.height && x < f.pitch ==> display[y][x] == canvas[y][x] || (y, x) in odd
    {
      hide FaceOk;
      if top >= bot {
        return;
      }
      CopySpans();
      DirtyReset();
    }

    /** The scanlines of draw_span: y0 and up, bytes [x0, x1). */
    method DrawLines(cells: seq<Cell>, c0: nat, c1: nat, y0: nat, ghost x0: nat, ghost x1: nat)
      requires FaceOk(f) && CanvasOk(f, canvas) && |cells| == f.columns && c0 < c1 <= f.columns
      requires y0 + f.cellh <= f.height
      requires x0 == c0 * f.cw && x1 == c1 * f.cw
      modifies this`canvas
      ensures CanvasOk(f, canvas)
      ensures forall y: nat, x: nat :: y < f.height && x < f.pitch ==>
        canvas[y][x] == if InBox(y, x, y0, y0 + f.cellh, x0, x1) then RowByte(f, cells, y - y0, x)
            else old(canvas)[y][x]
    {
      hide FaceOk, RowByte;
      for gy := 0 to f.cellh
        invariant CanvasOk(f, canvas)
        invariant forall y: nat, x: nat :: y < f.height && x < f.pitch ==>
          canvas[y][x] == if InBox(y, x, y0, y0 + gy, x0, x1) then RowByte(f, cells, y - y0, x) else old(canvas)[y][x]
      {
        var line := DrawLine(f, canvas[y0 + gy], cells, gy, c0, c1);
        canvas := canvas[y0 + gy := line];
      }
    }

    /** framebuffer_draw_row_span on valid arguments: the glyphs of cells [c0, c1) of one row, then mark_dirty. */
    method DrawSpan(row: nat, cells: seq<Cell>, c0: nat, c1: nat)
      requires Tracked() && row < f.rows && |cells| == f.columns && c0 < c1 <= f.columns
      modifies this`canvas, this`lo, this`hi, this`top, this`bot
      ensures Tracked()
      ensures Drawn(f, old(canvas), canvas, row, cells, c0, c1)
    {
      hide FaceOk, RowByte, DirtyOk, IsDirty, Covered, InBox, Drawn;
      Sizes(f);
      var y0, x0, x1 := row * f.cellh, c0 * f.cw, c1 * f.cw;
      RowFits(f, row);
      DrawLines(cells, c0, c1, y0, x0, x1);
      ghost var was := old(canvas);
      MarkDirty(y0, y0 + f.cellh, x0, x1);
      StillCovered(f, was, canvas, display, old(lo), old(hi), lo, hi, odd, y0, y0 + f.cellh, x0, x1);
      BoxIsDrawn(f, was, canvas, row, cells, c0, c1);
    }

    /** Tracked, and the cache of drawn cells is right. */
    ghost predicate Good()
      reads this
    {
      Tracked() && CellsOk(f, rendered) && Coherent(f, canvas, rendered)
    }

    /** One row of framebuffer_redraw_cells. */
    method RedrawRow(r: nat, cur: seq<Cell>)
      requires Good() && r < f.rows && |cur| == f.columns
      modifies this`canvas, this`lo, this`hi, this`top, this`bot, this`rendered
      ensures Good() && rendered == old(rendered)[r := cur] && RowPictured(f, old(canvas), canvas, r, cur)
    {
      hide FaceOk, RowByte, DirtyOk, Covered, Drawn, Coherent, RowPictured;
      Wide(f);
      DrawSpan(r, cur, 0, f.columns);
      RowDone(f, old(canvas), canvas, rendered, r, cur, 0, f.columns);
      rendered := rendered[r := cur];
    }

    /** One row of framebuffer_flush_cells: only the span between the first and the last changed cell is drawn. */
    method FlushRow(r: nat, cur: seq<Cell>)
      requires Good() && r < f.rows && |cur| == f.columns
      modifies this`canvas, this`lo, this`hi, this`top, this`bot, this`rendered
      ensures Good() && rendered == old(rendered)[r := cur]
      ensures RowFlushed(f, old(canvas), canvas, r, cur, old(rendered)[r])
    {
      hide FaceOk, RowByte, DirtyOk, Covered, Drawn, Coherent, RowFlushed, Skipped;
      var rend := rendered[r];
      if cur == rend {
        NotDrawn(f, canvas, r, cur);
        RowDone(f, canvas, canvas, rendered, r, cur, 0, 0);
        NothingFlushed(f, canvas, r, cur);
        assert rendered == rendered[r := cur];
        return;
      }
      var min := FirstChange(cur, rend);
      var max := LastChange(cur, rend, min);
      DrawSpan(r, cur, min, max + 1);
      RowDone(f, old(canvas), canvas, rendered, r, cur, min, max + 1);
      SpanFlushed(f, old(canvas), canvas, r, cur, rend, min, max);
      rendered := rendered[r := rend[..min] + cur[min..max + 1] + rend[max + 1..]];
      assert rend[..min] + cur[min..max + 1] + rend[max + 1..] == cur;
    }

    /** framebuffer_redraw_cells: every cell of the given rows, then fb_present. */
    method Redraw(cells: seq<seq<Cell>>)
      requires Good() && forall r :: 0 <= r < |cells| ==> |cells[r]| == f.columns
      modifies this`canvas, this`display, this`lo, this`hi, this`top, this`bot, this`rendered
      ensures Good() && Pictured(f, old(canvas), canvas, cells, Total(f, cells)) && Presented(f, canvas, display, odd)
      ensures rendered == Merged(cells, old(rendered), Total(f, cells))
    {
      hide FaceOk, DirtyOk, Covered, Coherent, RowPictured, Pictured, Merged, Presented;
      var total := Total(f, cells);
      NonePictured(f, canvas, cells);
      NoneMerged(cells, rendered);
      for r := 0 to total
        invariant Good() && Pictured(f, old(canvas), canvas, cells, r)
        invariant rendered == Merged(cells, old(rendered), r)
      {
        ghost var was := canvas;
        MergedNext(cells, old(rendered), r);
        RedrawRow(r, cells[r]);
        OneMore(f, old(canvas), was, canvas, cells, r);
      }
      Present();
      NowPresented(f, canvas, display, odd);
    }

    /**
     framebuffer_flush_cells: only the changed spans, then fb_present. The outcome is
     that of a full redraw if and only if every cell that is 0xffff in the cache, and
     that the flush leaves out, is on the canvas already.
     */
    method Flush(cells: seq<seq<Cell>>)
      requires Good() && forall r :: 0 <= r < |cells| ==> |cells[r]| == f.columns
      modifies this`canvas, this`display, this`lo, this`hi, this`top, this`bot, this`rendered
      ensures Good() && Presented(f, canvas, display, odd)
      ensures Flushed(f, old(canvas), canvas, cells, old(rendered), Total(f, cells))
      ensures Pictured(f, old(canvas), canvas, cells, Total(f, cells)) <==>
              AllShown(f, old(canvas), cells, old(rendered), Total(f, cells))
      ensures rendered == Merged(cells, old(rendered), Total(f, cells))
    {
      hide FaceOk, DirtyOk, Covered, Coherent, RowFlushed, Flushed, Pictured, AllShown, Merged, Presented;
      var total := Total(f, cells);
      NoneFlushed(f, canvas, cells, rendered);
      NoneMerged(cells, rendered);
      for r := 0 to total
        invariant Good() && |rendered| == |old(rendered)| == f.rows
        invariant Flushed(f, old(canvas), canvas, cells, old(rendered), r)
        invariant rendered == Merged(cells, old(rendered), r)
      {
        ghost var was := canvas;
        MergedNext(cells, old(rendered), r);
        FlushRow(r, cells[r]);
        FlushedNext(f, old(canvas), was, canvas, cells, old(rendered), r);
      }
      FlushPictures(f, old(canvas), canvas, cells, old(rendered), total);
      Present();
      NowPresented(f, canvas, display, odd);
    }

    /** framebuffer_clear: black, with no cell known, presented; no byte is odd any more. */
    method Clear()
      requires Good()
      modifies this`canvas, this`display, this`lo, this`hi, this`top, this`bot, this`rendered, this`odd
      ensures Good() && Presented(f, canvas, display, odd) && odd == {}
      ensures Emptied(f, canvas, rendered)
    {
      hide FaceOk, DirtyOk, Covered, Presented;
      canvas := seq(f.height, _ => Zeros(f.pitch));
      rendered := seq(f.rows, _ => seq(f.columns, _ => UNKNOWN));
      AllUnknown(f, canvas, rendered);
      MarkDirty(0, f.height, 0, f.pitch);
      odd := {};
      AllDirty(f, canvas, display, old(lo), old(hi), lo, hi);
      Present();
      NowPresented(f, canvas, display, odd);
    }

    /** The canvas half of framebuffer_scroll_lines: the memmove, then the blank lines. */
    method MoveLines(moved: nat, blank: nat, fill: Cell)
      requires FaceOk(f) && CanvasOk(f, canvas) && moved + blank <= f.height
      modifies this`canvas
      ensures CanvasOk(f, canvas) && Moved(f, old(canvas), canvas, moved, blank, fill)
    {
      hide FaceOk, FillByte, Shifted;
      canvas := Shifted(canvas, moved, blank);
      FillLines(moved, moved + blank, fill);
    }

    method FillLines(y0: nat, y1: nat, fill: Cell)
      requires FaceOk(f) && CanvasOk(f, canvas) && y0 <= y1 <= f.height
      modifies this`canvas
      ensures CanvasOk(f, canvas)
      ensures forall y :: 0 <= y < f.height ==>
          if y0 <= y < y1 then IsFill(f, canvas[y], fill) else canvas[y] == old(canvas)[y]
    {
      hide FaceOk, IsFill;
      for y := y0 to y1
        invariant CanvasOk(f, canvas)
        invariant forall k :: 0 <= k < f.height ==>
            if y0 <= k < y then IsFill(f, canvas[k], fill) else canvas[k] == old(canvas)[k]
      {
        var line := FillLine(f, canvas[y], fill);
        canvas := canvas[y := line];
      }
    }

    /** framebuffer_scroll_lines by less than a screen. */
    method ScrollSome(n: nat, fill: Cell)
      requires Good() && 0 < n < f.rows
      modifies this`canvas, this`lo, this`hi, this`top, this`bot, this`rendered
      ensures Tracked() && CellsOk(f, rendered) && Scrolled(f, old(rendered), rendered, n, fill)
      ensures Coherent(f, canvas, rendered) <==> fill == UNKNOWN || PaperOnly(f, fill)
      ensures LinesScrolled(f, old(canvas), canvas, n, fill)
    {
      hide FaceOk, DirtyOk, Covered, Coherent, Moved, LinesScrolled, PaperOnly, IsDirty, Scrolled;
      var blank := n * f.cellh;
      var moved := (f.rows - n) * f.cellh;
      RowsSplit(f, n);
      MoveLines(moved, blank, fill);
      ghost var was := old(canvas);
      var fillrow := seq(f.columns, _ => fill);
      rendered := rendered[n..] + seq(n, _ => fillrow);
      MarkDirty(0, moved + blank, 0, f.pitch);
      MovedOutside(f, was, canvas, moved, blank, fill);
      StillCovered(f, was, canvas, display, old(lo), old(hi), lo, hi, odd, 0, moved + blank, 0, f.pitch);
      IsScrolled(f, old(rendered), rendered, n, fill);
      LinesMoved(f, was, canvas, n, fill, moved, blank);
      ScrollCoherent(f, was, canvas, old(rendered), rendered, n, fill);
    }

    /**
     framebuffer_scroll_lines: canvas and cache move together. They stay in step if and
     only if the fill cell looks like its paper, or is 0xffff.
     */
    method Scroll(n: int, fill: Cell)
      requires Good()
      modifies this`canvas, this`display, this`lo, this`hi, this`top, this`bot, this`rendered, this`odd
      ensures Tracked() && CellsOk(f, rendered)
      ensures Good() <==> n <= 0 || n >= f.rows || fill == UNKNOWN || PaperOnly(f, fill)
      ensures n <= 0 ==> canvas == old(canvas) && rendered == old(rendered)
      ensures n < f.rows ==> display == old(display) && odd == old(odd)
      ensures 0 < n < f.rows ==>
          Scrolled(f, old(rendered), rendered, n, fill) && LinesScrolled(f, old(canvas), canvas, n, fill)
      ensures 0 < f.rows <= n ==> Presented(f, canvas, display, odd) && odd == {} && Emptied(f, canvas, rendered)
    {
      hide FaceOk, DirtyOk, Covered, Coherent, LinesScrolled, PaperOnly, Scrolled, Emptied, Presented;
      if n <= 0 {
        return;
      }
      if n >= f.rows {
        Clear();
      } else {
        ScrollSome(n, fill);
      }
    }
  }

  /** The first n rows replaced. */
  function Merged(cells: seq<seq<Cell>>, was: seq<seq<Cell>>, n: nat): (r: seq<seq<Cell>>)
    requires n <= |cells| && n <= |was|
    ensures |r| == |was|
  {
    cells[..n] + was[n..]
  }

  lemma NoneMerged(cells: seq<seq<Cell>>, was: seq<seq<Cell>>)
    ensures Merged(cells, was, 0) == was
  {
  }

  lemma MergedNext(cells: seq<seq<Cell>>, was: seq<seq<Cell>>, n: nat)
    requires n < |cells| && n < |was|
    ensures Merged(cells, was, n)[n] == was[n]
    ensures Merged(cells, was, n)[n := cells[n]] == Merged(cells, was, n + 1)
  {
  }

  /** Nothing on the canvas, and no cell known. */
  ghost predicate Emptied(f: Face, canvas: seq<Line>, rendered: seq<seq<Cell>>)
    requires CanvasOk(f, canvas) && CellsOk(f, rendered)
  {
    && (forall y, x :: 0 <= y < f.height && 0 <= x < f.pitch ==> canvas[y][x] == 0)
    && forall r, c :: 0 <= r < f.rows && 0 <= c < f.columns ==> rendered[r][c] == UNKNOWN
  }

  /** The byte scroll_lines writes at x of a blank line. */
  function FillByte(f: Face, fill: Cell, x: nat): Byte
    requires FaceOk(f)
  {
    ColourByte(f.palette[Paper(fill)], OffOf(x, f.bpp))
  }

  predicate IsFill(f: Face, line: Line, fill: Cell)
    requires FaceOk(f)
  {
    |line| >= f.width && forall x :: 0 <= x < f.width ==> line[x] == FillByte(f, fill, x)
  }

  /** memmove of moved lines up by blank lines. */
  function Shifted(lines: seq<Line>, moved: nat, blank: nat): (r: seq<Line>)
    requires moved + blank <= |lines|
    ensures |r| == |lines| && forall y :: 0 <= y < moved ==> r[y] == lines[y + blank]
    ensures forall y :: moved <= y < |r| ==> r[y] == lines[y]
  {
    lines[blank..blank + moved] + lines[moved..]
  }

  /** One blank line: zeroed to the pitch if the paper is black, painted pixel by pixel to the width otherwise. */
  method FillLine(f: Face, line: Line, fill: Cell) returns (r: Line)
    requires FaceOk(f) && |line| == f.pitch
    ensures |r| == f.pitch && IsFill(f, r, fill)
  {
    hide FaceOk, ColourByte, Splice, IsColour, Paper, FillByte;
    Sizes(f);
    WholeLine(f);
    FaceFacts(f);
    Attribute(fill);
    var attr := fill / 0x100;
    var bg := f.palette[attr / 16 % 16];
    if bg == 0 {
      r := Zeros(f.pitch);
      ZeroFill(f, r, fill);
      return;
    }
    var t := PixelBytes(f.bpp, bg);
    r := line;
    var off := 0;
    while off < f.width
      invariant 0 <= off <= f.width && off % f.bpp == 0 && |r| == f.pitch && FilledTo(f, r, fill, off)
    {
      StepFits(off, f.width, f.bpp);
      FillNext(f, r, fill, off, t);
      r := Splice(r, off, t);
      off := off + f.bpp;
    }
  }

  ghost predicate FilledTo(f: Face, line: Line, fill: Cell, n: nat)
    requires FaceOk(f)
  {
    n <= |line| && forall k :: 0 <= k < n ==> line[k] == FillByte(f, fill, k)
  }

  /** One more pixel of paper. */
  lemma FillNext(f: Face, line: Line, fill: Cell, off: nat, t: seq<Byte>)
    requires FaceOk(f) && FilledTo(f, line, fill, off) && off % f.bpp == 0 && |t| == f.bpp && off + f.bpp <= |line|
    requires forall k :: 0 <= k < f.bpp ==> t[k] == ColourByte(f.palette[Paper(fill)], k)
    ensures FilledTo(f, Splice(line, off, t), fill, off + f.bpp)
  {
    hide FaceOk, ColourByte, Splice, Paper, OffOf;
    FaceFacts(f);
    forall k | off <= k < off + f.bpp
      ensures Splice(line, off, t)[k] == FillByte(f, fill, k)
    {
      PixelPhase(off, k - off, f.bpp);
    }
  }

  lemma WholeLine(f: Face)
    requires FaceOk(f)
    ensures f.width % f.bpp == 0
  {
  }

  lemma ZeroFill(f: Face, line: Line, fill: Cell)
    requires FaceOk(f) && line == Zeros(f.pitch) && f.palette[Paper(fill)] == 0
    ensures IsFill(f, line, fill)
  {
  }

  lemma PixelPhase(off: nat, k: nat, d: nat)
    requires d > 0 && off % d == 0 && k < d
    ensures OffOf(off + k, d) == k
  {
    DivIs(off / d, k, d);
  }

  /** The fill cell's glyph has no ink. */
  ghost predicate Blank(f: Face, fill: Cell)
    requires FaceOk(f)
  {
    forall gy: nat, px: nat :: gy < f.cellh && px < f.cellw ==> !Inked(f, fill, gy, px)
  }

  ghost predicate Moved(f: Face, before: seq<Line>, after: seq<Line>, moved: nat, blank: nat, fill: Cell)
    requires FaceOk(f) && CanvasOk(f, before) && CanvasOk(f, after) && moved + blank <= f.height
  {
    && (forall y :: 0 <= y < moved ==> after[y] == before[y + blank])
    && (forall y :: moved + blank <= y < f.height ==> after[y] == before[y])
    && forall y :: moved <= y < moved + blank ==> IsFill(f, after[y], fill)
  }

  /** The lines of n rows left at the top, and as many fill lines came in below the others. */
  ghost predicate LinesScrolled(f: Face, before: seq<Line>, after: seq<Line>, n: nat, fill: Cell)
    requires FaceOk(f) && CanvasOk(f, before) && CanvasOk(f, after) && n < f.rows
  {
    RowsSplit(f, n);
    Moved(f, before, after, (f.rows - n) * f.cellh, n * f.cellh, fill)
  }

  ghost predicate Scrolled(f: Face, before: seq<seq<Cell>>, after: seq<seq<Cell>>, n: nat, fill: Cell)
    requires CellsOk(f, before) && CellsOk(f, after) && n < f.rows
  {
    forall r, c :: 0 <= r < f.rows && 0 <= c < f.columns ==>
        after[r][c] == if r < f.rows - n then before[r + n][c] else fill
  }

  lemma RowsSplit(f: Face, n: nat)
    requires FaceOk(f) && n < f.rows
    ensures (f.rows - n) * f.cellh + n * f.cellh == f.rows * f.cellh <= f.height
  {
    Distribute(f.rows - n, n, f.cellh);
  }

  lemma MovedOutside(f: Face, before: seq<Line>, after: seq<Line>, moved: nat, blank: nat, fill: Cell)
    requires FaceOk(f) && CanvasOk(f, before) && CanvasOk(f, after) && moved + blank <= f.height
    requires Moved(f, before, after, moved, blank, fill)
    ensures forall y: nat, x: nat :: y < f.height && x < f.pitch && !InBox(y, x, 0, moved + blank, 0, f.pitch) ==>
        after[y][x] == before[y][x]
  {
    hide FaceOk, IsFill;
    forall y: nat, x: nat | y < f.height && x < f.pitch && !InBox(y, x, 0, moved + blank, 0, f.pitch)
      ensures after[y][x] == before[y][x]
    {
      assert y >= moved + blank;
    }
  }

  lemma IsScrolled(f: Face, before: seq<seq<Cell>>, after: seq<seq<Cell>>, n: nat, fill: Cell)
    requires CellsOk(f, before) && n < f.rows && after == before[n..] + seq(n, _ => seq(f.columns, _ => fill))
    ensures CellsOk(f, after) && Scrolled(f, before, after, n, fill)
  {
  }

  lemma LinesMoved(f: Face, before: seq<Line>, after: seq<Line>, n: nat, fill: Cell, moved: nat, blank: nat)
    requires FaceOk(f) && CanvasOk(f, before) && CanvasOk(f, after) && n < f.rows && moved + blank <= f.height
    requires moved == (f.rows - n) * f.cellh && blank == n * f.cellh && Moved(f, before, after, moved, blank, fill)
    ensures LinesScrolled(f, before, after, n, fill)
  {
    hide Moved;
  }

  /** The cell as it is drawn is its paper all over. */
  ghost predicate PaperOnly(f: Face, fill: Cell)
    requires FaceOk(f)
  {
    forall gy: nat, b: nat :: gy < f.cellh && b < f.cw ==> GlyphByte(f, fill, gy, b) == FillByte(f, fill, b)
  }

  /** So is a cell whose glyph has no ink, such as the space that the console scrolls in. */
  lemma BlankIsPaper(f: Face, fill: Cell)
    requires FaceOk(f) && Blank(f, fill)
    ensures PaperOnly(f, fill)
  {
    forall gy: nat, b: nat | gy < f.cellh && b < f.cw
      ensures GlyphByte(f, fill, gy, b) == FillByte(f, fill, b)
    {
      DivLess(b, f.cellw, f.bpp);
      assert !Inked(f, fill, gy, b / f.bpp);
    }
  }

  /** The fill lines show a cell that is paper only. */
  lemma FillShows(f: Face, cells: seq<Cell>, fill: Cell, gy: nat, x: nat)
    requires FaceOk(f) && PaperOnly(f, fill) && gy < f.cellh
    requires ColOf(x, f.cw) < |cells| && cells[ColOf(x, f.cw)] == fill
    ensures RowByte(f, cells, gy, x) == FillByte(f, fill, x)
  {
    hide ColOf, GlyphByte;
    SamePhase(x, f.cellw, f.bpp, f.cw);
  }

  /** Cells start at whole pixels. */
  lemma SamePhase(x: nat, w: nat, bpp: nat, d: nat)
    requires bpp > 0 && d > 0 && d == w * bpp
    ensures OffOf(x, bpp) == OffOf(x, d) % bpp
  {
    var c, b := x / d, x % d;
    assert x == c * d + b;
    Regroup(c, w, bpp);
    ModSum(c * w, bpp, b);
  }

  /** Canvas and cache moved by the same rows stay in step exactly when the fill lines show the fill cells. */
  lemma ScrollCoherent(f: Face, before: seq<Line>, after: seq<Line>, was: seq<seq<Cell>>, now: seq<seq<Cell>>, n: nat,
                       fill: Cell)
    requires FaceOk(f) && CanvasOk(f, before) && CanvasOk(f, after) && CellsOk(f, was) && CellsOk(f, now)
    requires 0 < n < f.rows
    requires Coherent(f, before, was) && Scrolled(f, was, now, n, fill) && LinesScrolled(f, before, after, n, fill)
    ensures Coherent(f, after, now) <==> fill == UNKNOWN || PaperOnly(f, fill)
  {
    hide FaceOk, RowByte, FillByte, GlyphByte, LinesScrolled, Scrolled, Unknown, Shows;
    if fill == UNKNOWN || PaperOnly(f, fill) {
      forall y: nat, x: nat | InArea(f, y, x)
        ensures Unknown(f, now, y, x) || Shows(f, after, now, y, x)
      {
        ScrollAt(f, before, after, was, now, n, fill, y, x);
      }
    } else if Coherent(f, after, now) {
      forall gy: nat, b: nat | gy < f.cellh && b < f.cw
        ensures GlyphByte(f, fill, gy, b) == FillByte(f, fill, b)
      {
        LastRowShows(f, before, after, was, now, n, fill, gy, b);
      }
    }
  }

  /** If the first cell of the last row shows on a fill line, it is paper there. */
  lemma LastRowShows(f: Face, before: seq<Line>, after: seq<Line>, was: seq<seq<Cell>>, now: seq<seq<Cell>>, n: nat,
                     fill: Cell, gy: nat, b: nat)
    requires FaceOk(f) && CanvasOk(f, before) && CanvasOk(f, after) && CellsOk(f, was) && CellsOk(f, now)
    requires 0 < n < f.rows && gy < f.cellh && b < f.cw && fill != UNKNOWN
    requires Coherent(f, after, now) && Scrolled(f, was, now, n, fill) && LinesScrolled(f, before, after, n, fill)
    ensures GlyphByte(f, fill, gy, b) == FillByte(f, fill, b)
  {
    hide FaceOk, FillByte, GlyphByte, ColOf, OffOf, Coherent;
    First(f);
    Sizes(f);
    var y, x := CellByte(f, f.rows - 1, 0, gy, b);
    assert now[f.rows - 1][0] == fill;
    CoherentAt(f, after, now, y, x);
    assert Shows(f, after, now, y, x);
    RowsSplit(f, n);
    Inside(y, f.rows - n, f.rows, f.cellh);
    FirstColumn(x, b, f.cw);
    assert IsFill(f, after[y], fill);
    Inside(x, 0, f.columns, f.cw);
  }

  lemma CoherentAt(f: Face, canvas: seq<Line>, rendered: seq<seq<Cell>>, y: nat, x: nat)
    requires FaceOk(f) && CanvasOk(f, canvas) && CellsOk(f, rendered) && Coherent(f, canvas, rendered)
    requires InArea(f, y, x)
    ensures Unknown(f, rendered, y, x) || Shows(f, canvas, rendered, y, x)
  {
    hide FaceOk, Unknown, Shows;
  }

  lemma FirstColumn(x: nat, b: nat, d: nat)
    requires d > 0 && ColOf(x, d) == 0 && OffOf(x, d) == b
    ensures x == b
  {
  }

  lemma ScrollAt(f: Face, before: seq<Line>, after: seq<Line>, was: seq<seq<Cell>>, now: seq<seq<Cell>>, n: nat,
                 fill: Cell, y: nat, x: nat)
    requires FaceOk(f) && CanvasOk(f, before) && CanvasOk(f, after) && CellsOk(f, was) && CellsOk(f, now)
    requires 0 < n < f.rows
    requires Coherent(f, before, was) && Scrolled(f, was, now, n, fill) && (fill == UNKNOWN || PaperOnly(f, fill))
    requires LinesScrolled(f, before, after, n, fill) && InArea(f, y, x)
    ensures Unknown(f, now, y, x) || Shows(f, after, now, y, x)
  {
    hide FaceOk, RowByte, FillByte, PaperOnly, ColOf, OffOf;
    Sizes(f);
    var moved, blank := (f.rows - n) * f.cellh, n * f.cellh;
    RowsSplit(f, n);
    Inside(y, 0, f.rows - n, f.cellh);
    Inside(y, 0, f.rows, f.cellh);
    Inside(x, 0, f.columns, f.cw);
    if ColOf(y, f.cellh) < f.rows - n {
      ShiftRow(y, n, f.cellh);
      assert InArea(f, y + blank, x);
      assert Unknown(f, was, y + blank, x) || Shows(f, before, was, y + blank, x);
      SameColumn(f, now[ColOf(y, f.cellh)], was[ColOf(y, f.cellh) + n], OffOf(y, f.cellh), x);
    } else if fill != UNKNOWN {
      FillShows(f, now[ColOf(y, f.cellh)], fill, OffOf(y, f.cellh), x);
    }
  }

  lemma ShiftRow(y: nat, n: nat, d: nat)
    requires d > 0
    ensures ColOf(y + n * d, d) == ColOf(y, d) + n && OffOf(y + n * d, d) == OffOf(y, d)
  {
    var q, o := y / d, y % d;
    assert y + n * d == (q + n) * d + o by { Distribute(q, n, d); }
    DivIs(q + n, o, d);
  }

  /** The rows a flush or redraw covers. */
  function Total(f: Face, cells: seq<seq<Cell>>): (n: nat)
    ensures n <= f.rows && n <= |cells|
  {
    if |cells| > f.rows then f.rows else |cells|
  }

  /** after is before with the cells of the first n rows drawn over it, and nothing else changed. */
  ghost predicate Pictured(f: Face, before: seq<Line>, after: seq<Line>, cells: seq<seq<Cell>>, n: nat)
    requires FaceOk(f) && CanvasOk(f, before) && CanvasOk(f, after) && n <= |cells|
  {
    forall y: nat, x: nat :: y < f.height && x < f.pitch ==> after[y][x] == PictureByte(f, before, cells, n, y, x)
  }

  function PictureByte(f: Face, before: seq<Line>, cells: seq<seq<Cell>>, n: nat, y: nat, x: nat): Byte
    requires FaceOk(f) && CanvasOk(f, before) && n <= |cells| && y < f.height && x < f.pitch
  {
    if ColOf(y, f.cellh) < n && ColOf(x, f.cw) < f.columns
    then RowByte(f, cells[ColOf(y, f.cellh)], OffOf(y, f.cellh), x) else before[y][x]
  }

  /** The display shows the canvas, but for the odd bytes. */
  ghost predicate Presented(f: Face, canvas: seq<Line>, display: seq<Line>, odd: set<(nat, nat)>)
    requires CanvasOk(f, canvas) && CanvasOk(f, display)
  {
    forall y: nat, x: nat :: y < f.height && x < f.pitch ==> display[y][x] == canvas[y][x] || (y, x) in odd
  }

  lemma NowPresented(f: Face, canvas: seq<Line>, display: seq<Line>, odd: set<(nat, nat)>)
    requires CanvasOk(f, canvas) && CanvasOk(f, display)
    requires forall y: nat, x: nat :: y < f.height && x < f.pitch ==> display[y][x] == canvas[y][x] || (y, x) in odd
    ensures Presented(f, canvas, display, odd)
  {
  }

  lemma NonePictured(f: Face, canvas: seq<Line>, cells: seq<seq<Cell>>)
    requires FaceOk(f) && CanvasOk(f, canvas)
    ensures Pictured(f, canvas, canvas, cells, 0)
  {
    hide FaceOk, RowByte;
  }

  lemma OneMore(f: Face, before: seq<Line>, was: seq<Line>, after: seq<Line>, cells: seq<seq<Cell>>, r: nat)
    requires FaceOk(f) && CanvasOk(f, before) && CanvasOk(f, was) && CanvasOk(f, after) && r < |cells|
    requires Pictured(f, before, was, cells, r) && RowPictured(f, was, after, r, cells[r])
    ensures Pictured(f, before, after, cells, r + 1)
  {
    hide FaceOk, RowByte, ColOf, OffOf, PictureByte, DrawnByte;
    forall y: nat, x: nat | y < f.height && x < f.pitch
      ensures after[y][x] == PictureByte(f, before, cells, r + 1, y, x)
    {
      OneMoreAt(f, before, was, cells, r, y, x);
    }
  }

  lemma OneMoreAt(f: Face, before: seq<Line>, was: seq<Line>, cells: seq<seq<Cell>>, r: nat, y: nat, x: nat)
    requires FaceOk(f) && CanvasOk(f, before) && CanvasOk(f, was) && r < |cells| && y < f.height && x < f.pitch
    requires was[y][x] == PictureByte(f, before, cells, r, y, x)
    ensures DrawnByte(f, was, r, cells[r], 0, f.columns, y, x) == PictureByte(f, before, cells, r + 1, y, x)
  {
    hide FaceOk, RowByte, ColOf, OffOf;
  }

  /** The picture is determined by what was there and the cells. */
  lemma OnePicture(f: Face, before: seq<Line>, a: seq<Line>, b: seq<Line>, cells: seq<seq<Cell>>, n: nat)
    requires FaceOk(f) && CanvasOk(f, before) && CanvasOk(f, a) && CanvasOk(f, b) && n <= |cells|
    requires Pictured(f, before, a, cells, n) && Pictured(f, before, b, cells, n)
    ensures a == b
  {
    hide FaceOk, PictureByte;
    forall y: nat | y < f.height
      ensures a[y] == b[y]
    {
      forall x: nat | x < f.pitch
        ensures a[y][x] == b[y][x]
      {
      }
    }
  }

  lemma AllUnknown(f: Face, canvas: seq<Line>, rendered: seq<seq<Cell>>)
    requires FaceOk(f) && CanvasOk(f, canvas) && CellsOk(f, rendered)
    requires forall r, c :: 0 <= r < f.rows && 0 <= c < f.columns ==> rendered[r][c] == UNKNOWN
    ensures Coherent(f, canvas, rendered)
  {
    hide FaceOk, RowByte, ColOf, OffOf;
  }

  /** Column c lies before the first or after the last cell that differs, where a flush draws nothing. */
  ghost predicate Skipped(cur: seq<Cell>, rend: seq<Cell>, c: nat)
    requires c < |cur| == |rend|
  {
    (forall k :: 0 <= k <= c ==> cur[k] == rend[k]) || (forall k :: c <= k < |cur| ==> cur[k] == rend[k])
  }

  lemma SpanIsChanged(cur: seq<Cell>, rend: seq<Cell>, min: nat, max: nat, c: nat)
    requires |cur| == |rend| && min <= max < |cur| && c < |cur| && cur[min] != rend[min] && cur[max] != rend[max]
    requires forall k :: 0 <= k < min || max < k < |cur| ==> cur[k] == rend[k]
    ensures Skipped(cur, rend, c) <==> !(min <= c <= max)
  {
  }

  /** after is before with the changed span of a row drawn, and nothing else changed. */
  ghost predicate RowFlushed(f: Face, before: seq<Line>, after: seq<Line>, row: nat, cur: seq<Cell>, rend: seq<Cell>)
    requires FaceOk(f) && CanvasOk(f, before) && CanvasOk(f, after) && |cur| == |rend| == f.columns
  {
    forall y: nat, x: nat :: y < f.height && x < f.pitch ==>
        after[y][x] == RowFlushByte(f, before, row, cur, rend, y, x)
  }

  ghost function RowFlushByte(f: Face, before: seq<Line>, row: nat, cur: seq<Cell>, rend: seq<Cell>, y: nat,
                              x: nat): Byte
    requires FaceOk(f) && CanvasOk(f, before) && |cur| == |rend| == f.columns && y < f.height && x < f.pitch
  {
    if ColOf(y, f.cellh) == row && ColOf(x, f.cw) < f.columns && !Skipped(cur, rend, ColOf(x, f.cw))
    then RowByte(f, cur, OffOf(y, f.cellh), x) else before[y][x]
  }

  lemma NothingFlushed(f: Face, canvas: seq<Line>, row: nat, cur: seq<Cell>)
    requires FaceOk(f) && CanvasOk(f, canvas) && |cur| == f.columns
    ensures RowFlushed(f, canvas, canvas, row, cur, cur)
  {
    hide FaceOk, RowByte, ColOf, OffOf;
  }

  lemma SpanFlushed(f: Face, before: seq<Line>, after: seq<Line>, row: nat, cur: seq<Cell>, rend: seq<Cell>, min: nat,
                    max: nat)
    requires FaceOk(f) && CanvasOk(f, before) && CanvasOk(f, after) && |cur| == |rend| == f.columns
    requires min <= max < |cur| && cur[min] != rend[min] && cur[max] != rend[max]
    requires forall k :: 0 <= k < min || max < k < |cur| ==> cur[k] == rend[k]
    requires Drawn(f, before, after, row, cur, min, max + 1)
    ensures RowFlushed(f, before, after, row, cur, rend)
  {
    hide FaceOk, RowByte, ColOf, OffOf, Skipped;
    Sizes(f);
    forall y: nat, x: nat | y < f.height && x < f.pitch
      ensures after[y][x] == RowFlushByte(f, before, row, cur, rend, y, x)
    {
      assert after[y][x] == DrawnByte(f, before, row, cur, min, max + 1, y, x);
      if ColOf(x, f.cw) < f.columns {
        SpanIsChanged(cur, rend, min, max, ColOf(x, f.cw));
      }
    }
  }

  /** after is before with the changed spans of the first n rows drawn, and nothing else changed. */
  ghost predicate Flushed(f: Face, before: seq<Line>, after: seq<Line>, cells: seq<seq<Cell>>, rend: seq<seq<Cell>>,
                          n: nat)
    requires FaceOk(f) && CanvasOk(f, before) && CanvasOk(f, after) && RowsOk(f, cells, n) && CellsOk(f, rend)
  {
    forall y: nat, x: nat :: y < f.height && x < f.pitch ==> after[y][x] == FlushByte(f, before, cells, rend, n, y, x)
  }

  predicate RowsOk(f: Face, cells: seq<seq<Cell>>, n: nat) {
    n <= |cells| && n <= f.rows && forall r :: 0 <= r < n ==> |cells[r]| == f.columns
  }

  ghost function FlushByte(f: Face, before: seq<Line>, cells: seq<seq<Cell>>, rend: seq<seq<Cell>>, n: nat, y: nat,
                           x: nat): Byte
    requires FaceOk(f) && CanvasOk(f, before) && RowsOk(f, cells, n) && CellsOk(f, rend) && y < f.height && x < f.pitch
  {
    var r, c := ColOf(y, f.cellh), ColOf(x, f.cw);
    if r < n && c < f.columns && !Skipped(cells[r], rend[r], c) then RowByte(f, cells[r], OffOf(y, f.cellh), x)
        else before[y][x]
  }

  lemma NoneFlushed(f: Face, canvas: seq<Line>, cells: seq<seq<Cell>>, rend: seq<seq<Cell>>)
    requires FaceOk(f) && CanvasOk(f, canvas) && CellsOk(f, rend)
    ensures Flushed(f, canvas, canvas, cells, rend, 0)
  {
    hide FaceOk, RowByte;
  }

  lemma FlushedNext(f: Face, before: seq<Line>, was: seq<Line>, after: seq<Line>, cells: seq<seq<Cell>>,
                    rend: seq<seq<Cell>>, r: nat)
    requires FaceOk(f) && CanvasOk(f, before) && CanvasOk(f, was) && CanvasOk(f, after) && RowsOk(f, cells, r + 1)
    requires CellsOk(f, rend)
    requires Flushed(f, before, was, cells, rend, r) && RowFlushed(f, was, after, r, cells[r], rend[r])
    ensures Flushed(f, before, after, cells, rend, r + 1)
  {
    hide FaceOk, RowByte, ColOf, OffOf, FlushByte, RowFlushByte;
    forall y: nat, x: nat | y < f.height && x < f.pitch
      ensures after[y][x] == FlushByte(f, before, cells, rend, r + 1, y, x)
    {
      FlushedNextAt(f, before, was, cells, rend, r, y, x);
    }
  }

  lemma FlushedNextAt(f: Face, before: seq<Line>, was: seq<Line>, cells: seq<seq<Cell>>, rend: seq<seq<Cell>>, r: nat,
                      y: nat, x: nat)
    requires FaceOk(f) && CanvasOk(f, before) && CanvasOk(f, was) && RowsOk(f, cells, r + 1) && CellsOk(f, rend)
    requires y < f.height && x < f.pitch && was[y][x] == FlushByte(f, before, cells, rend, r, y, x)
    ensures RowFlushByte(f, was, r, cells[r], rend[r], y, x) == FlushByte(f, before, cells, rend, r + 1, y, x)
  {
    hide FaceOk, RowByte, ColOf, OffOf, Skipped;
    Sizes(f);
  }

  /**
   (y, x) lies in a cell that the flush leaves out and that the cache knows nothing
   about; the cell is then 0xffff.
   */
  ghost predicate Missed(f: Face, cells: seq<seq<Cell>>, rend: seq<seq<Cell>>, n: nat, y: nat, x: nat)
    requires FaceOk(f) && RowsOk(f, cells, n) && CellsOk(f, rend)
  {
    && InArea(f, y, x) && ColOf(y, f.cellh) < n && Unknown(f, rend, y, x)
    && Skipped(cells[ColOf(y, f.cellh)], rend[ColOf(y, f.cellh)], ColOf(x, f.cw))
  }

  /** What the flush misses is on the canvas already. */
  ghost predicate AllShown(f: Face, canvas: seq<Line>, cells: seq<seq<Cell>>, rend: seq<seq<Cell>>, n: nat)
    requires FaceOk(f) && CanvasOk(f, canvas) && RowsOk(f, cells, n) && CellsOk(f, rend)
  {
    forall y: nat, x: nat :: Missed(f, cells, rend, n, y, x) ==> Shows(f, canvas, cells, y, x)
  }

  lemma FlushPictures(f: Face, before: seq<Line>, after: seq<Line>, cells: seq<seq<Cell>>, rend: seq<seq<Cell>>, n: nat)
    requires FaceOk(f) && CanvasOk(f, before) && CanvasOk(f, after) && RowsOk(f, cells, n) && CellsOk(f, rend)
    requires Coherent(f, before, rend) && Flushed(f, before, after, cells, rend, n)
    ensures Pictured(f, before, after, cells, n) <==> AllShown(f, before, cells, rend, n)
  {
    hide FaceOk, RowByte, ColOf, OffOf, FlushByte, PictureByte, Skipped, Shows, Unknown, Coherent;
    Sizes(f);
    if AllShown(f, before, cells, rend, n) {
      forall y: nat, x: nat | y < f.height && x < f.pitch
        ensures after[y][x] == PictureByte(f, before, cells, n, y, x)
      {
        FlushPicturesAt(f, before, cells, rend, n, y, x);
      }
    }
    if Pictured(f, before, after, cells, n) {
      forall y: nat, x: nat | Missed(f, cells, rend, n, y, x)
        ensures Shows(f, before, cells, y, x)
      {
        FlushPicturesAt(f, before, cells, rend, n, y, x);
        assert after[y][x] == PictureByte(f, before, cells, n, y, x);
      }
    }
  }

  lemma FlushPicturesAt(f: Face, before: seq<Line>, cells: seq<seq<Cell>>, rend: seq<seq<Cell>>, n: nat, y: nat, x: nat)
    requires FaceOk(f) && CanvasOk(f, before) && RowsOk(f, cells, n) && CellsOk(f, rend)
    requires Coherent(f, before, rend) && y < f.height && x < f.pitch
    ensures FlushByte(f, before, cells, rend, n, y, x) == PictureByte(f, before, cells, n, y, x) <==>
            (Missed(f, cells, rend, n, y, x) ==> Shows(f, before, cells, y, x))
  {
    hide FaceOk, RowByte, ColOf, OffOf, Skipped;
    Sizes(f);
    var r, c := ColOf(y, f.cellh), ColOf(x, f.cw);
    if r < n && c < f.columns {
      assert InArea(f, y, x);
      assert Unknown(f, rend, y, x) || Shows(f, before, rend, y, x);
      if Skipped(cells[r], rend[r], c) {
        SkippedSame(cells[r], rend[r], c);
        SameColumn(f, cells[r], rend[r], OffOf(y, f.cellh), x);
      }
    }
  }

  lemma SkippedSame(cur: seq<Cell>, rend: seq<Cell>, c: nat)
    requires c < |cur| == |rend| && Skipped(cur, rend, c)
    ensures cur[c] == rend[c]
  {
  }

  /** A flush leaves the same canvas as a full redraw if and only if what it misses is on the canvas already. */
  lemma FlushIsRedraw(f: Face, before: seq<Line>, flushed: seq<Line>, redrawn: seq<Line>, cells: seq<seq<Cell>>,
                      rend: seq<seq<Cell>>, n: nat)
    requires FaceOk(f) && CanvasOk(f, before) && CanvasOk(f, flushed) && CanvasOk(f, redrawn)
    requires RowsOk(f, cells, n) && CellsOk(f, rend) && Coherent(f, before, rend)
    requires Flushed(f, before, flushed, cells, rend, n) && Pictured(f, before, redrawn, cells, n)
    ensures flushed == redrawn <==> AllShown(f, before, cells, rend, n)
  {
    hide FaceOk, Coherent, Flushed, Pictured, AllShown;
    FlushPictures(f, before, flushed, cells, rend, n);
    if Pictured(f, before, flushed, cells, n) {
      OnePicture(f, before, flushed, redrawn, cells, n);
    }
  }

  /** With no 0xffff cell in what is to be shown, nothing is missed. */
  lemma NoneMissed(f: Face, canvas: seq<Line>, cells: seq<seq<Cell>>, rend: seq<seq<Cell>>, n: nat)
    requires FaceOk(f) && CanvasOk(f, canvas) && RowsOk(f, cells, n) && CellsOk(f, rend)
    requires forall r, c :: 0 <= r < n && 0 <= c < f.columns ==> cells[r][c] != UNKNOWN
    ensures AllShown(f, canvas, cells, rend, n)
  {
    hide FaceOk, RowByte, ColOf, OffOf, Skipped;
    Sizes(f);
    forall y: nat, x: nat | InArea(f, y, x)
      ensures !Missed(f, cells, rend, n, y, x)
    {
      var r, c := ColOf(y, f.cellh), ColOf(x, f.cw);
      if r < n && Skipped(cells[r], rend[r], c) {
        SkippedSame(cells[r], rend[r], c);
      }
    }
  }

  /** flush's two loops over a row that changed. */
  method FirstChange(cur: seq<Cell>, rend: seq<Cell>) returns (min: nat)
    requires |cur| == |rend| && cur != rend
    ensures min < |cur| && cur[min] != rend[min] && forall c :: 0 <= c < min ==> cur[c] == rend[c]
  {
    min := 0;
    while min < |cur| && cur[min] == rend[min]
      invariant min <= |cur| && forall c :: 0 <= c < min ==> cur[c] == rend[c]
    {
      min := min + 1;
    }
  }

  method LastChange(cur: seq<Cell>, rend: seq<Cell>, min: nat) returns (max: nat)
    requires |cur| == |rend| && min < |cur|
    ensures min <= max < |cur| && forall c :: max < c < |cur| ==> cur[c] == rend[c]
    ensures max == min || cur[max] != rend[max]
  {
    max := |cur| - 1;
    while max > min && cur[max] == rend[max]
      invariant min <= max < |cur| && forall c :: max < c < |cur| ==> cur[c] == rend[c]
    {
      max := max - 1;
    }
  }

  /** after is before with a whole row of cells drawn, and nothing else changed. */
  ghost predicate RowPictured(f: Face, before: seq<Line>, after: seq<Line>, row: nat, cells: seq<Cell>)
    requires FaceOk(f) && CanvasOk(f, before) && CanvasOk(f, after)
  {
    Drawn(f, before, after, row, cells, 0, f.columns)
  }

  lemma Wide(f: Face)
    requires FaceOk(f)
    ensures f.columns > 0
  {
  }

  lemma NotDrawn(f: Face, canvas: seq<Line>, row: nat, cells: seq<Cell>)
    requires FaceOk(f) && CanvasOk(f, canvas)
    ensures Drawn(f, canvas, canvas, row, cells, 0, 0)
  {
    hide FaceOk, RowByte;
  }

  /** A byte of a row shows the cell in its column. */
  lemma SameColumn(f: Face, a: seq<Cell>, b: seq<Cell>, gy: nat, x: nat)
    requires FaceOk(f) && gy < f.cellh && ColOf(x, f.cw) < |a| && ColOf(x, f.cw) < |b|
    requires a[ColOf(x, f.cw)] == b[ColOf(x, f.cw)]
    ensures RowByte(f, a, gy, x) == RowByte(f, b, gy, x)
  {
  }

  /** Drawing the changed span of a row brings the whole row up to date. */
  lemma RowDone(f: Face, before: seq<Line>, after: seq<Line>, rendered: seq<seq<Cell>>, r: nat, cur: seq<Cell>,
                c0: nat, c1: nat)
    requires FaceOk(f) && CanvasOk(f, before) && CanvasOk(f, after) && CellsOk(f, rendered)
    requires Coherent(f, before, rendered)
    requires r < f.rows && |cur| == f.columns && c0 <= c1 <= f.columns && Drawn(f, before, after, r, cur, c0, c1)
    requires forall c :: 0 <= c < f.columns && !(c0 <= c < c1) ==> cur[c] == rendered[r][c]
    ensures CellsOk(f, rendered[r := cur]) && Coherent(f, after, rendered[r := cur])
    ensures c0 == 0 && c1 == f.columns ==> RowPictured(f, before, after, r, cur)
  {
    hide FaceOk, RowByte, DrawnByte;
    Sizes(f);
    forall y: nat, x: nat | y < f.height && x < f.pitch
      ensures InArea(f, y, x) ==> Unknown(f, rendered[r := cur], y, x) || Shows(f, after, rendered[r := cur], y, x)
    {
      RowDoneAt(f, before, after, rendered, r, cur, c0, c1, y, x);
    }
  }

  lemma RowDoneAt(f: Face, before: seq<Line>, after: seq<Line>, rendered: seq<seq<Cell>>, r: nat, cur: seq<Cell>,
                  c0: nat, c1: nat, y: nat, x: nat)
    requires FaceOk(f) && CanvasOk(f, before) && CanvasOk(f, after) && CellsOk(f, rendered)
    requires Coherent(f, before, rendered)
    requires r < f.rows && |cur| == f.columns && c0 <= c1 <= f.columns && Drawn(f, before, after, r, cur, c0, c1)
    requires forall c :: 0 <= c < f.columns && !(c0 <= c < c1) ==> cur[c] == rendered[r][c]
    requires y < f.height && x < f.pitch && f.cellh > 0 && f.cw > 0
    ensures InArea(f, y, x) ==> Unknown(f, rendered[r := cur], y, x) || Shows(f, after, rendered[r := cur], y, x)
  {
    hide FaceOk, RowByte, ColOf, OffOf;
    if ColOf(y, f.cellh) == r && ColOf(x, f.cw) < f.columns {
      assert InArea(f, y, x);
      assert Unknown(f, rendered, y, x) || Shows(f, before, rendered, y, x);
      if !(c0 <= ColOf(x, f.cw) < c1) {
        SameColumn(f, cur, rendered[r], OffOf(y, f.cellh), x);
      }
    } else if InArea(f, y, x) {
      assert Unknown(f, rendered, y, x) || Shows(f, before, rendered, y, x);
    }
  }

  /** after is before with cells [c0, c1) of a row drawn. */
  ghost predicate Drawn(f: Face, before: seq<Line>, after: seq<Line>, row: nat, cells: seq<Cell>, c0: nat, c1: nat)
    requires FaceOk(f) && CanvasOk(f, before) && CanvasOk(f, after)
  {
    forall y: nat, x: nat :: y < f.height && x < f.pitch ==>
        after[y][x] == DrawnByte(f, before, row, cells, c0, c1, y, x)
  }

  function DrawnByte(f: Face, before: seq<Line>, row: nat, cells: seq<Cell>, c0: nat, c1: nat, y: nat, x: nat): Byte
    requires FaceOk(f) && CanvasOk(f, before) && y < f.height && x < f.pitch
  {
    if ColOf(y, f.cellh) == row && c0 <= ColOf(x, f.cw) < c1 then RowByte(f, cells, OffOf(y, f.cellh), x)
        else before[y][x]
  }

  lemma RowFits(f: Face, row: nat)
    requires FaceOk(f) && row < f.rows
    ensures row * f.cellh + f.cellh <= f.height
  {
    MulMono(row + 1, f.rows, f.cellh);
  }

  lemma BoxIsDrawn(f: Face, before: seq<Line>, after: seq<Line>, row: nat, cells: seq<Cell>, c0: nat, c1: nat)
    requires FaceOk(f) && CanvasOk(f, before) && CanvasOk(f, after) && row < f.rows
    requires forall y: nat, x: nat :: y < f.height && x < f.pitch ==>
      after[y][x] == if InBox(y, x, row * f.cellh, row * f.cellh + f.cellh, c0 * f.cw, c1 * f.cw)
          then RowByte(f, cells, y - row * f.cellh, x) else before[y][x]
    ensures Drawn(f, before, after, row, cells, c0, c1)
  {
    hide FaceOk, RowByte;
    Sizes(f);
    forall y: nat, x: nat | y < f.height && x < f.pitch
      ensures after[y][x] == DrawnByte(f, before, row, cells, c0, c1, y, x)
    {
      InRow(y, row, f.cellh);
      Inside(x, c0, c1, f.cw);
    }
  }

  lemma InRow(y: nat, row: nat, d: nat)
    requires d > 0
    ensures row * d <= y < row * d + d <==> ColOf(y, d) == row
    ensures ColOf(y, d) == row ==> OffOf(y, d) == y - row * d
  {
    Inside(y, row, row + 1, d);
    assert (row + 1) * d == row * d + d;
    if ColOf(y, d) == row {
      DivIs(row, y - row * d, d);
    }
  }

  /** Changing the canvas inside a box and marking the box dirty keeps every difference covered. */
  lemma StillCovered(f: Face, c0: seq<Line>, c1: seq<Line>, display: seq<Line>, lo0: seq<nat>, hi0: seq<nat>,
                     lo: seq<nat>, hi: seq<nat>,
                     odd: set<(nat, nat)>, y0: nat, y1: nat, x0: nat, x1: nat)
    requires CanvasOk(f, c0) && CanvasOk(f, c1) && CanvasOk(f, display) && |lo0| == |hi0| == |lo| == |hi| == f.height
    requires Covered(f, c0, display, lo0, hi0, odd)
    requires forall y: nat, x: nat :: y < f.height && x < f.pitch && !InBox(y, x, y0, y1, x0, x1) ==>
        c1[y][x] == c0[y][x]
    requires forall y: nat, x: nat ::
      y < f.height && x < f.pitch && (IsDirty(lo0, hi0, y, x) || InBox(y, x, y0, y1, x0, x1)) ==> IsDirty(lo, hi, y, x)
    ensures Covered(f, c1, display, lo, hi, odd)
  {
    hide IsDirty;
    forall y: nat, x: nat | y < f.height && x < f.pitch
      ensures display[y][x] == c1[y][x] || IsDirty(lo, hi, y, x) || (y, x) in odd
    {
      assert display[y][x] == c0[y][x] || IsDirty(lo0, hi0, y, x) || (y, x) in odd;
    }
  }

  /** A box that is the whole screen covers every byte. */
  lemma AllDirty(f: Face, canvas: seq<Line>, display: seq<Line>, lo0: seq<nat>, hi0: seq<nat>, lo: seq<nat>,
                 hi: seq<nat>)
    requires CanvasOk(f, canvas) && CanvasOk(f, display) && |lo0| == |hi0| == |lo| == |hi| == f.height
    requires forall y: nat, x: nat :: y < f.height && x < f.pitch ==>
        IsDirty(lo0, hi0, y, x) || InBox(y, x, 0, f.height, 0, f.pitch) ==> IsDirty(lo, hi, y, x)
    ensures Covered(f, canvas, display, lo, hi, {})
  {
    hide IsDirty;
    forall y: nat, x: nat | y < f.height && x < f.pitch
      ensures IsDirty(lo, hi, y, x)
    {
      assert InBox(y, x, 0, f.height, 0, f.pitch);
    }
  }

  /** Colour 15, the ink and the paper of 0xffff, is black. */
  predicate WhiteIsBlack(f: Face)
    requires FaceOk(f)
  {
    forall k :: 0 <= k < f.bpp ==> ColourByte(f.palette[15], k) == 0
  }

  predicate BlackGlyph(f: Face)
    requires FaceOk(f)
  {
    forall gy: nat, b: nat :: gy < f.cellh && b < f.cw ==> GlyphByte(f, UNKNOWN, gy, b) == 0
  }

  /**
   A row of 0xffff cells is missed at its edges: there is a missed cell exactly if the
   first or the last is 0xffff.
   */
  predicate EdgesKnown(f: Face, cells: seq<seq<Cell>>, n: nat)
    requires RowsOk(f, cells, n) && f.columns > 0
  {
    forall r :: 0 <= r < n ==> cells[r][0] != UNKNOWN && cells[r][f.columns - 1] != UNKNOWN
  }

  /** The first byte of row r, and of column c. */
  lemma CellByte(f: Face, r: nat, c: nat, gy: nat, b: nat) returns (y: nat, x: nat)
    requires FaceOk(f) && r < f.rows && c < f.columns && gy < f.cellh && b < f.cw
    ensures InArea(f, y, x) && ColOf(y, f.cellh) == r && OffOf(y, f.cellh) == gy && ColOf(x, f.cw) == c
    ensures OffOf(x, f.cw) == b
  {
    hide FaceOk;
    Sizes(f);
    y, x := r * f.cellh + gy, c * f.cw + b;
    DivIs(r, gy, f.cellh);
    DivIs(c, b, f.cw);
    Inside(y, 0, f.rows, f.cellh);
    Inside(x, 0, f.columns, f.cw);
  }

  /** A missed 0xffff cell on a black canvas shows only if its glyph is black. */
  lemma MissedIsBlack(f: Face, canvas: seq<Line>, cells: seq<seq<Cell>>, rend: seq<seq<Cell>>, n: nat, r: nat, c: nat)
    requires FaceOk(f) && CanvasOk(f, canvas) && RowsOk(f, cells, n) && CellsOk(f, rend) && Emptied(f, canvas, rend)
    requires AllShown(f, canvas, cells, rend, n) && r < n && c < f.columns && Skipped(cells[r], rend[r], c)
    ensures BlackGlyph(f)
  {
    hide FaceOk, GlyphByte, ColOf, OffOf, Skipped;
    Sizes(f);
    forall gy: nat, b: nat | gy < f.cellh && b < f.cw
      ensures GlyphByte(f, UNKNOWN, gy, b) == 0
    {
      var y, x := CellByte(f, r, c, gy, b);
      SkippedSame(cells[r], rend[r], c);
      assert Missed(f, cells, rend, n, y, x);
    }
  }

  lemma BlackShows(f: Face, canvas: seq<Line>, cells: seq<seq<Cell>>, rend: seq<seq<Cell>>, n: nat, y: nat, x: nat)
    requires FaceOk(f) && CanvasOk(f, canvas) && RowsOk(f, cells, n) && CellsOk(f, rend) && Emptied(f, canvas, rend)
    requires BlackGlyph(f) && Missed(f, cells, rend, n, y, x)
    ensures ColOf(y, f.cellh) < n && Shows(f, canvas, cells, y, x)
  {
    hide FaceOk, GlyphByte, ColOf, OffOf, Skipped;
    Sizes(f);
    SkippedSame(cells[ColOf(y, f.cellh)], rend[ColOf(y, f.cellh)], ColOf(x, f.cw));
  }

  /** In a row the cache knows nothing about, something is missed exactly at an edge that is 0xffff. */
  lemma EdgeSkipped(cur: seq<Cell>, rend: seq<Cell>, c: nat)
    requires c < |cur| == |rend| && forall k :: 0 <= k < |rend| ==> rend[k] == UNKNOWN
    ensures Skipped(cur, rend, c) ==> cur[0] == UNKNOWN || cur[|cur| - 1] == UNKNOWN
    ensures cur[0] == UNKNOWN ==> Skipped(cur, rend, 0)
    ensures cur[|cur| - 1] == UNKNOWN ==> Skipped(cur, rend, |cur| - 1)
  {
  }

  lemma ClearedShown(f: Face, canvas: seq<Line>, cells: seq<seq<Cell>>, rend: seq<seq<Cell>>, n: nat)
    requires FaceOk(f) && CanvasOk(f, canvas) && RowsOk(f, cells, n) && CellsOk(f, rend) && Emptied(f, canvas, rend)
    requires f.columns > 0
    ensures AllShown(f, canvas, cells, rend, n) <==> BlackGlyph(f) || EdgesKnown(f, cells, n)
  {
    hide FaceOk, GlyphByte, ColOf, OffOf, Skipped, BlackGlyph, Shows;
    Sizes(f);
    if AllShown(f, canvas, cells, rend, n) && !EdgesKnown(f, cells, n) {
      var r :| 0 <= r < n && (cells[r][0] == UNKNOWN || cells[r][f.columns - 1] == UNKNOWN);
      EdgeSkipped(cells[r], rend[r], 0);
      MissedIsBlack(f, canvas, cells, rend, n, r, if cells[r][0] == UNKNOWN then 0 else f.columns - 1);
    }
    if BlackGlyph(f) || EdgesKnown(f, cells, n) {
      forall y: nat, x: nat | Missed(f, cells, rend, n, y, x)
        ensures Shows(f, canvas, cells, y, x)
      {
        var r := ColOf(y, f.cellh);
        EdgeSkipped(cells[r], rend[r], ColOf(x, f.cw));
        BlackShows(f, canvas, cells, rend, n, y, x);
      }
    }
  }

  /** Whatever its glyph, 0xffff is drawn in colour 15 all over. */
  lemma UnknownIsWhite(f: Face)
    requires FaceOk(f)
    ensures BlackGlyph(f) <==> WhiteIsBlack(f)
  {
    hide Inked, ColourByte;
    assert Ink(UNKNOWN) == Paper(UNKNOWN) == 15;
    if WhiteIsBlack(f) {
      forall gy: nat, b: nat | gy < f.cellh && b < f.cw
        ensures GlyphByte(f, UNKNOWN, gy, b) == 0
      {
        assert 0 <= b % f.bpp < f.bpp;
      }
    }
    if BlackGlyph(f) {
      First(f);
      MulMono(1, f.cellw, f.bpp);
      forall k | 0 <= k < f.bpp
        ensures ColourByte(f.palette[15], k) == 0
      {
        assert GlyphByte(f, UNKNOWN, 0, k) == 0 && k % f.bpp == k;
      }
    }
  }

  /**
   After a clear, 0xffff cells are taken for drawn. A flush then leaves what a
   redraw would leave if and only if colour 15 is black or no row to be shown
   begins or ends with a 0xffff cell.
   */
  lemma UnknownNotDrawn(f: Face, before: seq<Line>, flushed: seq<Line>, redrawn: seq<Line>, cells: seq<seq<Cell>>,
                        rend: seq<seq<Cell>>, n: nat)
    requires FaceOk(f) && CanvasOk(f, before) && CanvasOk(f, flushed) && CanvasOk(f, redrawn)
    requires RowsOk(f, cells, n) && CellsOk(f, rend) && Emptied(f, before, rend)
    requires Flushed(f, before, flushed, cells, rend, n) && Pictured(f, before, redrawn, cells, n)
    ensures f.columns > 0 && (flushed == redrawn <==> WhiteIsBlack(f) || EdgesKnown(f, cells, n))
  {
    hide FaceOk, Flushed, Pictured, AllShown, BlackGlyph, WhiteIsBlack, EdgesKnown;
    First(f);
    AllUnknown(f, before, rend);
    FlushIsRedraw(f, before, flushed, redrawn, cells, rend, n);
    ClearedShown(f, before, cells, rend, n);
    UnknownIsWhite(f);
  }

  /** vga_palette. */
  const VGA_PALETTE: seq<nat> :=
    [0x00_0000, 0x00_00aa, 0x00_aa00, 0x00_aaaa, 0xaa_0000, 0xaa_00aa, 0xaa_5500, 0xaa_aaaa,
     0x55_5555, 0x55_55ff, 0x55_ff55, 0x55_ffff, 0xff_5555, 0xff_55ff, 0xff_ff55, 0xff_ffff]

  /** With the palette of the 24 and 32 bit modes colour 15 is white, so the edges alone decide. */
  lemma VgaNotDrawn(f: Face, before: seq<Line>, flushed: seq<Line>, redrawn: seq<Line>, cells: seq<seq<Cell>>,
                    rend: seq<seq<Cell>>, n: nat)
    requires FaceOk(f) && CanvasOk(f, before) && CanvasOk(f, flushed) && CanvasOk(f, redrawn)
    requires f.palette == VGA_PALETTE
    requires RowsOk(f, cells, n) && CellsOk(f, rend) && Emptied(f, before, rend)
    requires Flushed(f, before, flushed, cells, rend, n) && Pictured(f, before, redrawn, cells, n)
    ensures f.columns > 0 && (flushed == redrawn <==> EdgesKnown(f, cells, n))
  {
    hide Flushed, Pictured, Emptied, EdgesKnown;
    UnknownNotDrawn(f, before, flushed, redrawn, cells, rend, n);
    assert ColourByte(f.palette[15], 0) == 0xff;
  }

  /** A screen of one cell, eight pixels in one line. */
  const ONE_CELL: Face := Face(1, 1, 8, 1, 4, 32, 32, 32, 1, seq(256, _ => [[0]]), VGA_PALETTE)

  /** On it a 0xffff cell that is flushed after a clear stays black, and one that is redrawn is white. */
  lemma WhiteCellStaysBlack() returns (black: seq<Line>, white: seq<Line>)
    ensures FaceOk(ONE_CELL) && CanvasOk(ONE_CELL, black) && CanvasOk(ONE_CELL, white)
    ensures Emptied(ONE_CELL, black, [[UNKNOWN]]) && black[0][0] == 0 && white[0][0] == 0xff
    ensures Flushed(ONE_CELL, black, black, [[UNKNOWN]], [[UNKNOWN]], 1)
    ensures Pictured(ONE_CELL, black, white, [[UNKNOWN]], 1)
  {
    black := [Zeros(32)];
    white := [seq(32, x => if x % 4 == 3 then 0 else 0xff)];
    assert Ink(UNKNOWN) == Paper(UNKNOWN) == 15;
    forall x: nat | x < 32
      ensures RowByte(ONE_CELL, [UNKNOWN], 0, x) == white[0][x]
    {
      hide Inked;
      assert ColourByte(0xff_ffff, x % 4) == if x % 4 == 3 then 0 else 0xff;
    }
  }

  lemma First(f: Face)
    requires FaceOk(f)
    ensures f.cellh <= f.height && f.cw <= f.pitch && f.rows > 0 && f.columns > 0
  {
    MulMono(1, f.rows, f.cellh);
    MulMono(1, f.columns, f.cw);
  }
}
