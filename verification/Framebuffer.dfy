/**
 Pictures of a character grid. A framebuffer is a row-major block of 32-bit pixels, `stride`
 pixels per line; each cell of the grid covers 9x16 pixels, an 8x16 glyph and a blank column.
 */
module Framebuffer {
  import opened Terminal

  const GLYPH_WIDTH: nat := 8
  const GLYPH_HEIGHT: nat := 16
  const CELL_WIDTH: nat := 9
  const CELL_HEIGHT: nat := 16

  datatype Geometry = Geometry(width: nat, height: nat, stride: nat, bpp: nat)

  /** A font gives each character sixteen rows of eight bits; the space is blank. */
  datatype Style = Style(font: bv8 -> seq<bv8>, fg: bv32, bg: bv32)

  ghost predicate WfGeometry(g: Geometry) {
    0 < g.width <= g.stride && 0 < g.height
  }

  ghost predicate WfFont(font: bv8 -> seq<bv8>) {
    && (forall c :: |font(c)| == GLYPH_HEIGHT)
    && (forall i :: 0 <= i < GLYPH_HEIGHT ==> font(BLANK)[i] == 0)
  }

  function Cols(g: Geometry): nat { g.width / CELL_WIDTH }
  function Rows(g: Geometry): nat { g.height / CELL_HEIGHT }

  // ---- Points ----

  predicate InBuffer(g: Geometry, x: int, y: int) {
    0 <= x < g.stride && 0 <= y < g.height
  }

  /** The part of the screen that the grid covers. */
  predicate InGrid(g: Geometry, x: int, y: int) {
    0 <= x < Cols(g) * CELL_WIDTH && 0 <= y < Rows(g) * CELL_HEIGHT
  }

  ghost predicate WfPixels(g: Geometry, p: seq<bv32>) {
    |p| == Index(g.stride, 0, g.height)
  }

  /** Every point of the buffer has an index of its own. */
  lemma PointsDistinct(g: Geometry)
    ensures forall x: nat, y: nat {:trigger Index(g.stride, x, y)} ::
      InBuffer(g, x, y) ==> Index(g.stride, x, y) < Index(g.stride, 0, g.height)
    ensures forall x: nat, y: nat, x': nat, y': nat {:trigger Index(g.stride, x, y), Index(g.stride, x', y')} ::
      InBuffer(g, x, y) && InBuffer(g, x', y') && Index(g.stride, x, y) == Index(g.stride, x', y') ==>
        x == x' && y == y'
  {
    forall x: nat, y: nat | InBuffer(g, x, y) ensures Index(g.stride, x, y) < Index(g.stride, 0, g.height) {
      IndexInRange(g.stride, g.height, x, y);
    }
    forall x: nat, y: nat, x': nat, y': nat |
      InBuffer(g, x, y) && InBuffer(g, x', y') && Index(g.stride, x, y) == Index(g.stride, x', y')
      ensures x == x' && y == y'
    {
      IndexInjective(g.stride, x, y, x', y');
    }
  }

  /** The pixel of a point; points outside the buffer have none. */
  function At(g: Geometry, p: seq<bv32>, x: nat, y: nat): bv32 {
    if Index(g.stride, x, y) < |p| then p[Index(g.stride, x, y)] else 0
  }

  /** Writing one pixel changes one point. */
  lemma WritePoint(g: Geometry, p: seq<bv32>, x: nat, y: nat, v: bv32)
    requires WfPixels(g, p) && InBuffer(g, x, y)
    ensures Index(g.stride, x, y) < |p|
    ensures forall x': nat, y': nat
      {:trigger At(g, p, x', y')} {:trigger At(g, p[Index(g.stride, x, y) := v], x', y')} ::
      InBuffer(g, x', y') ==>
        At(g, p[Index(g.stride, x, y) := v], x', y') == if x' == x && y' == y then v else At(g, p, x', y')
  {
    PointsDistinct(g);
    hide Index;
  }

  // ---- Drawing ----

  predicate Lit(bits: bv8, dx: nat)
    requires dx < GLYPH_WIDTH
  {
    bits & (0x80 >> dx) != 0
  }

  /** Pixel (dx, dy) of the picture of character `c`. */
  function CellPixel(st: Style, c: bv8, dx: nat, dy: nat): bv32 {
    if dx < GLYPH_WIDTH && dy < |st.font(c)| && Lit(st.font(c)[dy], dx) then st.fg else st.bg
  }

  /** `b` is `a` with the rectangle filled. */
  ghost predicate RectFilled(g: Geometry, a: seq<bv32>, b: seq<bv32>, x0: nat, y0: nat, w: nat, h: nat, color: bv32) {
    WfPixels(g, a) && WfPixels(g, b) &&
    forall x: nat, y: nat {:trigger At(g, b, x, y)} :: InBuffer(g, x, y) ==>
      At(g, b, x, y) == if x0 <= x < x0 + w && y0 <= y < y0 + h then color else At(g, a, x, y)
  }

  /** `b` is `a` with the first `w` columns and `h` rows of a glyph drawn at (x0, y0). */
  ghost predicate GlyphDrawn(g: Geometry, st: Style, a: seq<bv32>, b: seq<bv32>, c: bv8,
                             x0: nat, y0: nat, w: nat, h: nat)
  {
    WfPixels(g, a) && WfPixels(g, b) &&
    forall x: nat, y: nat {:trigger At(g, b, x, y)} :: InBuffer(g, x, y) ==>
      At(g, b, x, y) ==
        if x0 <= x < x0 + w && y0 <= y < y0 + h then CellPixel(st, c, x - x0, y - y0) else At(g, a, x, y)
  }

  /** `b` is `a` with the whole cell (col, row) showing `c`. */
  ghost predicate CellDrawn(g: Geometry, st: Style, a: seq<bv32>, b: seq<bv32>, c: bv8, col: nat, row: nat) {
    GlyphDrawn(g, st, a, b, c, col * CELL_WIDTH, row * CELL_HEIGHT, CELL_WIDTH, CELL_HEIGHT)
  }

  /** The first `n` lines of the grid moved up by one cell. */
  ghost predicate LinesMoved(g: Geometry, a: seq<bv32>, b: seq<bv32>, n: nat) {
    WfPixels(g, a) && WfPixels(g, b) &&
    forall x: nat, y: nat {:trigger At(g, b, x, y)} :: InBuffer(g, x, y) ==>
      At(g, b, x, y) == if x < Cols(g) * CELL_WIDTH && y < n then At(g, a, x, y + CELL_HEIGHT) else At(g, a, x, y)
  }

  /** A glyph and the blank column behind it make a cell. */
  lemma GlyphAndGap(g: Geometry, st: Style, a: seq<bv32>, b: seq<bv32>, b': seq<bv32>, c: bv8, col: nat, row: nat)
    requires GlyphDrawn(g, st, a, b, c, col * CELL_WIDTH, row * CELL_HEIGHT, GLYPH_WIDTH, GLYPH_HEIGHT)
    requires RectFilled(g, b, b', col * CELL_WIDTH + GLYPH_WIDTH, row * CELL_HEIGHT, 1, CELL_HEIGHT, st.bg)
    ensures CellDrawn(g, st, a, b', c, col, row)
  {
  }

  // ---- Rendering ----

  /** The grid part of the framebuffer shows the cells. */
  ghost predicate Rendered(g: Geometry, st: Style, cells: seq<bv8>, p: seq<bv32>) {
    WfPixels(g, p) && |cells| == Index(Cols(g), 0, Rows(g)) &&
    forall x: nat, y: nat {:trigger At(g, p, x, y)} :: InGrid(g, x, y) ==>
      At(g, p, x, y) == CellPixel(st, CellAt(g, cells, x, y), x % CELL_WIDTH, y % CELL_HEIGHT)
  }

  /** The character whose cell covers the point. */
  function CellAt(g: Geometry, cells: seq<bv8>, x: nat, y: nat): bv8 {
    var i := Index(Cols(g), x / CELL_WIDTH, y / CELL_HEIGHT);
    if i < |cells| then cells[i] else 0
  }

  ghost predicate SameOutside(g: Geometry, a: seq<bv32>, b: seq<bv32>) {
    |a| == |b| &&
    forall x: nat, y: nat {:trigger At(g, b, x, y)} ::
      InBuffer(g, x, y) && !InGrid(g, x, y) ==> At(g, b, x, y) == At(g, a, x, y)
  }

  lemma GridInBuffer(g: Geometry, x: nat, y: nat)
    requires WfGeometry(g) && InGrid(g, x, y)
    ensures InBuffer(g, x, y) && x / CELL_WIDTH < Cols(g) && y / CELL_HEIGHT < Rows(g)
    ensures Index(Cols(g), x / CELL_WIDTH, y / CELL_HEIGHT) < Index(Cols(g), 0, Rows(g))
  {
    IndexInRange(Cols(g), Rows(g), x / CELL_WIDTH, y / CELL_HEIGHT);
    hide Index;
  }

  lemma CellAtUpdated(g: Geometry, cells: seq<bv8>, c: bv8, col: nat, row: nat, x: nat, y: nat)
    requires WfGeometry(g) && InGrid(g, x, y) && col < Cols(g) && row < Rows(g) && |cells| == Index(Cols(g), 0, Rows(g))
    ensures Index(Cols(g), col, row) < |cells|
    ensures CellAt(g, cells[Index(Cols(g), col, row) := c], x, y) ==
      if x / CELL_WIDTH == col && y / CELL_HEIGHT == row then c else CellAt(g, cells, x, y)
  {
    IndexInRange(Cols(g), Rows(g), col, row);
    GridInBuffer(g, x, y);
    if Index(Cols(g), x / CELL_WIDTH, y / CELL_HEIGHT) == Index(Cols(g), col, row) {
      IndexInjective(Cols(g), x / CELL_WIDTH, y / CELL_HEIGHT, col, row);
    }
    hide Index, Cols, Rows;
  }

  /** Drawing a cell draws the character in the grid. */
  lemma DrawRenders(g: Geometry, st: Style, cells: seq<bv8>, a: seq<bv32>, b: seq<bv32>, c: bv8, col: nat, row: nat)
    requires WfGeometry(g) && Rendered(g, st, cells, a) && CellDrawn(g, st, a, b, c, col, row)
    requires col < Cols(g) && row < Rows(g)
    ensures Index(Cols(g), col, row) < |cells|
    ensures Rendered(g, st, cells[Index(Cols(g), col, row) := c], b) && SameOutside(g, a, b)
  {
    IndexInRange(Cols(g), Rows(g), col, row);
    var cells' := cells[Index(Cols(g), col, row) := c];
    hide At, CellPixel, CellAt, Index;
    forall x: nat, y: nat | InGrid(g, x, y)
      ensures At(g, b, x, y) == CellPixel(st, CellAt(g, cells', x, y), x % CELL_WIDTH, y % CELL_HEIGHT)
    {
      GridInBuffer(g, x, y);
      CellAtUpdated(g, cells, c, col, row, x, y);
      assert At(g, a, x, y) == CellPixel(st, CellAt(g, cells, x, y), x % CELL_WIDTH, y % CELL_HEIGHT);
    }
  }

  // ---- The picture of a character ----

  /** Bit 7 of a font row is the leftmost of its eight pixels; the ninth column is blank. */
  predicate Inked(bits: bv8, dx: nat) {
    dx < 8 && (bits >> (7 - dx)) & 1 == 1
  }

  /** The 9x16 pixels of cell (col, row) are the picture of `c`: the set bits of its font rows are foreground,
      everything else is background. */
  ghost predicate Pictured(g: Geometry, st: Style, p: seq<bv32>, col: nat, row: nat, c: bv8) {
    |st.font(c)| == 16 &&
    forall x: nat, y: nat {:trigger At(g, p, x, y)} ::
      col * 9 <= x < col * 9 + 9 && row * 16 <= y < row * 16 + 16 ==>
        At(g, p, x, y) == if Inked(st.font(c)[y - row * 16], x - col * 9) then st.fg else st.bg
  }

  /** `At` is the pixel after `y` lines of `stride` pixels and `x` more. */
  lemma AtPixel(g: Geometry, p: seq<bv32>, x: nat, y: nat)
    requires y * g.stride + x < |p|
    ensures At(g, p, x, y) == p[y * g.stride + x]
  {
  }

  lemma LitInked(bits: bv8, dx: nat)
    requires dx < 8
    ensures Lit(bits, dx) <==> Inked(bits, dx)
  {
    assert dx == 0 || dx == 1 || dx == 2 || dx == 3 || dx == 4 || dx == 5 || dx == 6 || dx == 7;
  }

  lemma InsideCell(g: Geometry, col: nat, row: nat, x: nat, y: nat)
    requires col < Cols(g) && row < Rows(g)
    requires col * 9 <= x < col * 9 + 9 && row * 16 <= y < row * 16 + 16
    ensures InGrid(g, x, y) && x / CELL_WIDTH == col && y / CELL_HEIGHT == row
    ensures x % CELL_WIDTH == x - col * 9 && y % CELL_HEIGHT == y - row * 16
  {
  }

  /** A framebuffer that shows the cells shows each of them as its picture. */
  lemma RenderedPictures(g: Geometry, st: Style, cells: seq<bv8>, p: seq<bv32>, col: nat, row: nat)
    requires WfFont(st.font) && Rendered(g, st, cells, p) && col < Cols(g) && row < Rows(g)
    requires Index(Cols(g), col, row) < |cells|
    ensures Pictured(g, st, p, col, row, cells[Index(Cols(g), col, row)])
  {
    hide At, Index, Inked, Rendered, Cols, Rows, CellPixel, WfFont;
    var c := cells[Index(Cols(g), col, row)];
    FontSize(st, c);
    forall x: nat, y: nat | col * 9 <= x < col * 9 + 9 && row * 16 <= y < row * 16 + 16
      ensures At(g, p, x, y) == if Inked(st.font(c)[y - row * 16], x - col * 9) then st.fg else st.bg
    {
      PicturedPoint(g, st, cells, p, col, row, x, y);
    }
  }

  lemma PicturedPoint(g: Geometry, st: Style, cells: seq<bv8>, p: seq<bv32>, col: nat, row: nat, x: nat, y: nat)
    requires WfFont(st.font) && Rendered(g, st, cells, p) && col < Cols(g) && row < Rows(g)
    requires Index(Cols(g), col, row) < |cells|
    requires col * 9 <= x < col * 9 + 9 && row * 16 <= y < row * 16 + 16
    ensures var c := cells[Index(Cols(g), col, row)];
      && |st.font(c)| == 16
      && At(g, p, x, y) == if Inked(st.font(c)[y - row * 16], x - col * 9) then st.fg else st.bg
  {
    hide At, Index, Inked, Rendered, Cols, Rows, InGrid, CellAt, CellPixel, WfFont;
    FontSize(st, cells[Index(Cols(g), col, row)]);
    InsideCell(g, col, row, x, y);
    RenderedAt(g, st, cells, p, x, y);
    CellAtInside(g, cells, col, row, x, y);
    PixelBits(st, cells[Index(Cols(g), col, row)], x - col * 9, y - row * 16);
  }

  lemma FontSize(st: Style, c: bv8)
    requires WfFont(st.font)
    ensures |st.font(c)| == 16
  {
  }

  lemma CellAtInside(g: Geometry, cells: seq<bv8>, col: nat, row: nat, x: nat, y: nat)
    requires x / CELL_WIDTH == col && y / CELL_HEIGHT == row && Index(Cols(g), col, row) < |cells|
    ensures CellAt(g, cells, x, y) == cells[Index(Cols(g), col, row)]
  {
    hide Index, Cols;
  }

  lemma PixelBits(st: Style, c: bv8, dx: nat, dy: nat)
    requires |st.font(c)| == 16 && dx < 9 && dy < 16
    ensures CellPixel(st, c, dx, dy) == if Inked(st.font(c)[dy], dx) then st.fg else st.bg
  {
    if dx < 8 { LitInked(st.font(c)[dy], dx); }
    hide Lit;
  }

  // ---- Drawing off the grid ----

  ghost predicate SameGrid(g: Geometry, a: seq<bv32>, b: seq<bv32>) {
    |a| == |b| &&
    forall x: nat, y: nat {:trigger At(g, b, x, y)} :: InGrid(g, x, y) ==> At(g, b, x, y) == At(g, a, x, y)
  }

  lemma SameGridRenders(g: Geometry, st: Style, cells: seq<bv8>, a: seq<bv32>, b: seq<bv32>)
    requires Rendered(g, st, cells, a) && SameGrid(g, a, b)
    ensures Rendered(g, st, cells, b)
  {
    hide At, CellPixel, CellAt, Index;
  }

  /** A cell off the grid covers no point of it. */
  lemma OffGrid(g: Geometry, col: nat, row: nat, x: nat, y: nat)
    requires (col >= Cols(g) || row >= Rows(g)) && col * CELL_WIDTH <= x && row * CELL_HEIGHT <= y
    ensures !InGrid(g, x, y)
  {
  }

  lemma GlyphOffGrid(g: Geometry, st: Style, a: seq<bv32>, b: seq<bv32>, c: bv8, col: nat, row: nat, w: nat, h: nat)
    requires WfGeometry(g) && (col >= Cols(g) || row >= Rows(g))
    requires GlyphDrawn(g, st, a, b, c, col * CELL_WIDTH, row * CELL_HEIGHT, w, h)
    ensures SameGrid(g, a, b)
  {
    hide At, CellPixel, Index;
    forall x: nat, y: nat | InGrid(g, x, y) ensures At(g, b, x, y) == At(g, a, x, y) {
      GridInBuffer(g, x, y);
      if col * CELL_WIDTH <= x && row * CELL_HEIGHT <= y { OffGrid(g, col, row, x, y); }
    }
  }

  lemma GapOffGrid(g: Geometry, a: seq<bv32>, b: seq<bv32>, col: nat, row: nat, w: nat, h: nat, color: bv32)
    requires WfGeometry(g) && (col >= Cols(g) || row >= Rows(g))
    requires RectFilled(g, a, b, col * CELL_WIDTH + GLYPH_WIDTH, row * CELL_HEIGHT, w, h, color)
    ensures SameGrid(g, a, b)
  {
    hide At, Index;
    forall x: nat, y: nat | InGrid(g, x, y) ensures At(g, b, x, y) == At(g, a, x, y) {
      GridInBuffer(g, x, y);
      if col * CELL_WIDTH <= x && row * CELL_HEIGHT <= y { OffGrid(g, col, row, x, y); }
    }
  }

  lemma SameGridSelf(g: Geometry, p: seq<bv32>)
    ensures SameGrid(g, p, p)
  {
  }

  lemma CellAtScrolled(g: Geometry, cells: seq<bv8>, x: nat, y: nat)
    requires WfGeometry(g) && InGrid(g, x, y) && |cells| == Index(Cols(g), 0, Rows(g)) && Cols(g) <= |cells|
    ensures CellAt(g, Scrolled(cells, Cols(g)), x, y) ==
      if y + CELL_HEIGHT < Rows(g) * CELL_HEIGHT then CellAt(g, cells, x, y + CELL_HEIGHT) else BLANK
  {
    var cx, cy := x / CELL_WIDTH, y / CELL_HEIGHT;
    GridInBuffer(g, x, y);
    IndexStep(Cols(g), cx, cy);
    IndexStep(Cols(g), 0, cy);
    if y + CELL_HEIGHT < Rows(g) * CELL_HEIGHT {
      GridInBuffer(g, x, y + CELL_HEIGHT);
      assert (y + CELL_HEIGHT) / CELL_HEIGHT == cy + 1;
    } else {
      assert cy + 1 == Rows(g);
    }
    hide Index, Cols, Rows;
  }

  /** A blank cell is all background. */
  lemma BlankPixel(st: Style, dx: nat, dy: nat)
    requires WfFont(st.font)
    ensures CellPixel(st, BLANK, dx, dy) == st.bg
  {
  }

  /** Lines moved up and the last row of cells blanked. */
  ghost predicate ScrolledPixels(g: Geometry, bg: bv32, a: seq<bv32>, m: seq<bv32>, b: seq<bv32>) {
    && Rows(g) > 0 && LinesMoved(g, a, m, (Rows(g) - 1) * CELL_HEIGHT)
    && RectFilled(g, m, b, 0, (Rows(g) - 1) * CELL_HEIGHT, Cols(g) * CELL_WIDTH, CELL_HEIGHT, bg)
  }

  lemma ScrolledPoint(g: Geometry, bg: bv32, a: seq<bv32>, m: seq<bv32>, b: seq<bv32>, x: nat, y: nat)
    requires WfGeometry(g) && ScrolledPixels(g, bg, a, m, b) && InBuffer(g, x, y)
    ensures At(g, b, x, y) ==
      if !InGrid(g, x, y) then At(g, a, x, y)
      else if y + CELL_HEIGHT < Rows(g) * CELL_HEIGHT then At(g, a, x, y + CELL_HEIGHT)
      else bg
  {
  }

  /** Moving the lines up and blanking the last row of cells scrolls the grid. */
  lemma ScrollRenders(g: Geometry, st: Style, cells: seq<bv8>, a: seq<bv32>, m: seq<bv32>, b: seq<bv32>)
    requires WfGeometry(g) && WfFont(st.font) && Rendered(g, st, cells, a) && Cols(g) <= |cells|
    requires ScrolledPixels(g, st.bg, a, m, b)
    ensures Rendered(g, st, Scrolled(cells, Cols(g)), b) && SameOutside(g, a, b)
  {
    hide At, CellPixel, CellAt, Index, Scrolled, LinesMoved, WfFont;
    ScrolledLength(cells, Cols(g));
    forall x: nat, y: nat | InGrid(g, x, y)
      ensures At(g, b, x, y) ==
        CellPixel(st, CellAt(g, Scrolled(cells, Cols(g)), x, y), x % CELL_WIDTH, y % CELL_HEIGHT)
    {
      ScrollPoint(g, st, cells, a, m, b, x, y);
    }
    forall x: nat, y: nat | InBuffer(g, x, y) && !InGrid(g, x, y) ensures At(g, b, x, y) == At(g, a, x, y) {
      ScrolledPoint(g, st.bg, a, m, b, x, y);
    }
    hide Cols, Rows;
  }

  lemma ScrollPoint(g: Geometry, st: Style, cells: seq<bv8>, a: seq<bv32>, m: seq<bv32>, b: seq<bv32>, x: nat, y: nat)
    requires WfGeometry(g) && WfFont(st.font) && Rendered(g, st, cells, a) && Cols(g) <= |cells|
    requires ScrolledPixels(g, st.bg, a, m, b) && InGrid(g, x, y)
    ensures At(g, b, x, y) == CellPixel(st, CellAt(g, Scrolled(cells, Cols(g)), x, y), x % CELL_WIDTH, y % CELL_HEIGHT)
  {
    hide At, CellPixel, CellAt, Index, Scrolled, ScrolledPixels, WfFont, Rendered, Cols, Rows;
    GridInBuffer(g, x, y);
    ScrolledPoint(g, st.bg, a, m, b, x, y);
    RenderedSize(g, st, cells, a);
    CellAtScrolled(g, cells, x, y);
    BlankPixel(st, x % CELL_WIDTH, y % CELL_HEIGHT);
    if y + CELL_HEIGHT < Rows(g) * CELL_HEIGHT {
      RenderedAt(g, st, cells, a, x, y + CELL_HEIGHT);
      NextCellRow(y);
    }
  }

  lemma RenderedSize(g: Geometry, st: Style, cells: seq<bv8>, p: seq<bv32>)
    requires Rendered(g, st, cells, p)
    ensures |cells| == Index(Cols(g), 0, Rows(g))
  {
  }

  lemma RenderedAt(g: Geometry, st: Style, cells: seq<bv8>, p: seq<bv32>, x: nat, y: nat)
    requires Rendered(g, st, cells, p) && InGrid(g, x, y)
    ensures At(g, p, x, y) == CellPixel(st, CellAt(g, cells, x, y), x % CELL_WIDTH, y % CELL_HEIGHT)
  {
    hide At, CellPixel, CellAt, Index;
  }

  lemma NextCellRow(y: nat)
    ensures (y + CELL_HEIGHT) % CELL_HEIGHT == y % CELL_HEIGHT
  {
  }

  lemma ScrolledLength(cells: seq<bv8>, cols: nat)
    requires cols <= |cells|
    ensures |Scrolled(cells, cols)| == |cells|
  {
  }

  /** Filling the grid with the background renders blanks. */
  lemma ClearRenders(g: Geometry, st: Style, a: seq<bv32>, b: seq<bv32>)
    requires WfGeometry(g) && WfFont(st.font)
    requires RectFilled(g, a, b, 0, 0, Cols(g) * CELL_WIDTH, Rows(g) * CELL_HEIGHT, st.bg)
    ensures Rendered(g, st, Blanks(Index(Cols(g), 0, Rows(g))), b) && SameOutside(g, a, b)
  {
    var cells := Blanks(Index(Cols(g), 0, Rows(g)));
    hide At, CellPixel, Index;
    forall x: nat, y: nat | InGrid(g, x, y)
      ensures At(g, b, x, y) == CellPixel(st, CellAt(g, cells, x, y), x % CELL_WIDTH, y % CELL_HEIGHT)
    {
      GridInBuffer(g, x, y);
      BlankPixel(st, x % CELL_WIDTH, y % CELL_HEIGHT);
    }
  }

  // ---- One step of each drawing loop ----

  lemma FillStep(g: Geometry, a: seq<bv32>, b: seq<bv32>, x0: nat, y: nat, k: nat, color: bv32)
    requires RectFilled(g, a, b, x0, y, k, 1, color) && InBuffer(g, x0 + k, y)
    ensures Index(g.stride, x0 + k, y) < |b|
    ensures RectFilled(g, a, b[Index(g.stride, x0 + k, y) := color], x0, y, k + 1, 1, color)
  {
    WritePoint(g, b, x0 + k, y, color);
    hide At, Index;
  }

  lemma FillRowStep(g: Geometry, a: seq<bv32>, b: seq<bv32>, b': seq<bv32>,
                    x0: nat, y0: nat, w: nat, row: nat, color: bv32)
    requires RectFilled(g, a, b, x0, y0, w, row, color) && RectFilled(g, b, b', x0, y0 + row, w, 1, color)
    ensures RectFilled(g, a, b', x0, y0, w, row + 1, color)
  {
  }

  /** The first `k` pixels of one row of a glyph. */
  ghost predicate GlyphLine(g: Geometry, st: Style, a: seq<bv32>, b: seq<bv32>, c: bv8,
                            x0: nat, y0: nat, k: nat, row: nat)
  {
    WfPixels(g, a) && WfPixels(g, b) &&
    forall x: nat, y: nat {:trigger At(g, b, x, y)} :: InBuffer(g, x, y) ==>
      At(g, b, x, y) == if x0 <= x < x0 + k && y == y0 + row then CellPixel(st, c, x - x0, row) else At(g, a, x, y)
  }

  lemma GlyphStep(g: Geometry, st: Style, a: seq<bv32>, b: seq<bv32>, c: bv8, x0: nat, y0: nat, k: nat, row: nat)
    requires GlyphLine(g, st, a, b, c, x0, y0, k, row) && InBuffer(g, x0 + k, y0 + row)
    ensures Index(g.stride, x0 + k, y0 + row) < |b|
    ensures GlyphLine(g, st, a, b[Index(g.stride, x0 + k, y0 + row) := CellPixel(st, c, k, row)], c, x0, y0, k + 1, row)
  {
    WritePoint(g, b, x0 + k, y0 + row, CellPixel(st, c, k, row));
    hide At, Index, CellPixel;
  }

  lemma GlyphRowStep(g: Geometry, st: Style, a: seq<bv32>, b: seq<bv32>, b': seq<bv32>, c: bv8,
                     x0: nat, y0: nat, w: nat, row: nat)
    requires GlyphDrawn(g, st, a, b, c, x0, y0, w, row) && GlyphLine(g, st, b, b', c, x0, y0, w, row)
    ensures GlyphDrawn(g, st, a, b', c, x0, y0, w, row + 1)
  {
  }

  /** The first `k` pixels of line `y` replaced by those one cell below. */
  ghost predicate LineMoved(g: Geometry, a: seq<bv32>, b: seq<bv32>, y: nat, k: nat) {
    WfPixels(g, a) && WfPixels(g, b) &&
    forall x: nat, y': nat {:trigger At(g, b, x, y')} :: InBuffer(g, x, y') ==>
      At(g, b, x, y') == if x < k && y' == y then At(g, a, x, y + CELL_HEIGHT) else At(g, a, x, y')
  }

  lemma MoveStep(g: Geometry, a: seq<bv32>, b: seq<bv32>, y: nat, k: nat)
    requires LineMoved(g, a, b, y, k) && InBuffer(g, k, y) && InBuffer(g, k, y + CELL_HEIGHT)
    ensures Index(g.stride, k, y) < |b| && Index(g.stride, k, y + CELL_HEIGHT) < |b|
    ensures LineMoved(g, a, b[Index(g.stride, k, y) := b[Index(g.stride, k, y + CELL_HEIGHT)]], y, k + 1)
  {
    IndexInRange(g.stride, g.height, k, y + CELL_HEIGHT);
    var v := b[Index(g.stride, k, y + CELL_HEIGHT)];
    assert v == At(g, b, k, y + CELL_HEIGHT);
    WritePoint(g, b, k, y, v);
    hide At, Index;
  }

  lemma MoveRowStep(g: Geometry, a: seq<bv32>, b: seq<bv32>, b': seq<bv32>, y: nat)
    requires LinesMoved(g, a, b, y) && LineMoved(g, b, b', y, Cols(g) * CELL_WIDTH) && y + CELL_HEIGHT < g.height
    ensures LinesMoved(g, a, b', y + 1)
  {
  }

  lemma SameOutsideTransitive(g: Geometry, a: seq<bv32>, b: seq<bv32>, c: seq<bv32>)
    requires SameOutside(g, a, b) && SameOutside(g, b, c)
    ensures SameOutside(g, a, c)
  {
  }
}
