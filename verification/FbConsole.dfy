/**
 The framebuffer back end: the console state and the loops that draw, fill and scroll pixels,
 proved to keep the framebuffer equal to the rendering of the terminal's grid.
 */
module FbConsole {
  import opened Terminal
  import opened Framebuffer

  class FbConsole {
    const g: Geometry
    const st: Style
    const pixels: array<bv32>
    var active: bool
    var cols: nat
    var rows: nat
    var cursorCol: nat
    var cursorRow: nat
    var autoCursor: bool
    ghost var cells: seq<bv8>

    ghost predicate Valid()
    {
      WfGeometry(g) && WfFont(st.font) && pixels.Length == Index(g.stride, 0, g.height)
    }

    /** The state after a successful fb_console_use. */
    ghost predicate Ready()
      reads this
    {
      active && cols == Cols(g) > 0 && rows == Rows(g) > 0 && cursorCol < cols && cursorRow < rows
    }

    /** The invariant: the console is set up and the framebuffer shows the cells. */
    ghost predicate Showing()
      reads this, pixels
    {
      Valid() && Ready() && Rendered(g, st, cells, pixels[..])
    }

    ghost function View(): Terminal
      reads this
    {
      Terminal(cols, rows, cells, Index(cols, cursorCol, cursorRow))
    }

    constructor (g: Geometry, st: Style, pixels: array<bv32>)
      requires WfGeometry(g) && WfFont(st.font) && pixels.Length == Index(g.stride, 0, g.height)
      ensures Valid() && !active && this.g == g && this.st == st && this.pixels == pixels && autoCursor
    {
      this.g, this.st, this.pixels := g, st, pixels;
      active, cols, rows, cursorCol, cursorRow, autoCursor := false, 0, 0, 0, 0, true;
      cells := [];
    }

    /** fb_console_use: set up the grid from the geometry; fails when not even one cell fits. */
    method Use() returns (ok: bool)
      requires Valid()
      modifies this`active, this`cols, this`rows, this`cursorCol, this`cursorRow
      ensures ok <==> Cols(g) > 0 && Rows(g) > 0
      ensures active == ok
      ensures ok ==> Ready()
      ensures !ok ==>
        cols == old(cols) && rows == old(rows) && cursorCol == old(cursorCol) && cursorRow == old(cursorRow)
      ensures ok && old(active) ==>
        && cursorCol == (if old(cursorCol) < Cols(g) then old(cursorCol) else Cols(g) - 1)
        && cursorRow == (if old(cursorRow) < Rows(g) then old(cursorRow) else Rows(g) - 1)
      ensures ok && !old(active) ==> cursorCol == 0 && cursorRow == 0
      ensures old(Ready()) ==> ok && View() == old(View())
    {
      var c, r := g.width / CELL_WIDTH, g.height / CELL_HEIGHT;
      if c == 0 || r == 0 {
        active := false;
        return false;
      }
      if !active {
        cursorCol, cursorRow := 0, 0;
      } else {
        if cursorCol >= c { cursorCol := c - 1; }
        if cursorRow >= r { cursorRow := r - 1; }
      }
      cols, rows, active := c, r, true;
      return true;
    }

    // ---- Filling ----

    method FillLine(x0: nat, y: nat, w: nat, color: bv32)
      requires Valid() && x0 + w <= g.stride && y < g.height
      modifies pixels
      ensures RectFilled(g, old(pixels[..]), pixels[..], x0, y, w, 1, color)
    {
      hide Index, At;
      ghost var was := pixels[..];
      for col := 0 to w
        invariant RectFilled(g, was, pixels[..], x0, y, col, 1, color)
      {
        ghost var now := pixels[..];
        FillStep(g, was, now, x0, y, col, color);
        pixels[Index(g.stride, x0 + col, y)] := color;
        assert pixels[..] == now[Index(g.stride, x0 + col, y) := color];
      }
    }

    /** fb_console_fill_rect, clipped to the visible width and height. */
    method FillRect(x: nat, y: nat, width: nat, height: nat, color: bv32)
      requires Valid()
      modifies pixels
      ensures x < g.width && y < g.height && x + width <= g.width && y + height <= g.height ==>
        RectFilled(g, old(pixels[..]), pixels[..], x, y, width, height, color)
      ensures x >= g.width || y >= g.height || width == 0 || height == 0 ==> pixels[..] == old(pixels[..])
      ensures x < g.width && y < g.height ==>
        RectFilled(g, old(pixels[..]), pixels[..], x, y, if x + width > g.width then g.width - x else width,
                   if y + height > g.height then g.height - y else height, color)
    {
      hide Index, At;
      ghost var was := pixels[..];
      if width == 0 || height == 0 || x >= g.width || y >= g.height { return; }
      var w := if x + width > g.width then g.width - x else width;
      var h := if y + height > g.height then g.height - y else height;
      for row := 0 to h
        invariant RectFilled(g, was, pixels[..], x, y, w, row, color)
      {
        ghost var now := pixels[..];
        FillLine(x, y + row, w, color);
        FillRowStep(g, was, now, pixels[..], x, y, w, row, color);
      }
    }

    // ---- Glyphs ----

    method DrawGlyphLine(c: bv8, x: nat, y: nat, row: nat)
      requires Valid() && x + GLYPH_WIDTH <= g.stride && y + row < g.height && row < GLYPH_HEIGHT
      modifies pixels
      ensures GlyphLine(g, st, old(pixels[..]), pixels[..], c, x, y, GLYPH_WIDTH, row)
    {
      hide Index, At;
      ghost var was := pixels[..];
      var bits := st.font(c)[row];
      for col := 0 to GLYPH_WIDTH
        invariant GlyphLine(g, st, was, pixels[..], c, x, y, col, row)
      {
        ghost var now := pixels[..];
        GlyphStep(g, st, was, now, c, x, y, col, row);
        var color := if Lit(bits, col) then st.fg else st.bg;
        pixels[Index(g.stride, x + col, y + row)] := color;
        assert pixels[..] == now[Index(g.stride, x + col, y + row) := CellPixel(st, c, col, row)];
      }
    }

    /** framebuffer_console_draw_glyph: draws nothing unless the depth is 32 bits and the whole
        glyph fits the screen. */
    method DrawGlyph(c: bv8, x: nat, y: nat) returns (ok: bool)
      requires Valid()
      modifies pixels
      ensures ok <==> g.bpp == 32 && x + GLYPH_WIDTH <= g.width && y + GLYPH_HEIGHT <= g.height
      ensures !ok ==> pixels[..] == old(pixels[..])
      ensures ok ==> GlyphDrawn(g, st, old(pixels[..]), pixels[..], c, x, y, GLYPH_WIDTH, GLYPH_HEIGHT)
    {
      hide Index, At, CellPixel;
      if g.bpp != 32 || x >= g.width || y >= g.height { return false; }
      if x + GLYPH_WIDTH > g.width || y + GLYPH_HEIGHT > g.height { return false; }
      ghost var was := pixels[..];
      for row := 0 to GLYPH_HEIGHT
        invariant GlyphDrawn(g, st, was, pixels[..], c, x, y, GLYPH_WIDTH, row)
      {
        ghost var now := pixels[..];
        DrawGlyphLine(c, x, y, row);
        GlyphRowStep(g, st, was, now, pixels[..], c, x, y, GLYPH_WIDTH, row);
      }
      return true;
    }

    // ---- Scrolling ----

    method MoveLine(y: nat)
      requires Valid() && y + CELL_HEIGHT < g.height
      modifies pixels
      ensures LineMoved(g, old(pixels[..]), pixels[..], y, Cols(g) * CELL_WIDTH)
    {
      hide Index, At;
      ghost var was := pixels[..];
      var w := Cols(g) * CELL_WIDTH;
      for x := 0 to w
        invariant LineMoved(g, was, pixels[..], y, x)
      {
        ghost var now := pixels[..];
        MoveStep(g, was, now, y, x);
        pixels[Index(g.stride, x, y)] := pixels[Index(g.stride, x, y + CELL_HEIGHT)];
        assert pixels[..] == now[Index(g.stride, x, y) := now[Index(g.stride, x, y + CELL_HEIGHT)]];
      }
    }

    /** fb_console_scroll */
    method Scroll()
      requires Showing() && cols <= |cells|
      modifies this, pixels
      ensures Showing() && cells == Scrolled(old(cells), cols) && SameOutside(g, old(pixels[..]), pixels[..])
      ensures cursorCol == 0 && cursorRow == rows - 1 && autoCursor == old(autoCursor)
    {
      hide Index, At, CellPixel, Rendered, SameOutside, RectFilled, LinesMoved;
      var ok := Use();
      ghost var was := pixels[..];
      MoveLines();
      ghost var moved := pixels[..];
      BlankLastRow();
      ScrollRenders(g, st, cells, was, moved, pixels[..]);
      cells := Scrolled(cells, cols);
      cursorRow := rows - 1;
      cursorCol := 0;
    }

    method MoveLines()
      requires Valid() && Rows(g) > 0
      modifies pixels
      ensures LinesMoved(g, old(pixels[..]), pixels[..], (Rows(g) - 1) * CELL_HEIGHT)
    {
      hide Index, At;
      ghost var was := pixels[..];
      var copyHeight := (Rows(g) - 1) * CELL_HEIGHT;
      for y := 0 to copyHeight
        invariant LinesMoved(g, was, pixels[..], y)
      {
        ghost var now := pixels[..];
        MoveLine(y);
        MoveRowStep(g, was, now, pixels[..], y);
      }
    }

    method BlankLastRow()
      requires Valid() && Rows(g) > 0
      modifies pixels
      ensures RectFilled(g, old(pixels[..]), pixels[..], 0, (Rows(g) - 1) * CELL_HEIGHT,
                         Cols(g) * CELL_WIDTH, CELL_HEIGHT, st.bg)
    {
      hide Index, At;
      ghost var was := pixels[..];
      var copyHeight := (Rows(g) - 1) * CELL_HEIGHT;
      var y := copyHeight;
      while y < copyHeight + CELL_HEIGHT && y < g.height
        invariant copyHeight <= y <= copyHeight + CELL_HEIGHT
        invariant RectFilled(g, was, pixels[..], 0, copyHeight, Cols(g) * CELL_WIDTH, y - copyHeight, st.bg)
      {
        ghost var now := pixels[..];
        FillLine(0, y, Cols(g) * CELL_WIDTH, st.bg);
        FillRowStep(g, was, now, pixels[..], 0, copyHeight, Cols(g) * CELL_WIDTH, y - copyHeight, st.bg);
        y := y + 1;
      }
    }

    // ---- Printing ----

    /** fb_console_clear */
    method Clear() returns (ok: bool)
      requires Valid()
      modifies this, pixels
      ensures ok <==> Cols(g) > 0 && Rows(g) > 0
      ensures ok ==> Showing() && View() == Cleared(Cols(g), Rows(g)) && SameOutside(g, old(pixels[..]), pixels[..])
      ensures !ok ==> pixels[..] == old(pixels[..])
      ensures autoCursor == old(autoCursor)
    {
      hide Index, At, CellPixel, Rendered, SameOutside, RectFilled;
      ok := Use();
      if !ok { return; }
      ghost var was := pixels[..];
      FillRect(0, 0, cols * CELL_WIDTH, rows * CELL_HEIGHT, st.bg);
      ClearRenders(g, st, was, pixels[..]);
      cells := Blanks(Index(Cols(g), 0, Rows(g)));
      cursorCol, cursorRow := 0, 0;
      IndexOrigin(cols);
    }

    /** The point names a cell: one of the grid, or "at the cursor". */
    ghost predicate OnGrid(col: int, row: int)
      reads this
    {
      col < 0 || row < 0 || (col < cols && row < rows)
    }

    ghost function Target(col: int, row: int): nat
      reads this
    {
      if col >= 0 && row >= 0 then Index(cols, col, row) else Index(cols, cursorCol, cursorRow)
    }

    /** Where printing starts: the point, or the cursor when the point is negative. */
    ghost function StartCol(col: int, row: int): nat
      reads this
    {
      if col >= 0 && row >= 0 then col else cursorCol
    }

    ghost function StartRow(col: int, row: int): nat
      reads this
    {
      if col >= 0 && row >= 0 then row else cursorRow
    }

    /** The pixels show character `c`, a space for NUL, in the cell it was printed to, or one row higher when
        that made the screen scroll. */
    ghost predicate Appears(c: bv8, col: nat, row: nat)
      reads this, pixels
    {
      var last := col + 1 >= cols && row + 1 >= rows;
      (last && row == 0) ||
      Pictured(g, st, pixels[..], col, if last then row - 1 else row, if c == 0 then 32 else c)
    }

    /** What printing at a point of the grid leaves in its cell. */
    lemma PrintedAppears(t: Terminal, c: bv8, col: nat, row: nat)
      requires Showing() && Wf(t) && t.cols == cols && t.rows == rows && t.cols <= |t.cells|
      requires col < cols && row < rows && c != 10 && Index(cols, col, row) < |t.cells|
      requires View() == PrintAt(t, Index(cols, col, row), c)
      ensures Appears(c, col, row)
    {
      hide Rendered, At, Pictured, Index, PrintAt, Wf;
      PrintedCells(t, Index(cols, col, row), c);
      LastCell(cols, rows, col, row);
      WfSize(t);
      ShowingWf();
      if col + 1 < cols || row + 1 < rows {
        RenderedPictures(g, st, cells, pixels[..], col, row);
      } else if row > 0 {
        RowAbove(cols, rows, col, row);
        RenderedPictures(g, st, cells, pixels[..], col, row - 1);
      }
    }

    /** Draw a character into its cell; a cell off the grid changes nothing on the grid. */
    method DrawCell(c: bv8, col: nat, row: nat)
      requires Showing() && g.bpp == 32 && c != NEWLINE
      modifies this`cells, pixels
      ensures Showing() && cells == WrittenAt(old(cells), cols, rows, col, row, c)
      ensures col < cols && row < rows ==> SameOutside(g, old(pixels[..]), pixels[..])
    {
      hide Index, At, CellPixel, Rendered, SameOutside, SameGrid, RectFilled, GlyphDrawn, CellDrawn, Cols, Rows;
      ghost var was := pixels[..];
      SameGridSelf(g, was);
      var px, py := col * CELL_WIDTH, row * CELL_HEIGHT;
      CellFits(col, row);
      var ok := DrawGlyph(Shown(c), px, py);
      ghost var drawn := pixels[..];
      SameGridSelf(g, drawn);
      FillRect(px + GLYPH_WIDTH, py, CELL_WIDTH - GLYPH_WIDTH, CELL_HEIGHT, st.bg);
      if col < cols && row < rows {
        GlyphAndGap(g, st, was, drawn, pixels[..], Shown(c), col, row);
        DrawRenders(g, st, cells, was, pixels[..], Shown(c), col, row);
        cells := cells[Index(cols, col, row) := Shown(c)];
      } else {
        if ok { GlyphOffGrid(g, st, was, drawn, Shown(c), col, row, GLYPH_WIDTH, GLYPH_HEIGHT); }
        SameGridRenders(g, st, cells, was, drawn);
        if px + GLYPH_WIDTH < g.width && py < g.height {
          GapOffGrid(g, drawn, pixels[..], col, row, CELL_WIDTH - GLYPH_WIDTH, GapHeight(py), st.bg);
        }
        SameGridRenders(g, st, cells, drawn, pixels[..]);
      }
    }

    /** The rows of the blank column that are on the screen. */
    ghost function GapHeight(py: nat): nat {
      if py + CELL_HEIGHT > g.height && py < g.height then g.height - py else CELL_HEIGHT
    }

    /** A cell of the grid fits the screen. */
    lemma CellFits(col: nat, row: nat)
      requires Valid() && Ready()
      ensures col < cols && row < rows ==>
        col * CELL_WIDTH + CELL_WIDTH <= g.width && row * CELL_HEIGHT + CELL_HEIGHT <= g.height
    {
    }

    /** fb_console_print_char: print at a point, or at the cursor when the point is negative; wrap,
        newline and scroll. Printing on the grid never changes a pixel outside it. */
    method PrintChar(c: bv8, col: int, row: int) returns (offset: nat)
      requires Showing() && g.bpp == 32
      modifies this, pixels
      ensures Showing() && autoCursor == old(autoCursor)
      ensures Wf(old(View())) && cols == old(cols) && cols <= |old(cells)| && offset == 2 * View().cursor
      ensures View() == PrintAtPoint(old(View()), old(StartCol(col, row)), old(StartRow(col, row)), c)
      ensures old(OnGrid(col, row)) ==>
        && SameOutside(g, old(pixels[..]), pixels[..])
        && old(Target(col, row)) < |old(cells)|
        && View() == PrintAt(old(View()), old(Target(col, row)), c)
      ensures old(OnGrid(col, row)) && c != 10 ==>
        Appears(c, old(StartCol(col, row)), old(StartRow(col, row)))
    {
      hide Index, At, CellPixel, Rendered, SameOutside, PrintAt, Wf, PrintAtPoint, Appears;
      ShowingWf();
      ghost var was, x, y := View(), StartCol(col, row), StartRow(col, row);
      PointWf(x, y, c);
      var ok := Use();
      if col >= 0 && row >= 0 {
        offset := PrintPoint(c, col, row);
      } else {
        offset := PrintPoint(c, cursorCol, cursorRow);
      }
      if x < cols && y < rows && c != 10 { PrintedAppears(was, c, x, y); }
    }

    lemma PointWf(x: nat, y: nat, c: bv8)
      requires Showing() && cols <= |cells|
      ensures x < cols && y < rows ==>
        && Index(cols, x, y) < |cells|
        && PrintAtPoint(View(), x, y, c) == PrintAt(View(), Index(cols, x, y), c)
    {
      assert |cells| == Index(cols, 0, rows);
      hide Index, Rendered, PrintAt, PrintAtPoint;
      if x < cols && y < rows { PrintAtPointOnGrid(View(), x, y, c); }
    }

    /** The rest of fb_console_print_char, from the point where column and row are known. */
    method PrintPoint(c: bv8, col: nat, row: nat) returns (offset: nat)
      requires Showing() && g.bpp == 32 && cols <= |cells|
      modifies this, pixels
      ensures Showing() && autoCursor == old(autoCursor) && cols == old(cols) && rows == old(rows)
      ensures View() == PrintAtPoint(old(View()), col, row, c)
      ensures col < cols && row < rows ==> SameOutside(g, old(pixels[..]), pixels[..])
      ensures offset == 2 * View().cursor
    {
      hide Index, At, CellPixel, SameOutside, Advance, Scrolled, Written, WrittenAt, Rendered;
      ghost var before := pixels[..];
      var x, y := Place(c, col, row);
      NextColumnFits(cols, col, c);
      if y >= rows {
        ghost var drawn := pixels[..];
        Scroll();
        if col < cols && row < rows { SameOutsideTransitive(g, before, drawn, pixels[..]); }
        y := rows - 1;
      }
      cursorCol, cursorRow := x, y;
      offset := 2 * Index(cols, x, y);
    }

    lemma NextColumnFits(cols: nat, x: nat, c: bv8)
      requires cols > 0
      ensures NextColumn(cols, x, c) < cols
    {
    }

    /** Show the character and step to the next column, wrapping at the right edge. */
    method Place(c: bv8, col: nat, row: nat) returns (x: nat, y: nat)
      requires Showing() && g.bpp == 32
      modifies this`cells, pixels
      ensures Showing() && cells == WrittenAt(old(cells), cols, rows, col, row, c)
      ensures col < cols && row < rows ==> SameOutside(g, old(pixels[..]), pixels[..])
      ensures x == NextColumn(cols, col, c) && y == NextRow(cols, col, row, c)
    {
      hide Index, At, CellPixel, Rendered, SameOutside;
      x, y := col, row;
      if c == NEWLINE {
        SameOutsideSelf(g, pixels[..]);
        x, y := 0, y + 1;
      } else {
        DrawCell(c, x, y);
        x := x + 1;
      }
      if x >= cols {
        x, y := 0, y + 1;
      }
    }

    // ---- Cursor and strings ----

    /** get_cursor_offset */
    method GetCursorOffset() returns (offset: nat)
      requires Showing()
      modifies this`active, this`cols, this`rows, this`cursorCol, this`cursorRow
      ensures Showing() && View() == old(View()) && offset == 2 * View().cursor
    {
      hide Index, Rendered;
      var ok := Use();
      offset := 2 * Index(cols, cursorCol, cursorRow);
    }

    /** set_cursor_offset: a negative offset counts as 0, a row below the grid as the last row. */
    method SetCursorOffset(offset: int)
      requires Showing()
      modifies this`active, this`cols, this`rows, this`cursorCol, this`cursorRow
      ensures Showing() && cols == old(cols) && rows == old(rows)
      ensures 0 <= offset && offset / 2 < |cells| ==> View() == old(View()).(cursor := offset / 2)
      ensures offset < 0 ==> View() == old(View()).(cursor := 0)
      ensures offset >= 0 && offset / 2 >= |cells| ==>
        View() == old(View()).(cursor := Index(cols, offset / 2 % cols, rows - 1))
    {
      hide Index, At, CellPixel;
      assert |cells| == Index(cols, 0, rows);
      hide Rendered;
      var ok := Use();
      var index := if offset < 0 then 0 else offset / 2;
      IndexOrigin(cols);
      if index < |cells| {
        RowAndColumn(cols, rows, index);
      } else {
        RowPastGrid(cols, rows, index);
      }
      ColumnBound(index, cols);
      var row, col := index / cols, index % cols;
      if row >= rows { row := rows - 1; }
      cursorRow, cursorCol := row, col;
    }

    /** print_char on the framebuffer path. */
    method Put(c: bv8, col: int, row: int) returns (offset: nat)
      requires Showing() && g.bpp == 32
      modifies this, pixels
      ensures Showing() && autoCursor == old(autoCursor)
      ensures Wf(old(View())) && cols == old(cols) && cols <= |old(cells)| && offset == 2 * View().cursor
      ensures View() == PrintAtPoint(old(View()), old(StartCol(col, row)), old(StartRow(col, row)), c)
      ensures old(OnGrid(col, row)) ==>
        && SameOutside(g, old(pixels[..]), pixels[..])
        && old(Target(col, row)) < |old(cells)|
        && View() == PrintAt(old(View()), old(Target(col, row)), c)
      ensures old(OnGrid(col, row)) && c != 10 ==>
        Appears(c, old(StartCol(col, row)), old(StartRow(col, row)))
    {
      hide Index, At, CellPixel, Rendered, SameOutside, PrintAt, PrintAtPoint, Pictured;
      offset := PrintChar(c, col, row);
      if autoCursor {
        ShowingWf();
        SetCursorOffset(offset);
      }
    }

    /** get_vga_offset_row and get_vga_offset_col */
    method RowAndColumnOf(offset: nat) returns (col: int, row: int)
      requires Showing() && offset % 2 == 0 && offset / 2 < |cells|
      ensures 0 <= col < cols && 0 <= row < rows && Index(cols, col, row) == offset / 2
    {
      hide Rendered, Index, Cols, Rows, Valid;
      GridSize();
      var index := offset / 2;
      RowAndColumn(cols, rows, index);
      row := index / cols;
      col := index % cols;
    }

    lemma GridSize()
      requires Showing()
      ensures |cells| == Index(cols, 0, rows) && cols > 0
    {
      hide At, CellPixel, Index;
    }

    /** kprint_at, and kprint with a negative position. From a point off the grid the first character is
        lost, and the others go on from where it left the cursor. */
    method KPrintAt(message: seq<bv8>, col: int, row: int)
      requires Showing() && g.bpp == 32
      modifies this, pixels
      ensures Showing() && autoCursor == old(autoCursor)
      ensures message == [] ==> View() == old(View())
      ensures old(OnGrid(col, row)) ==>
        && SameOutside(g, old(pixels[..]), pixels[..])
        && Wf(old(View()).(cursor := old(Target(col, row))))
        && (message != [] ==> View() == PrintAll(old(View()).(cursor := old(Target(col, row))), message))
      ensures !old(OnGrid(col, row)) && message != [] ==>
        && old(rows) > 0 && old(cols) <= |old(cells)|
        && var first := PrintAtPoint(old(View()), col, row, message[0]);
        && Wf(first) && View() == PrintAll(first, message[1..])
    {
      hide Index, At, CellPixel, Rendered, SameOutside, PrintAt, PrintAtPoint;
      ShowingWf();
      if col < 0 || row < 0 {
        var offset := GetCursorOffset();
        var c, r := RowAndColumnOf(offset);
        PrintFrom(message, c, r);
      } else if col < cols && row < rows {
        PrintFrom(message, col, row);
      } else if message != [] {
        var offset := Put(message[0], col, row);
        ShowingWf();
        var c, r := RowAndColumnOf(offset);
        PrintAllNothing(View());
        PrintFrom(message[1..], c, r);
      }
    }

    /** The loop of kprint_at. */
    method PrintFrom(message: seq<bv8>, col: int, row: int)
      requires Showing() && g.bpp == 32 && 0 <= col < cols && 0 <= row < rows
      modifies this, pixels
      ensures Showing() && SameOutside(g, old(pixels[..]), pixels[..]) && autoCursor == old(autoCursor)
      ensures cols == old(cols) && Wf(old(View()).(cursor := Index(cols, col, row)))
      ensures message != [] ==> View() == PrintAll(old(View()).(cursor := Index(cols, col, row)), message)
      ensures message == [] ==> View() == old(View())
    {
      hide Index, At, CellPixel, Rendered, SameOutside, PrintAt, Wf;
      ghost var start := View().(cursor := Index(cols, col, row));
      ShowingWfAt(col, row);
      SameOutsideSelf(g, pixels[..]);
      var c, r, i := col, row, 0;
      while i < |message|
        invariant i <= |message| && Showing() && 0 <= c < cols && 0 <= r < rows && cols == old(cols)
        invariant SameOutside(g, old(pixels[..]), pixels[..]) && autoCursor == old(autoCursor)
        invariant View().(cursor := Index(cols, c, r)) == PrintAll(start, message[..i])
        invariant if i == 0 then View() == old(View()) else View().cursor == Index(cols, c, r)
      {
        PrintAllNext(start, message, i);
        PrintAtIgnoresCursor(View(), Index(cols, c, r), Index(cols, c, r), message[i]);
        ghost var before := pixels[..];
        var offset := Put(message[i], c, r);
        SameOutsideTransitive(g, old(pixels[..]), before, pixels[..]);
        CursorInside();
        c, r := RowAndColumnOf(offset);
        i := i + 1;
      }
      assert message[..|message|] == message;
    }

    // ---- Whole runs ----

    /** Every run of clears and prints, at any points, that starts with the grid shown keeps showing
        the grid, which evolves as the terminal does; while the points are on the grid, nothing
        outside it is ever touched. */
    method Replay(ops: seq<Op>)
      requires Showing() && g.bpp == 32
      modifies this, pixels
      ensures Showing() && cols == old(cols) && rows == old(rows)
      ensures Wf(old(View())) && View() == Replayed(old(View()), ops)
      ensures (forall i :: 0 <= i < |ops| ==> OpOnGrid(cols, rows, ops[i])) ==>
        SameOutside(g, old(pixels[..]), pixels[..])
    {
      hide Index, At, CellPixel, Rendered, SameOutside, PrintAt, PrintAtPoint;
      ShowingWf();
      SameOutsideSelf(g, pixels[..]);
      ghost var start := View();
      for i := 0 to |ops|
        invariant Showing() && cols == old(cols) && rows == old(rows)
        invariant (forall k :: 0 <= k < i ==> OpOnGrid(cols, rows, ops[k])) ==>
          SameOutside(g, old(pixels[..]), pixels[..])
        invariant Wf(View()) && Replayed(View(), ops[i..]) == Replayed(start, ops)
      {
        ghost var before, all := pixels[..], forall k :: 0 <= k <= i ==> OpOnGrid(cols, rows, ops[k]);
        assert ops[i..][0] == ops[i] && ops[i..][1..] == ops[i + 1..];
        match ops[i] {
          case Clear =>
            var ok := Clear();
          case Put(c, col, row) =>
            PositionOfPoint(cols, cursorCol, cursorRow);
            var offset := Put(c, col, row);
        }
        if all { SameOutsideTransitive(g, old(pixels[..]), before, pixels[..]); }
        ShowingWf();
      }
    }

    lemma ShowingWfAt(col: nat, row: nat)
      requires Showing() && col < cols && row < rows
      ensures Wf(View().(cursor := Index(cols, col, row)))
    {
      IndexInRange(cols, rows, col, row);
    }

    lemma CursorInside()
      requires Showing()
      ensures View().cursor < |cells|
    {
      ShowingWf();
    }

    lemma ShowingWf()
      requires Showing()
      ensures Wf(View()) && cols <= |cells|
    {
      IndexInRange(cols, rows, cursorCol, cursorRow);
      GridHasRow(cols, rows);
    }
  }

  datatype Op = Clear | Put(c: bv8, col: int, row: int)

  predicate OpOnGrid(cols: nat, rows: nat, op: Op) {
    op.Put? ==> op.col < 0 || op.row < 0 || (op.col < cols && op.row < rows)
  }

  /** The terminal after one operation. */
  ghost function Applied(t: Terminal, op: Op): (r: Terminal)
    requires Wf(t)
    ensures Wf(r) && r.cols == t.cols && r.rows == t.rows
  {
    match op
    case Clear => GridHasRow(t.cols, t.rows); Cleared(t.cols, t.rows)
    case Put(c, col, row) =>
      var x, y := if col >= 0 && row >= 0 then col else t.cursor % t.cols,
                  if col >= 0 && row >= 0 then row else t.cursor / t.cols;
      PrintAtPointWf(t, x, y, c);
      PrintAtPoint(t, x, y, c)
  }

  ghost function Replayed(t: Terminal, ops: seq<Op>): (r: Terminal)
    requires Wf(t)
    ensures Wf(r)
    decreases |ops|
  {
    if ops == [] then t else Replayed(Applied(t, ops[0]), ops[1..])
  }

  /** A position past the grid lies in a row past the grid. */
  lemma RowPastGrid(cols: nat, rows: nat, index: nat)
    requires cols > 0 && index >= Index(cols, 0, rows)
    ensures index / cols >= rows
  {
    PointOfPosition(cols, index);
    hide Index;
    if index / cols < rows {
      IndexInRange(cols, rows, index % cols, index / cols);
    }
  }

  lemma PointOfPosition(cols: nat, index: nat)
    requires cols > 0
    ensures index == Index(cols, index % cols, index / cols)
  {
  }

  lemma WfSize(t: Terminal)
    requires Wf(t)
    ensures |t.cells| == Index(t.cols, 0, t.rows)
  {
  }

  /** The last cell is the one in the last column of the last row. */
  lemma LastCell(cols: nat, rows: nat, x: nat, y: nat)
    requires x < cols && y < rows
    ensures Index(cols, x, y) + 1 == Index(cols, 0, rows) <==> x + 1 == cols && y + 1 == rows
    ensures Index(cols, x, y) + 1 <= Index(cols, 0, rows)
  {
    IndexInRange(cols, rows, x, y);
    IndexStep(cols, x, y);
    IndexStep(cols, 0, y);
    hide Index;
    if y + 1 < rows {
      IndexInRange(cols, rows, 0, y + 1);
    }
  }

  lemma RowAbove(cols: nat, rows: nat, x: nat, y: nat)
    requires x < cols && 0 < y < rows
    ensures Index(cols, x, y) >= cols && Index(cols, x, y - 1) == Index(cols, x, y) - cols
    ensures Index(cols, x, y - 1) < Index(cols, 0, rows)
  {
    IndexStep(cols, x, y - 1);
    IndexInRange(cols, rows, x, y - 1);
  }

  lemma ColumnBound(index: nat, cols: nat)
    requires cols > 0
    ensures index % cols < cols && index / cols >= 0
  {
  }

  lemma IndexOrigin(cols: nat)
    ensures Index(cols, 0, 0) == 0
  {
  }

  lemma SameOutsideSelf(g: Geometry, a: seq<bv32>)
    ensures SameOutside(g, a, a)
  {
  }
}
