/**
 The two console back ends side by side: on an 80x25 grid they show the same cells, whatever is
 printed where; their cursors part when the cursor is not automatic.
 */
module Consoles {
  import opened Terminal
  import V = VgaConsole
  import F = FbConsole

  /** The same characters in every cell, a NUL counting as a space, under the one global cursor
      flag. The cursors may differ. */
  ghost predicate SameCells(vga: V.VgaConsole, fb: F.FbConsole)
    reads vga, vga.vidmem, fb, fb.pixels
  {
    && vga.Valid() && fb.Showing() && fb.autoCursor == vga.autoCursor
    && fb.View() == vga.View().(cursor := fb.View().cursor)
  }

  /** The same cursor too. */
  ghost predicate Alike(vga: V.VgaConsole, fb: F.FbConsole)
    reads vga, vga.vidmem, fb, fb.pixels
  {
    SameCells(vga, fb) && fb.View() == vga.View()
  }

  /** Both consoles take the position for the same cell: a point of the grid, whatever the cursors
      are, or "at the cursor" when the cursors agree. */
  ghost predicate SameTarget(vga: V.VgaConsole, fb: F.FbConsole, col: int, row: int)
    requires vga.Valid()
    reads vga, vga.vidmem, fb
  {
    vga.OnScreen(col, row) && (col < 0 || row < 0 ==> fb.View().cursor == vga.Cursor())
  }

  /** From equal cells, every character printed at any point of the grid, or at a common cursor,
      leads to equal cells and returns the same offset, also when the screen scrolls. The cursors
      agree afterwards exactly when the cursor is automatic or the VGA cursor, which then stays, was
      already where printing goes on. */
  method PrintBoth(vga: V.VgaConsole, fb: F.FbConsole, c: bv8, col: int, row: int, attr: bv8)
    returns (a: nat, b: nat)
    requires SameCells(vga, fb) && fb.g.bpp == 32 && SameTarget(vga, fb, col, row)
    requires vga.vidmem as object != fb.pixels
    modifies vga, vga.vidmem, fb, fb.pixels
    ensures SameCells(vga, fb) && a == b && vga.autoCursor == old(vga.autoCursor)
    ensures old(vga.Target(col, row)) < V.SCREEN
    ensures a == 2 * PrintAt(old(vga.View()), old(vga.Target(col, row)), c).cursor
    ensures Alike(vga, fb) <==> vga.autoCursor || old(vga.Cursor()) == a / 2
  {
    hide PrintAt, Index, V.Cells;
    ghost var before, k, target := vga.View(), fb.View().cursor, vga.Target(col, row);
    a := vga.PrintOnTerminal(c, col, row, attr);
    PrintAtIgnoresCursor(before, k, target, c);
    b := fb.Put(c, col, row);
  }

  /** Strings too; an empty string changes nothing. */
  method KPrintBoth(vga: V.VgaConsole, fb: F.FbConsole, message: seq<bv8>, col: int, row: int)
    requires SameCells(vga, fb) && fb.g.bpp == 32 && SameTarget(vga, fb, col, row)
    requires vga.vidmem as object != fb.pixels
    modifies vga, vga.vidmem, fb, fb.pixels
    ensures SameCells(vga, fb) && vga.autoCursor == old(vga.autoCursor)
    ensures message != [] ==>
      (Alike(vga, fb) <==> vga.autoCursor || old(vga.Cursor()) == fb.View().cursor)
    ensures message == [] ==> vga.View() == old(vga.View()) && fb.View() == old(fb.View())
  {
    hide PrintAll, Index, V.Cells;
    vga.KPrintAt(message, col, row);
    fb.KPrintAt(message, col, row);
  }

  /** For instance: with the cursor not automatic, one letter printed at the top left of alike
      screens whose cursor is there parts the cursors. */
  method CursorsPart(vga: V.VgaConsole, fb: F.FbConsole)
    requires Alike(vga, fb) && fb.g.bpp == 32 && !vga.autoCursor && vga.Cursor() == 0
    requires vga.vidmem as object != fb.pixels
    modifies vga, vga.vidmem, fb, fb.pixels
    ensures SameCells(vga, fb) && !Alike(vga, fb)
  {
    hide V.Cells, PrintAt, Index, PrintAll;
    ghost var before := vga.View();
    F.IndexOrigin(V.MAX_COLS);
    StepRight(before, 0, 65);
    var a, b := PrintBoth(vga, fb, 65, 0, 0, V.WHITE_ON_BLACK);
  }

  /** A character that is no newline takes the cursor one cell on while the grid has room. */
  lemma StepRight(t: Terminal, pos: nat, c: bv8)
    requires 0 < t.cols <= |t.cells| && pos + 1 < |t.cells| && c != NEWLINE
    ensures PrintAt(t, pos, c).cursor == pos + 1
  {
    hide Written, Scrolled, Index;
  }
}
