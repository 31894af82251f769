/**
 The VGA text back end: 80x25 cells of a character and an attribute byte, scrolled by copying
 rows in video memory, with the cursor position in two hardware registers.
 */
module VgaConsole {
  import opened Terminal
  import Stride

  const MAX_COLS: nat := 80
  const MAX_ROWS: nat := 25
  const SCREEN: nat := 2000
  const MEMORY: nat := 4000
  const ROW_BYTES: nat := 160
  const WHITE_ON_BLACK: bv8 := 0x0F
  const RED_ON_WHITE: bv8 := 0xF4
  const ERROR_MARK: bv8 := 69   // 'E'

  // ---- Video memory as a value ----

  /** The characters on the screen, a NUL shown as a space. */
  function Cells(mem: seq<bv8>): (r: seq<bv8>)
    requires |mem| == MEMORY
    ensures |r| == SCREEN && forall i :: 0 <= i < SCREEN ==> r[i] == Shown(mem[2 * i])
  {
    seq(SCREEN, i requires 0 <= i < SCREEN => Shown(mem[2 * i]))
  }

  function ZeroRow(): (r: seq<bv8>)
    ensures |r| == ROW_BYTES && forall i :: 0 <= i < ROW_BYTES ==> r[i] == 0
  {
    seq(ROW_BYTES, i => 0)
  }

  /** Video memory after `c` went to cell `pos`, before scrolling. */
  function Stored(mem: seq<bv8>, pos: nat, c: bv8, attr: bv8): seq<bv8>
    requires |mem| == MEMORY && pos < SCREEN
  {
    if c == NEWLINE then mem else mem[2 * pos := c][2 * pos + 1 := attr]
  }

  function ScrolledMemory(mem: seq<bv8>): seq<bv8>
    requires |mem| == MEMORY
  {
    mem[ROW_BYTES..] + ZeroRow()
  }

  /** Where byte `j` of a copy comes from. Copied upwards onto itself, the first bytes repeat. */
  function Origin(dest: nat, src: nat, j: nat): nat {
    if dest <= src then src + j else src + j % (dest - src)
  }

  lemma OriginBound(dest: nat, src: nat, j: nat)
    ensures src <= Origin(dest, src, j) <= src + j
    ensures dest <= src || j < dest - src ==> Origin(dest, src, j) == src + j
  {
    if dest > src { Stride.RemainderBound(j, dest - src); }
  }

  /** `n` bytes copied from `src` to `dest`, first to last. */
  function Copied(mem: seq<bv8>, dest: nat, src: nat, n: nat): (r: seq<bv8>)
    requires |mem| == MEMORY && dest + n <= MEMORY && src + n <= MEMORY
    ensures |r| == MEMORY
    ensures forall i :: 0 <= i < MEMORY ==>
      r[i] == if dest <= i < dest + n then mem[OriginIn(dest, src, i - dest)] else mem[i]
  {
    seq(MEMORY, i requires 0 <= i < MEMORY =>
      if dest <= i < dest + n then mem[OriginIn(dest, src, i - dest)] else mem[i])
  }

  /** The origin, known to lie in video memory. */
  function OriginIn(dest: nat, src: nat, j: nat): (k: nat)
    ensures src <= k <= src + j && k == Origin(dest, src, j)
  {
    OriginBound(dest, src, j);
    Origin(dest, src, j)
  }

  /** The byte read in step `k` is the origin of byte `k`, although earlier steps wrote. */
  lemma CopyByte(mem: seq<bv8>, dest: nat, src: nat, k: nat)
    requires |mem| == MEMORY && dest + k < MEMORY && src + k < MEMORY
    ensures Copied(mem, dest, src, k)[src + k] == mem[OriginIn(dest, src, k)]
    ensures Copied(mem, dest, src, k)[dest + k := mem[OriginIn(dest, src, k)]] == Copied(mem, dest, src, k + 1)
  {
    hide Origin;
    OriginBound(dest, src, k);
    if dest > src && k >= dest - src {
      RepeatedOrigin(dest, src, k);
    }
  }

  lemma CopyNothing(mem: seq<bv8>, dest: nat, src: nat)
    requires |mem| == MEMORY && dest <= MEMORY && src <= MEMORY
    ensures Copied(mem, dest, src, 0) == mem
  {
  }

  lemma RepeatedOrigin(dest: nat, src: nat, k: nat)
    requires src < dest && k >= dest - src
    ensures Origin(dest, src, src + k - dest) == Origin(dest, src, k)
  {
    Stride.GapRemainder(k, k - (dest - src), dest - src, 1);
  }

  /** The first `n` rows replaced by the rows below them. */
  function Shifted(mem: seq<bv8>, n: nat): (r: seq<bv8>)
    requires |mem| == MEMORY && n < MAX_ROWS
    ensures |r| == MEMORY
    ensures forall k :: 0 <= k < MEMORY ==> r[k] == if k < n * ROW_BYTES then mem[k + ROW_BYTES] else mem[k]
  {
    seq(MEMORY, k requires 0 <= k < MEMORY => if k < n * ROW_BYTES then mem[k + ROW_BYTES] else mem[k])
  }

  lemma ShiftRow(mem: seq<bv8>, i: nat)
    requires |mem| == MEMORY && 1 <= i < MAX_ROWS
    ensures Copied(Shifted(mem, i - 1), (i - 1) * ROW_BYTES, i * ROW_BYTES, ROW_BYTES) == Shifted(mem, i)
  {
  }

  /** The first `n` bytes of the last row zeroed. */
  function Blanked(mem: seq<bv8>, n: nat): (r: seq<bv8>)
    requires |mem| == MEMORY && n <= ROW_BYTES
    ensures |r| == MEMORY
    ensures forall k :: 0 <= k < MEMORY ==>
      r[k] == if MEMORY - ROW_BYTES <= k < MEMORY - ROW_BYTES + n then 0 else mem[k]
  {
    seq(MEMORY, k requires 0 <= k < MEMORY => if MEMORY - ROW_BYTES <= k < MEMORY - ROW_BYTES + n then 0 else mem[k])
  }

  lemma ShiftedThenBlanked(mem: seq<bv8>)
    requires |mem| == MEMORY
    ensures Blanked(Shifted(mem, MAX_ROWS - 1), ROW_BYTES) == ScrolledMemory(mem)
  {
  }

  /** Video memory and cell index after printing `c` at cell `pos`. */
  function Printed(mem: seq<bv8>, pos: nat, c: bv8, attr: bv8): (seq<bv8>, nat)
    requires |mem| == MEMORY && pos < SCREEN
  {
    var stored := Stored(mem, pos, c, attr);
    var next := if c == NEWLINE then (pos / MAX_COLS + 1) * MAX_COLS else pos + 1;
    if next >= SCREEN then (ScrolledMemory(stored), next - MAX_COLS) else (stored, next)
  }

  lemma StoredBytes(mem: seq<bv8>, pos: nat, c: bv8, attr: bv8)
    requires |mem| == MEMORY && pos < SCREEN
    ensures |Stored(mem, pos, c, attr)| == MEMORY
    ensures Stored(mem, pos, c, attr) == if c == NEWLINE then mem else mem[2 * pos := c][2 * pos + 1 := attr]
  {
  }

  lemma StoredCells(mem: seq<bv8>, pos: nat, c: bv8, attr: bv8)
    requires |mem| == MEMORY && pos < SCREEN
    ensures Cells(Stored(mem, pos, c, attr)) == Written(Cells(mem), pos, c)
  {
  }

  lemma ScrolledCells(mem: seq<bv8>)
    requires |mem| == MEMORY
    ensures Cells(ScrolledMemory(mem)) == Scrolled(Cells(mem), MAX_COLS)
  {
  }

  /** The bytes of video memory after a print: the character and its attribute at the position, nothing else
      changed; or, when that was the last cell, everything one row higher and the last row zero. */
  ghost predicate BytesAfter(a: seq<bv8>, b: seq<bv8>, pos: nat, c: bv8, attr: bv8)
    requires |a| == MEMORY && |b| == MEMORY && pos < SCREEN
  {
    if pos + 1 < SCREEN then
      && b[2 * pos] == c && b[2 * pos + 1] == attr
      && forall k :: 0 <= k < MEMORY && k != 2 * pos && k != 2 * pos + 1 ==> b[k] == a[k]
    else
      && b[2 * (pos - 80)] == c && b[2 * (pos - 80) + 1] == attr
      && (forall k :: 0 <= k < MEMORY - 160 && k != 2 * (pos - 80) && k != 2 * (pos - 80) + 1 ==> b[k] == a[k + 160])
      && (forall k :: MEMORY - 160 <= k < MEMORY ==> b[k] == 0)
  }

  lemma PrintedBytes(mem: seq<bv8>, pos: nat, c: bv8, attr: bv8)
    requires |mem| == MEMORY && pos < SCREEN && c != 10
    ensures var (mem', next) := Printed(mem, pos, c, attr);
      && |mem'| == MEMORY && BytesAfter(mem, mem', pos, c, attr)
      && next == if pos + 1 < SCREEN then pos + 1 else SCREEN - 80
  {
    StoredBytes(mem, pos, c, attr);
    hide Stored;
  }

  /** A newline writes nothing and goes to the next row. */
  lemma PrintedNewline(mem: seq<bv8>, pos: nat, attr: bv8)
    requires |mem| == MEMORY && pos < SCREEN
    ensures pos / 80 < 24 ==> Printed(mem, pos, 10, attr) == (mem, (pos / 80 + 1) * 80)
  {
    StoredBytes(mem, pos, 10, attr);
    hide Stored, ScrolledMemory;
  }

  /** A red E in the last cell. */
  function Marked(mem: seq<bv8>): (r: seq<bv8>)
    requires |mem| == MEMORY
    ensures |r| == MEMORY
  {
    mem[MEMORY - 2 := ERROR_MARK][MEMORY - 1 := RED_ON_WHITE]
  }

  /** The mark is a red E on white in the bottom right corner. */
  lemma MarkedCorner(mem: seq<bv8>)
    requires |mem| == MEMORY
    ensures Marked(mem)[3998] as char == 'E' && Marked(mem)[3999] == 0xF4 && Marked(mem)[..3998] == mem[..3998]
  {
  }

  lemma MarkedTwice(mem: seq<bv8>)
    requires |mem| == MEMORY
    ensures Marked(Marked(mem)) == Marked(mem)
  {
  }

  /** The terminal on the screen. */
  function Screen(mem: seq<bv8>, cursor: nat): Terminal
    requires |mem| == MEMORY
  {
    Terminal(MAX_COLS, MAX_ROWS, Cells(mem), cursor)
  }

  /** Printing on the VGA screen is printing on the terminal. */
  lemma PrintedRefines(mem: seq<bv8>, cursor: nat, pos: nat, c: bv8, attr: bv8)
    requires |mem| == MEMORY && pos < SCREEN
    ensures var (mem', next) := Printed(mem, pos, c, attr);
      |mem'| == MEMORY && Screen(mem', next) == PrintAt(Screen(mem, cursor), pos, c)
  {
    StoredCells(mem, pos, c, attr);
    ScrolledCells(Stored(mem, pos, c, attr));
    hide Cells, Scrolled, Written;
  }

  lemma ScreenCursor(mem: seq<bv8>, k: nat, cursor: nat)
    requires |mem| == MEMORY
    ensures Screen(mem, k).cursor == k && Screen(mem, k).(cursor := cursor) == Screen(mem, cursor)
  {
    hide Cells;
  }

  lemma PrintedOnScreen(mem: seq<bv8>, pos: nat, c: bv8, attr: bv8)
    requires |mem| == MEMORY && pos < SCREEN
    ensures Printed(mem, pos, c, attr).1 < SCREEN
  {
  }

  class VgaConsole {
    const vidmem: array<bv8>
    var cursorHigh: nat      // register 14
    var cursorLow: nat       // register 15
    var autoCursor: bool

    ghost predicate Valid()
      reads this
    {
      vidmem.Length == MEMORY && cursorHigh < 256 && cursorLow < 256
    }

    /** The cell the hardware cursor is at. */
    function Cursor(): nat
      reads this
    {
      256 * cursorHigh + cursorLow
    }

    ghost function View(): Terminal
      reads this, vidmem
      requires Valid()
    {
      Screen(vidmem[..], Cursor())
    }

    constructor ()
      ensures Valid() && autoCursor && Cursor() == 0 && fresh(vidmem)
    {
      vidmem := new bv8[MEMORY](_ => 0);
      cursorHigh, cursorLow, autoCursor := 0, 0, true;
    }

    /** set_cursor_offset: the position goes to the registers byte by byte. */
    method SetCursorOffset(offset: nat)
      requires Valid() && offset / 2 < 65536
      modifies this`cursorHigh, this`cursorLow
      ensures Valid() && Cursor() == offset / 2
    {
      cursorHigh := (offset / 2) / 256 % 256;
      cursorLow := (offset / 2) % 256;
    }

    /** get_cursor_offset */
    method GetCursorOffset() returns (offset: nat)
      requires Valid()
      ensures offset == 2 * Cursor()
    {
      offset := (cursorHigh * 256 + cursorLow) * 2;
    }

    /** memory_copy within video memory, for any two ranges. */
    method MemoryCopy(dest: nat, src: nat, n: nat)
      requires Valid() && dest + n <= MEMORY && src + n <= MEMORY
      modifies vidmem
      ensures vidmem[..] == Copied(old(vidmem[..]), dest, src, n)
    {
      hide Copied, OriginIn;
      ghost var was := vidmem[..];
      CopyNothing(was, dest, src);
      for k := 0 to n
        invariant vidmem[..] == Copied(was, dest, src, k)
      {
        CopyByte(was, dest, src, k);
        vidmem[dest + k] := vidmem[src + k];
        assert vidmem[..] == Copied(was, dest, src, k)[dest + k := was[OriginIn(dest, src, k)]];
      }
    }

    method Scroll()
      requires Valid()
      modifies vidmem
      ensures vidmem[..] == ScrolledMemory(old(vidmem[..]))
    {
      ghost var was := vidmem[..];
      assert was == Shifted(was, 0);
      for i := 1 to MAX_ROWS
        invariant vidmem[..] == Shifted(was, i - 1)
      {
        MemoryCopy((i - 1) * ROW_BYTES, i * ROW_BYTES, ROW_BYTES);
        ShiftRow(was, i);
      }
      BlankLastRow();
      ShiftedThenBlanked(was);
    }

    method BlankLastRow()
      requires Valid()
      modifies vidmem
      ensures vidmem[..] == Blanked(old(vidmem[..]), ROW_BYTES)
    {
      ghost var was := vidmem[..];
      for i := 0 to ROW_BYTES
        invariant vidmem[..] == Blanked(was, i)
      {
        vidmem[MEMORY - ROW_BYTES + i] := 0;
        assert vidmem[..] == Blanked(was, i)[MEMORY - ROW_BYTES + i := 0];
      }
    }

    /** Does the position name a cell: a point of the grid, or "at the cursor"? */
    ghost predicate OnScreen(col: int, row: int)
      reads this
    {
      col < MAX_COLS && row < MAX_ROWS && (col < 0 || row < 0 ==> Cursor() < SCREEN)
    }

    ghost function Target(col: int, row: int): nat
      reads this
    {
      if col >= 0 && row >= 0 then Index(MAX_COLS, col, row) else Cursor()
    }

    /** print_char on the VGA path. A position right of or below the grid prints a red E in the
        last cell and nothing else. */
    method PrintChar(c: bv8, col: int, row: int, attr: bv8) returns (offset: int)
      requires Valid() && (col < 0 || row < 0 ==> Cursor() < SCREEN)
      modifies this`cursorHigh, this`cursorLow, vidmem
      ensures Valid()
      ensures !(col < MAX_COLS && row < MAX_ROWS) ==>
        && vidmem[..] == Marked(old(vidmem[..]))
        && Cursor() == old(Cursor()) && offset == 2 * (row * MAX_COLS + col)
      ensures col < MAX_COLS && row < MAX_ROWS ==>
        && old(Target(col, row)) < SCREEN
        && (vidmem[..], offset) == (Printed(old(vidmem[..]), old(Target(col, row)), c, Attribute(attr)).0,
                                    2 * Printed(old(vidmem[..]), old(Target(col, row)), c, Attribute(attr)).1)
        && Cursor() == if autoCursor then offset / 2 else old(Cursor())
      ensures col < MAX_COLS && row < MAX_ROWS && c != 10 ==>
        BytesAfter(old(vidmem[..]), vidmem[..], old(Target(col, row)), c, if attr == 0 then 0x0F else attr)
    {
      hide Printed, BytesAfter;
      if col >= MAX_COLS || row >= MAX_ROWS {
        vidmem[MEMORY - 2] := ERROR_MARK;
        vidmem[MEMORY - 1] := RED_ON_WHITE;
        return 2 * (row * MAX_COLS + col);
      }
      var at: nat;
      if col >= 0 && row >= 0 {
        at := 2 * (row * MAX_COLS + col);
      } else {
        at := GetCursorOffset();
      }
      if c != 10 { PrintedBytes(vidmem[..], at / 2, c, Attribute(attr)); }
      offset := PutCell(c, at, Attribute(attr));
      if autoCursor {
        SetCursorOffset(offset);
      }
    }

    /** The cell write, the newline and the scroll. */
    method PutCell(c: bv8, at: nat, attr: bv8) returns (offset: nat)
      requires Valid() && at % 2 == 0 && at / 2 < SCREEN
      modifies vidmem
      ensures (vidmem[..], offset) == (Printed(old(vidmem[..]), at / 2, c, attr).0,
                                       2 * Printed(old(vidmem[..]), at / 2, c, attr).1)
      ensures offset / 2 < SCREEN
    {
      hide Stored, ScrolledMemory;
      offset := at;
      StoredBytes(vidmem[..], at / 2, c, attr);
      if c == NEWLINE {
        var row := offset / (2 * MAX_COLS);
        offset := 2 * ((row + 1) * MAX_COLS);
      } else {
        vidmem[offset] := c;
        vidmem[offset + 1] := attr;
        offset := offset + 2;
      }
      assert vidmem[..] == Stored(old(vidmem[..]), at / 2, c, attr);
      if offset >= MAX_ROWS * MAX_COLS * 2 {
        Scroll();
        offset := offset - 2 * MAX_COLS;
      }
    }

    /** The terminal as printed, its cursor left alone when the cursor is not automatic. */
    ghost function AsShown(t: Terminal, cursor: nat): Terminal
      reads this
    {
      if autoCursor then t else t.(cursor := cursor)
    }

    /** print_char seen as a terminal: printing at a point of the grid, or at the cursor, prints
        there, and the offset returned is where printing goes on. */
    method PrintOnTerminal(c: bv8, col: int, row: int, attr: bv8) returns (offset: nat)
      requires Valid() && OnScreen(col, row)
      modifies this`cursorHigh, this`cursorLow, vidmem
      ensures Valid() && old(Target(col, row)) < SCREEN
      ensures var t := PrintAt(old(View()), old(Target(col, row)), c);
        View() == AsShown(t, old(Cursor())) && offset == 2 * t.cursor
      ensures offset % 2 == 0 && offset / 2 < SCREEN
    {
      hide PrintAt, Cells, Printed, Index, Screen;
      ghost var mem, cursor, pos := vidmem[..], Cursor(), Target(col, row);
      TargetOnScreen(col, row);
      PrintedRefines(mem, cursor, pos, c, Attribute(attr));
      PrintedOnScreen(mem, pos, c, Attribute(attr));
      offset := PrintChar(c, col, row, attr);
      ScreenCursor(vidmem[..], offset / 2, cursor);
    }

    lemma TargetOnScreen(col: int, row: int)
      requires Valid() && OnScreen(col, row)
      ensures Target(col, row) < SCREEN
    {
    }

    /** get_vga_offset_row and get_vga_offset_col */
    method RowAndColumnOf(offset: nat) returns (col: int, row: int)
      requires offset % 2 == 0 && offset / 2 < SCREEN
      ensures 0 <= col < MAX_COLS && 0 <= row < MAX_ROWS && Index(MAX_COLS, col, row) == offset / 2
    {
      row := offset / (2 * MAX_COLS);
      col := (offset - row * 2 * MAX_COLS) / 2;
    }

    /** kprint_at, and kprint with a negative position: print from the given cell or from the
        cursor, each character where the offset returned by the last one says. From a point right of
        or below the grid the first character is lost to the error mark; the others go where its
        offset says, or are lost too when that is below the grid. */
    method KPrintAt(message: seq<bv8>, col: int, row: int)
      requires Valid() && (col < 0 || row < 0 ==> Cursor() < SCREEN)
      modifies this`cursorHigh, this`cursorLow, vidmem
      ensures Valid() && (old(Target(col, row)) < SCREEN ==> Wf(old(View()).(cursor := old(Target(col, row)))))
      ensures message == [] ==> vidmem[..] == old(vidmem[..]) && View() == old(View())
      ensures message != [] && OnGridOrCursor(col, row) ==>
        && old(Target(col, row)) < SCREEN
        && View() == AsShown(PrintAll(old(View()).(cursor := old(Target(col, row))), message), old(Cursor()))
      ensures message != [] && !OnGridOrCursor(col, row) && Index(MAX_COLS, col, row) >= SCREEN ==>
        vidmem[..] == Marked(old(vidmem[..])) && Cursor() == old(Cursor())
      ensures message != [] && !OnGridOrCursor(col, row) && Index(MAX_COLS, col, row) < SCREEN ==>
        var start := Screen(Marked(old(vidmem[..])), Index(MAX_COLS, col, row));
        && Wf(start)
        && View() == if |message| == 1 then start.(cursor := old(Cursor()))
                     else AsShown(PrintAll(start, message[1..]), old(Cursor()))
    {
      hide PrintAt, PrintAll, Wf, Cells, Index;
      if Target(col, row) < SCREEN { CursorWf(Target(col, row)); }
      if col < 0 || row < 0 {
        var offset := GetCursorOffset();
        var c, r := RowAndColumnOf(offset);
        PrintFrom(message, c, r);
      } else if col < MAX_COLS && row < MAX_ROWS {
        TargetOnScreen(col, row);
        PrintFrom(message, col, row);
      } else {
        PrintOff(message, col, row);
      }
    }

    predicate OnGridOrCursor(col: int, row: int) {
      col < 0 || row < 0 || (col < MAX_COLS && row < MAX_ROWS)
    }

    /** The loop of kprint_at from a point off the grid. */
    method PrintOff(message: seq<bv8>, col: nat, row: nat)
      requires Valid() && !(col < MAX_COLS && row < MAX_ROWS)
      modifies this`cursorHigh, this`cursorLow, vidmem
      ensures Valid()
      ensures message == [] ==> vidmem[..] == old(vidmem[..]) && Cursor() == old(Cursor())
      ensures message != [] && Index(MAX_COLS, col, row) >= SCREEN ==>
        vidmem[..] == Marked(old(vidmem[..])) && Cursor() == old(Cursor())
      ensures message != [] && Index(MAX_COLS, col, row) < SCREEN ==>
        var start := Screen(Marked(old(vidmem[..])), Index(MAX_COLS, col, row));
        && Wf(start)
        && View() == if |message| == 1 then start.(cursor := old(Cursor()))
                     else AsShown(PrintAll(start, message[1..]), old(Cursor()))
    {
      hide PrintAt, PrintAll, Wf, Cells, Index;
      if message == [] { return; }
      var offset := PrintChar(message[0], col, row, WHITE_ON_BLACK);
      OffsetOfPoint(col, row);
      var r := offset / (2 * MAX_COLS);
      var c := (offset - r * 2 * MAX_COLS) / 2;
      if r < MAX_ROWS {
        assert message[1..] == [] <==> |message| == 1;
        PrintFrom(message[1..], c, r);
      } else {
        var i := 1;
        while i < |message|
          invariant 1 <= i <= |message| && Valid() && r >= MAX_ROWS && 0 <= c < MAX_COLS
          invariant vidmem[..] == Marked(old(vidmem[..])) && Cursor() == old(Cursor())
        {
          MarkedTwice(old(vidmem[..]));
          offset := PrintChar(message[i], c, r, WHITE_ON_BLACK);
          r := offset / (2 * MAX_COLS);
          c := (offset - r * 2 * MAX_COLS) / 2;
          i := i + 1;
        }
      }
    }

    /** The offset of a point names its position, on the grid or not. */
    lemma OffsetOfPoint(col: nat, row: nat)
      ensures var offset := 2 * (row * MAX_COLS + col); var r := offset / (2 * MAX_COLS);
        var c := (offset - r * 2 * MAX_COLS) / 2;
        && 0 <= c < MAX_COLS && Index(MAX_COLS, c, r) == Index(MAX_COLS, col, row)
        && (r < MAX_ROWS <==> Index(MAX_COLS, col, row) < SCREEN)
    {
    }

    /** The loop of kprint_at. */
    method PrintFrom(message: seq<bv8>, col: int, row: int)
      requires Valid() && 0 <= col < MAX_COLS && 0 <= row < MAX_ROWS
      modifies this`cursorHigh, this`cursorLow, vidmem
      ensures Valid() && Wf(old(View()).(cursor := Index(MAX_COLS, col, row)))
      ensures message != [] ==>
        View() == AsShown(PrintAll(old(View()).(cursor := Index(MAX_COLS, col, row)), message), old(Cursor()))
      ensures message == [] ==> vidmem[..] == old(vidmem[..]) && View() == old(View())
    {
      hide PrintAt, PrintAll, Wf, Cells, Index;
      StartWf(col, row);
      ghost var start := View().(cursor := Index(MAX_COLS, col, row));
      var c, r, i := col, row, 0;
      PrintAllNothing(start);
      while i < |message|
        invariant i <= |message| && Valid() && 0 <= c < MAX_COLS && 0 <= r < MAX_ROWS
        invariant View().(cursor := Index(MAX_COLS, c, r)) == PrintAll(start, message[..i])
        invariant if i == 0 then vidmem[..] == old(vidmem[..]) && View() == old(View())
                  else Cursor() == if autoCursor then Index(MAX_COLS, c, r) else old(Cursor())
      {
        ghost var before := View();
        PrintAllNext(start, message, i);
        PrintAtIgnoresCursor(before, Index(MAX_COLS, c, r), Index(MAX_COLS, c, r), message[i]);
        var offset := PrintOnTerminal(message[i], c, r, WHITE_ON_BLACK);
        c, r := RowAndColumnOf(offset);
        i := i + 1;
      }
      assert message[..|message|] == message;
    }

    lemma CursorWf(k: nat)
      requires Valid() && k < SCREEN
      ensures Wf(View().(cursor := k))
    {
    }

    lemma StartWf(col: nat, row: nat)
      requires Valid() && col < MAX_COLS && row < MAX_ROWS
      ensures Wf(View().(cursor := Index(MAX_COLS, col, row)))
    {
    }

    /** clear_screen */
    method ClearScreen()
      requires Valid()
      modifies this`cursorHigh, this`cursorLow, vidmem
      ensures Valid() && View() == Cleared(MAX_COLS, MAX_ROWS)
    {
      for i := 0 to SCREEN
        invariant Valid()
        invariant forall k :: 0 <= k < i ==> vidmem[2 * k] == BLANK && vidmem[2 * k + 1] == WHITE_ON_BLACK
      {
        vidmem[i * 2] := BLANK;
        vidmem[i * 2 + 1] := WHITE_ON_BLACK;
      }
      SetCursorOffset(0);
      assert Cells(vidmem[..]) == Blanks(SCREEN);
    }
  }

  /** A zero attribute means white on black. */
  function Attribute(attr: bv8): bv8 {
    if attr == 0 then WHITE_ON_BLACK else attr
  }
}
