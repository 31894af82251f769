/**
 The terminal both console back ends implement: a grid of characters in row-major order and
 a cursor position. Printing wraps at the right edge, a newline goes to the next row, and
 the grid scrolls by one row at the bottom. A NUL shows as a space.
 */
module Terminal {

  const NEWLINE: bv8 := 10
  const BLANK: bv8 := 32

  datatype Terminal = Terminal(cols: nat, rows: nat, cells: seq<bv8>, cursor: nat)

  /** Row-major index. */
  function Index(width: nat, x: nat, y: nat): nat {
    y * width + x
  }

  ghost predicate Wf(t: Terminal) {
    && t.cols > 0 && t.rows > 0
    && |t.cells| == Index(t.cols, 0, t.rows) && t.cursor < |t.cells|
  }

  function Shown(c: bv8): bv8 {
    if c == 0 then BLANK else c
  }

  function Blanks(n: nat): (r: seq<bv8>)
    ensures |r| == n && forall i :: 0 <= i < n ==> r[i] == BLANK
  {
    seq(n, i => BLANK)
  }

  function Cleared(cols: nat, rows: nat): Terminal {
    Terminal(cols, rows, Blanks(Index(cols, 0, rows)), 0)
  }

  /** Where the next character goes, before any scrolling. */
  function Advance(cols: nat, pos: nat, c: bv8): nat
    requires cols > 0
  {
    if c == NEWLINE then Index(cols, 0, pos / cols + 1) else pos + 1
  }

  function Written(cells: seq<bv8>, pos: nat, c: bv8): seq<bv8>
    requires pos < |cells|
  {
    if c == NEWLINE then cells else cells[pos := Shown(c)]
  }

  /** One row up, a blank row at the bottom. */
  function Scrolled(cells: seq<bv8>, cols: nat): seq<bv8>
    requires cols <= |cells|
  {
    cells[cols..] + Blanks(cols)
  }

  /** Print `c` at `pos` and leave the cursor behind it. */
  function PrintAt(t: Terminal, pos: nat, c: bv8): Terminal
    requires t.cols > 0 && pos < |t.cells| && t.cols <= |t.cells|
  {
    var next := Advance(t.cols, pos, c);
    var cells := Written(t.cells, pos, c);
    if next >= |t.cells| then t.(cells := Scrolled(cells, t.cols), cursor := next - t.cols)
    else t.(cells := cells, cursor := next)
  }

  // ---- Rows and columns ----

  lemma IndexStep(width: nat, x: nat, y: nat)
    ensures Index(width, x, y + 1) == Index(width, x, y) + width
    ensures Index(width, x, y) == Index(width, 0, y) + x
  {
  }

  lemma IndexMonotone(width: nat, y: nat, y': nat)
    requires y <= y'
    ensures Index(width, 0, y) <= Index(width, 0, y')
  {
  }

  /** A point in range has an index in range, and different points have different indices. */
  lemma IndexInRange(width: nat, height: nat, x: nat, y: nat)
    requires x < width && y < height
    ensures Index(width, x, y) < Index(width, 0, height)
  {
    IndexStep(width, x, y);
    IndexStep(width, 0, y);
    IndexMonotone(width, y + 1, height);
  }

  lemma IndexInjective(width: nat, x: nat, y: nat, x': nat, y': nat)
    requires x < width && x' < width && Index(width, x, y) == Index(width, x', y')
    ensures x == x' && y == y'
  {
    IndexStep(width, x, y);
    IndexStep(width, x', y');
    IndexStep(width, 0, y);
    IndexStep(width, 0, y');
    hide Index;
    if y < y' {
      IndexMonotone(width, y + 1, y');
    } else if y' < y {
      IndexMonotone(width, y' + 1, y);
    }
  }

  /** Column and row of an index: the two conversions are inverse to each other on the grid. */
  lemma RowAndColumn(cols: nat, rows: nat, pos: nat)
    requires cols > 0 && pos < Index(cols, 0, rows)
    ensures pos % cols < cols && pos / cols < rows && Index(cols, pos % cols, pos / cols) == pos
  {
  }

  lemma PositionOfPoint(cols: nat, x: nat, y: nat)
    requires x < cols
    ensures Index(cols, x, y) % cols == x && Index(cols, x, y) / cols == y
  {
    var pos := Index(cols, x, y);
    RowAndColumn(cols, y + 1, pos) by { IndexStep(cols, x, y); IndexStep(cols, 0, y); }
    IndexInjective(cols, x, y, pos % cols, pos / cols);
  }

  // ---- The cursor stays inside the grid ----

  lemma AdvanceBound(cols: nat, rows: nat, pos: nat, c: bv8)
    requires cols > 0 && pos < Index(cols, 0, rows)
    ensures pos < Advance(cols, pos, c) <= Index(cols, 0, rows)
  {
    RowAndColumn(cols, rows, pos);
    IndexStep(cols, pos % cols, pos / cols);
    IndexStep(cols, 0, pos / cols);
    hide Index;
    IndexMonotone(cols, pos / cols + 1, rows);
  }

  lemma GridHasRow(cols: nat, rows: nat)
    requires rows > 0
    ensures Index(cols, 0, rows) >= cols
  {
  }

  /** Printing keeps the grid and the cursor well formed. */
  lemma PrintAtWf(t: Terminal, pos: nat, c: bv8)
    requires Wf(t) && pos < |t.cells|
    ensures t.cols <= |t.cells| && Wf(PrintAt(t, pos, c))
  {
    AdvanceBound(t.cols, t.rows, pos, c);
    GridHasRow(t.cols, t.rows);
    hide Index, Advance;
  }

  // ---- Strings ----

  /** kprint: every character goes where the last one left the cursor. */
  ghost function PrintAll(t: Terminal, s: seq<bv8>): (r: Terminal)
    requires Wf(t)
    ensures Wf(r)
    decreases |s|
  {
    if s == [] then t
    else
      PrintAtWf(t, t.cursor, s[0]);
      PrintAll(PrintAt(t, t.cursor, s[0]), s[1..])
  }

  /** Printing is compositional: one string after the other is their concatenation. */
  lemma {:induction false} PrintAllComposes(t: Terminal, a: seq<bv8>, b: seq<bv8>)
    requires Wf(t)
    ensures PrintAll(t, a + b) == PrintAll(PrintAll(t, a), b)
    decreases |a|
  {
    hide Index, PrintAt;
    if a == [] {
      assert a + b == b;
    } else {
      assert (a + b)[0] == a[0] && (a + b)[1..] == a[1..] + b;
      PrintAtWf(t, t.cursor, a[0]);
      PrintAllComposes(PrintAt(t, t.cursor, a[0]), a[1..], b);
    }
  }

  lemma PrintAllNothing(t: Terminal)
    requires Wf(t)
    ensures forall s: seq<bv8> :: s == [] ==> PrintAll(t, s) == t
  {
  }

  lemma PrintAllOne(t: Terminal, c: bv8)
    requires Wf(t)
    ensures t.cols > 0 && t.cursor < |t.cells| && t.cols <= |t.cells| && PrintAll(t, [c]) == PrintAt(t, t.cursor, c)
  {
    hide Index, PrintAt;
    PrintAtWf(t, t.cursor, c);
    assert [c][1..] == [];
  }

  /** The loop over a string, one character further. */
  lemma PrintAllNext(t: Terminal, s: seq<bv8>, i: nat)
    requires Wf(t) && i < |s|
    ensures var u := PrintAll(t, s[..i]);
      && u.cols > 0 && u.cursor < |u.cells| && u.cols <= |u.cells|
      && PrintAll(t, s[..i + 1]) == PrintAt(u, u.cursor, s[i])
  {
    hide Wf, PrintAt, PrintAll;
    assert s[..i + 1] == s[..i] + [s[i]];
    PrintAllComposes(t, s[..i], [s[i]]);
    PrintAllOne(PrintAll(t, s[..i]), s[i]);
  }

  /** The cursor has no influence on printing at an explicit position. */
  lemma PrintAtIgnoresCursor(t: Terminal, k: nat, pos: nat, c: bv8)
    requires t.cols > 0 && pos < |t.cells| && t.cols <= |t.cells|
    ensures PrintAt(t.(cursor := k), pos, c) == PrintAt(t, pos, c)
  {
  }

  // ---- Printing in rows and columns ----

  /** Column and row after `c` was printed at a point, before scrolling. */
  function NextColumn(cols: nat, x: nat, c: bv8): nat {
    if c == NEWLINE || x + 1 >= cols then 0 else x + 1
  }

  function NextRow(cols: nat, x: nat, y: nat, c: bv8): nat {
    if c == NEWLINE || x + 1 >= cols then y + 1 else y
  }

  /** Advancing a position is advancing its column and row, and the grid must scroll exactly when
      the row leaves it. */
  lemma AdvancePoint(cols: nat, rows: nat, x: nat, y: nat, c: bv8)
    requires x < cols && y < rows
    ensures Index(cols, x, y) < Index(cols, 0, rows)
    ensures var next := Advance(cols, Index(cols, x, y), c);
      var x', y' := NextColumn(cols, x, c), NextRow(cols, x, y, c);
      && next == Index(cols, x', y') && x' < cols && y' <= rows
      && (next >= Index(cols, 0, rows) <==> y' == rows)
      && (y' == rows ==> next >= cols && next - cols == Index(cols, x', rows - 1))
  {
    IndexInRange(cols, rows, x, y);
    PositionOfPoint(cols, x, y);
    IndexStep(cols, x, y);
    IndexStep(cols, 0, y);
    var x', y' := NextColumn(cols, x, c), NextRow(cols, x, y, c);
    if y' < rows { IndexInRange(cols, rows, x', y'); }
    IndexStep(cols, x + 1, y);
    hide Index;
  }

  /** The character in the cell of a point, when the point is on the grid. */
  function WrittenAt(cells: seq<bv8>, cols: nat, rows: nat, x: nat, y: nat, c: bv8): (r: seq<bv8>)
    ensures |r| == |cells|
  {
    if x < cols && y < rows && Index(cols, x, y) < |cells| then Written(cells, Index(cols, x, y), c) else cells
  }

  /** Print at any point: off the grid nothing is shown, but the cursor goes on from there, and the
      grid scrolls when the next row lies below it. */
  function PrintAtPoint(t: Terminal, x: nat, y: nat, c: bv8): Terminal
    requires t.rows > 0 && t.cols <= |t.cells|
  {
    var x', y' := NextColumn(t.cols, x, c), NextRow(t.cols, x, y, c);
    var cells := WrittenAt(t.cells, t.cols, t.rows, x, y, c);
    if y' >= t.rows then t.(cells := Scrolled(cells, t.cols), cursor := Index(t.cols, x', t.rows - 1))
    else t.(cells := cells, cursor := Index(t.cols, x', y'))
  }

  /** On the grid that is printing at the point's position. */
  lemma PrintAtPointOnGrid(t: Terminal, x: nat, y: nat, c: bv8)
    requires |t.cells| == Index(t.cols, 0, t.rows) && x < t.cols && y < t.rows && t.cols <= |t.cells|
    ensures Index(t.cols, x, y) < |t.cells| && PrintAtPoint(t, x, y, c) == PrintAt(t, Index(t.cols, x, y), c)
  {
    AdvancePoint(t.cols, t.rows, x, y, c);
    hide Index, Advance, Written, Scrolled;
  }

  lemma PrintAtPointWf(t: Terminal, x: nat, y: nat, c: bv8)
    requires Wf(t)
    ensures t.cols <= |t.cells| && Wf(PrintAtPoint(t, x, y, c))
  {
    GridHasRow(t.cols, t.rows);
    var x', y' := NextColumn(t.cols, x, c), NextRow(t.cols, x, y, c);
    IndexInRange(t.cols, t.rows, x', if y' < t.rows then y' else t.rows - 1);
    hide Index, WrittenAt;
  }

  // ---- What is on the screen after printing ----

  /** A character shows as itself, a NUL as a space; no other cell changes while the grid has room, and
      when it scrolls every row moves up by one and the last one is blank. A newline shows nothing. */
  lemma PrintedCells(t: Terminal, pos: nat, c: bv8)
    requires Wf(t) && pos < |t.cells|
    ensures t.cols <= |t.cells|
    ensures var u := PrintAt(t, pos, c); var n := |t.cells|; var shown: bv8 := if c == 0 then 32 else c;
      && |u.cells| == n
      && (c != 10 && pos + 1 < n ==>
            && u.cursor == pos + 1 && u.cells[pos] == shown
            && forall i :: 0 <= i < n && i != pos ==> u.cells[i] == t.cells[i])
      && (c != 10 && pos + 1 == n ==>
            && u.cursor == n - t.cols && (t.cols <= pos ==> u.cells[pos - t.cols] == shown)
            && (forall i :: 0 <= i < n - t.cols && i + t.cols != pos ==> u.cells[i] == t.cells[i + t.cols])
            && (forall i :: n - t.cols <= i < n ==> u.cells[i] == 32))
  {
    GridHasRow(t.cols, t.rows);
    hide Index;
  }

  /** A newline goes to the start of the next row, and scrolls a row up below the last one. */
  lemma PrintedNewline(t: Terminal, x: nat, y: nat)
    requires Wf(t) && x < t.cols && y < t.rows
    ensures Index(t.cols, x, y) < |t.cells| && t.cols <= |t.cells|
    ensures var u := PrintAt(t, Index(t.cols, x, y), 10); var n := |t.cells|;
      && |u.cells| == n
      && (y + 1 < t.rows ==> u == t.(cursor := Index(t.cols, 0, y + 1)))
      && (y + 1 == t.rows ==>
            && u.cursor == Index(t.cols, 0, y)
            && (forall i :: 0 <= i < n - t.cols ==> u.cells[i] == t.cells[i + t.cols])
            && (forall i :: n - t.cols <= i < n ==> u.cells[i] == 32))
  {
    GridHasRow(t.cols, t.rows);
    AdvancePoint(t.cols, t.rows, x, y, 10);
    if y + 1 < t.rows {
      NextRowStarts(t.cols, t.rows, y);
    }
    hide Index, Advance;
  }

  lemma NextRowStarts(cols: nat, rows: nat, y: nat)
    requires cols > 0 && y + 1 < rows
    ensures Index(cols, 0, y + 1) < Index(cols, 0, rows)
  {
    IndexInRange(cols, rows, 0, y + 1);
  }

  lemma ClearedCells(cols: nat, rows: nat)
    ensures var t := Cleared(cols, rows);
      |t.cells| == Index(cols, 0, rows) && t.cursor == 0 && forall i :: 0 <= i < |t.cells| ==> t.cells[i] == 32
  {
    hide Index;
  }

  /** Bytes that show as themselves. */
  predicate Visible(s: seq<bv8>) {
    forall i :: 0 <= i < |s| ==> s[i] != 0 && s[i] != 10
  }

  /** `s` stands in the cells from `at` on, and no other cell differs from `a`. */
  ghost predicate Stands(a: seq<bv8>, b: seq<bv8>, at: nat, s: seq<bv8>) {
    && |a| == |b| && at + |s| <= |b|
    && (forall j :: 0 <= j < |s| ==> b[at + j] == s[j])
    && (forall i :: 0 <= i < |b| && (i < at || at + |s| <= i) ==> b[i] == a[i])
  }

  /** A text that fits before the last cell stands where it was printed. */
  lemma {:induction false} PrintText(t: Terminal, s: seq<bv8>)
    requires Wf(t) && Visible(s) && t.cursor + |s| < |t.cells|
    ensures var u := PrintAll(t, s);
      Stands(t.cells, u.cells, t.cursor, s) && u == t.(cells := u.cells, cursor := t.cursor + |s|)
    decreases |s|
  {
    hide Index, PrintAt, Wf;
    if s == [] {
      PrintAllNothing(t);
    } else {
      PrintAllFirst(t, s);
      PrintedCells(t, t.cursor, s[0]);
      PrintAtSame(t, t.cursor, s[0]);
      var t1 := PrintAt(t, t.cursor, s[0]);
      PrintText(t1, s[1..]);
      TextStands(t.cells, t1.cells, PrintAll(t1, s[1..]).cells, t.cursor, s);
    }
  }

  lemma PrintAllFirst(t: Terminal, s: seq<bv8>)
    requires Wf(t) && s != []
    ensures t.cols > 0 && t.cursor < |t.cells| && t.cols <= |t.cells| && Wf(PrintAt(t, t.cursor, s[0]))
    ensures PrintAll(t, s) == PrintAll(PrintAt(t, t.cursor, s[0]), s[1..])
  {
    hide Index, PrintAt;
    PrintAtWf(t, t.cursor, s[0]);
  }

  lemma PrintAtSame(t: Terminal, pos: nat, c: bv8)
    requires Wf(t) && pos < |t.cells| && t.cols <= |t.cells|
    ensures var u := PrintAt(t, pos, c); u == t.(cells := u.cells, cursor := u.cursor)
  {
    hide Index;
  }

  lemma TextStands(a: seq<bv8>, b: seq<bv8>, d: seq<bv8>, at: nat, s: seq<bv8>)
    requires s != [] && at < |a| == |b| && b[at] == s[0]
    requires forall i :: 0 <= i < |a| && i != at ==> b[i] == a[i]
    requires Stands(b, d, at + 1, s[1..])
    ensures Stands(a, d, at, s)
  {
    forall j | 0 <= j < |s| ensures d[at + j] == s[j] {
      if j > 0 { assert d[at + 1 + (j - 1)] == s[1..][j - 1]; }
    }
  }

  /** Lines, each ended by a newline. */
  function Joined(lines: seq<seq<bv8>>): seq<bv8> {
    if lines == [] then [] else Joined(lines[..|lines| - 1]) + lines[|lines| - 1] + [10]
  }

  /** Line `k` stands at the start of row `y + k`. */
  ghost predicate OnRow(t: Terminal, y: nat, lines: seq<seq<bv8>>, k: nat)
    requires k < |lines|
  {
    forall j: nat :: j < |lines[k]| ==>
      Index(t.cols, j, y + k) < |t.cells| && t.cells[Index(t.cols, j, y + k)] == lines[k][j]
  }

  /** Lines shorter than the grid is wide, printed with newlines from the start of a row with enough rows below
      it, each stand on a row of their own from column 0, and the cursor is at the start of the next row. */
  lemma {:induction false} PrintLines(t: Terminal, y: nat, lines: seq<seq<bv8>>)
    requires Wf(t) && t.cursor == Index(t.cols, 0, y) && y + |lines| < t.rows
    requires forall k :: 0 <= k < |lines| ==> Visible(lines[k]) && |lines[k]| < t.cols
    ensures var u := PrintAll(t, Joined(lines));
      && u == t.(cells := u.cells, cursor := Index(t.cols, 0, y + |lines|))
      && forall k :: 0 <= k < |lines| ==> OnRow(u, y, lines, k)
    decreases |lines|
  {
    hide Index, PrintAt, Wf, Visible, OnRow, PrintAll;
    if lines == [] {
      PrintAllNothing(t);
    } else {
      var n := |lines| - 1;
      PrintLines(t, y, lines[..n]);
      var u := PrintAll(t, Joined(lines[..n]));
      PrintLine(u, y + n, lines[n]);
      PrintAllComposes(t, Joined(lines[..n]), lines[n] + [10]);
      assert Joined(lines) == Joined(lines[..n]) + (lines[n] + [10]);
      var v := PrintAll(t, Joined(lines));
      forall k | 0 <= k < |lines| ensures OnRow(v, y, lines, k) {
        RowKept(u, v, y, lines, k);
      }
    }
  }

  /** One line. */
  lemma PrintLine(t: Terminal, y: nat, line: seq<bv8>)
    requires Wf(t) && t.cursor == Index(t.cols, 0, y) && y + 1 < t.rows && Visible(line) && |line| < t.cols
    ensures var u := PrintAll(t, line + [10]);
      && u == t.(cells := u.cells, cursor := Index(t.cols, 0, y + 1))
      && Stands(t.cells, u.cells, t.cursor, line)
  {
    hide Index, PrintAt, Wf, Visible, PrintAll, Stands;
    RowFits(t, y, |line|);
    PrintText(t, line);
    var u := PrintAll(t, line);
    PrintAllComposes(t, line, [10]);
    PrintAllOne(u, 10);
    PrintedNewline(u, |line|, y);
  }

  lemma RowFits(t: Terminal, y: nat, n: nat)
    requires Wf(t) && t.cursor == Index(t.cols, 0, y) && y + 1 < t.rows && n < t.cols
    ensures t.cursor + n == Index(t.cols, n, y) < |t.cells|
  {
    IndexInRange(t.cols, t.rows, n, y);
    IndexStep(t.cols, n, y);
  }

  lemma RowKept(u: Terminal, v: Terminal, y: nat, lines: seq<seq<bv8>>, k: nat)
    requires k < |lines| && u.cols == v.cols && u.cursor == Index(u.cols, 0, y + |lines| - 1)
    requires forall i :: 0 <= i < |lines| ==> |lines[i]| < u.cols
    requires Stands(u.cells, v.cells, u.cursor, lines[|lines| - 1])
    requires k < |lines| - 1 ==> OnRow(u, y, lines[..|lines| - 1], k)
    ensures OnRow(v, y, lines, k)
  {
    forall j: nat | j < |lines[k]|
      ensures Index(v.cols, j, y + k) < |v.cells| && v.cells[Index(v.cols, j, y + k)] == lines[k][j]
    {
      CellKept(u, v, y, lines, k, j);
    }
  }

  lemma CellKept(u: Terminal, v: Terminal, y: nat, lines: seq<seq<bv8>>, k: nat, j: nat)
    requires k < |lines| && j < |lines[k]| && u.cols == v.cols && u.cursor == Index(u.cols, 0, y + |lines| - 1)
    requires forall i :: 0 <= i < |lines| ==> |lines[i]| < u.cols
    requires Stands(u.cells, v.cells, u.cursor, lines[|lines| - 1])
    requires k < |lines| - 1 ==> OnRow(u, y, lines[..|lines| - 1], k)
    ensures Index(v.cols, j, y + k) < |v.cells| && v.cells[Index(v.cols, j, y + k)] == lines[k][j]
  {
    var n := |lines| - 1;
    hide Index;
    IndexStep(u.cols, j, y + k);
    if k < n {
      IndexStep(u.cols, 0, y + k);
      IndexMonotone(u.cols, y + k + 1, y + n);
      assert lines[..n][k] == lines[k];
    } else {
      assert v.cells[u.cursor + j] == lines[n][j];
    }
  }
}
