/**
 The shell's line editor as the user sees it: what is left and what is right of the cursor.
 */
module Editor {

  const MAX_LENGTH: nat := 1999   // characters besides the terminator

  const KC_BACKSPACE: nat := 0x08
  const KC_ENTER: nat := 0x0D
  const KC_LEFT: nat := 0x102
  const KC_RIGHT: nat := 0x103
  const KC_HOME: nat := 0x104
  const KC_END: nat := 0x105
  const KC_DELETE: nat := 0x109

  datatype Line = Line(left: string, right: string) {
    function Text(): string { left + right }
  }

  predicate Printable(code: nat) {
    0x20 <= code < 0x7F
  }

  predicate PrintableText(s: string) {
    forall i :: 0 <= i < |s| ==> Printable(s[i] as nat)
  }

  predicate Wf(l: Line) {
    |l.left| + |l.right| <= MAX_LENGTH && PrintableText(l.left) && PrintableText(l.right)
  }

  /** One key. */
  function Edit(l: Line, code: nat): Line {
    if code == KC_ENTER then l
    else if code == KC_BACKSPACE then (if l.left == "" then l else Line(l.left[..|l.left| - 1], l.right))
    else if code == KC_DELETE then (if l.right == "" then l else Line(l.left, l.right[1..]))
    else if code == KC_LEFT then
      (if l.left == "" then l else Line(l.left[..|l.left| - 1], [l.left[|l.left| - 1]] + l.right))
    else if code == KC_RIGHT then
      (if l.right == "" then l else Line(l.left + [l.right[0]], l.right[1..]))
    else if code == KC_HOME then Line("", l.left + l.right)
    else if code == KC_END then Line(l.left + l.right, "")
    else if Printable(code) then
      (if |l.left| + |l.right| >= MAX_LENGTH then l else Line(l.left + [code as char], l.right))
    else l
  }

  function EditAll(l: Line, codes: seq<nat>): Line
    decreases |codes|
  {
    if codes == [] then l else EditAll(Edit(l, codes[0]), codes[1..])
  }

  lemma EditKeepsWf(l: Line, code: nat)
    requires Wf(l)
    ensures Wf(Edit(l, code))
  {
  }

  /** After every run of keys the line is printable and within its length. */
  lemma {:induction false} EditAllKeepsWf(l: Line, codes: seq<nat>)
    requires Wf(l)
    ensures Wf(EditAll(l, codes))
    decreases |codes|
  {
    if codes != [] {
      EditKeepsWf(l, codes[0]);
      hide Edit, Wf;
      EditAllKeepsWf(Edit(l, codes[0]), codes[1..]);
    }
  }

  lemma {:induction false} EditAllAppend(l: Line, a: seq<nat>, b: seq<nat>)
    ensures EditAll(l, a + b) == EditAll(EditAll(l, a), b)
    decreases |a|
  {
    hide Edit;
    if a == [] {
      assert a + b == b;
    } else {
      assert (a + b)[1..] == a[1..] + b;
      EditAllAppend(Edit(l, a[0]), a[1..], b);
    }
  }

  // ---- Laws ----

  predicate Moves(code: nat) {
    code == KC_LEFT || code == KC_RIGHT || code == KC_HOME || code == KC_END
  }

  /** Cursor keys never change the text. */
  lemma {:induction false} MovesKeepText(l: Line, codes: seq<nat>)
    requires forall i :: 0 <= i < |codes| ==> Moves(codes[i])
    ensures EditAll(l, codes).Text() == l.Text()
    decreases |codes|
  {
    if codes != [] {
      var l' := Edit(l, codes[0]);
      assert Moves(codes[0]);
      MoveKeepsText(l, codes[0]);
      hide Edit, Moves;
      MovesKeepText(l', codes[1..]);
    }
  }

  lemma MoveKeepsText(l: Line, code: nat)
    requires Moves(code)
    ensures Edit(l, code).Text() == l.Text()
  {
  }

  /** Where a cursor key leaves the cursor. */
  function CursorAfter(code: nat, cursor: nat, len: nat): nat
    requires Moves(code) && cursor <= len
  {
    if code == KC_LEFT then (if cursor > 0 then cursor - 1 else cursor)
    else if code == KC_RIGHT then (if cursor < len then cursor + 1 else cursor)
    else if code == KC_HOME then 0
    else len
  }

  /** The line with its cursor at `c`. */
  function SplitAt(s: string, c: nat): Line
    requires c <= |s|
  {
    Line(s[..c], s[c..])
  }

  lemma StepLeft(s: string, c: nat)
    requires 0 < c <= |s|
    ensures Edit(SplitAt(s, c), KC_LEFT) == SplitAt(s, c - 1)
  {
    assert s[..c][..c - 1] == s[..c - 1] && [s[c - 1]] + s[c..] == s[c - 1..];
  }

  lemma StepRight(s: string, c: nat)
    requires c < |s|
    ensures Edit(SplitAt(s, c), KC_RIGHT) == SplitAt(s, c + 1)
  {
    assert s[..c] + [s[c]] == s[..c + 1] && s[c..][1..] == s[c + 1..];
  }

  lemma JumpHome(s: string, c: nat)
    requires c <= |s|
    ensures Edit(SplitAt(s, c), KC_HOME) == SplitAt(s, 0)
  {
    assert s[..c] + s[c..] == s && s[..0] == "" && s[0..] == s;
  }

  lemma JumpEnd(s: string, c: nat)
    requires c <= |s|
    ensures Edit(SplitAt(s, c), KC_END) == SplitAt(s, |s|)
  {
    assert s[..c] + s[c..] == s && s[|s|..] == "" && s[..|s|] == s;
  }

  /** A cursor key moves the cursor through the same text. */
  lemma MovesSplit(s: string, c: nat, code: nat)
    requires c <= |s| && Moves(code)
    ensures CursorAfter(code, c, |s|) <= |s|
    ensures Edit(SplitAt(s, c), code) == SplitAt(s, CursorAfter(code, c, |s|))
  {
    if code == KC_LEFT {
      if c > 0 { StepLeft(s, c); }
    } else if code == KC_RIGHT {
      if c < |s| { StepRight(s, c); }
    } else if code == KC_HOME {
      JumpHome(s, c);
    } else {
      JumpEnd(s, c);
    }
  }

  /** Keys that edit: backspace, delete, left, right, home and end. */
  predicate Editing(code: nat) {
    code == 0x08 || code == 0x109 || code == 0x102 || code == 0x103 || code == 0x104 || code == 0x105
  }

  /** Enter, and every code that neither edits nor prints, leaves the line alone. */
  lemma Ignored(l: Line, code: nat)
    requires !Editing(code) && !(0x20 <= code <= 0x7E)
    ensures Edit(l, code) == l
  {
  }

  /** Backspace and left do nothing at the beginning, delete and right nothing at the end. */
  lemma AtTheEdges(l: Line)
    ensures l.left == "" ==> Edit(l, 0x08) == l && Edit(l, 0x102) == l
    ensures l.right == "" ==> Edit(l, 0x109) == l && Edit(l, 0x103) == l
  {
  }

  /** What the editing keys do with the character next to the cursor, and home and end. */
  lemma EditingKeys(a: string, c: char, b: string)
    ensures Edit(Line(a + [c], b), 0x08) == Line(a, b) && Edit(Line(a, [c] + b), 0x109) == Line(a, b)
    ensures Edit(Line(a + [c], b), 0x102) == Line(a, [c] + b) && Edit(Line(a, [c] + b), 0x103) == Line(a + [c], b)
    ensures Edit(Line(a, b), 0x104) == Line("", a + b) && Edit(Line(a, b), 0x105) == Line(a + b, "")
  {
    assert (a + [c])[..|a|] == a && ([c] + b)[1..] == b;
  }

  function Codes(s: string): (codes: seq<nat>)
    ensures |codes| == |s|
  {
    seq(|s|, i requires 0 <= i < |s| => s[i] as nat)
  }

  /** Typing a line that fits and pressing Enter leaves exactly that line. */
  lemma TypeCommand(s: string)
    requires PrintableText(s) && |s| <= 1999
    ensures EditAll(Line("", ""), Codes(s) + [0x0D]) == Line(s, "")
  {
    hide Edit;
    var typed := EditAll(Line("", ""), Codes(s));
    TypingFits(s);
    EditAllAppend(Line("", ""), Codes(s), [0x0D]);
    Ignored(typed, 0x0D);
    assert EditAll(typed, [0x0D]) == Edit(typed, 0x0D) by { assert [0x0D][1..] == []; }
  }

  lemma TypingFits(s: string)
    requires PrintableText(s) && |s| <= 1999
    ensures EditAll(Line("", ""), Codes(s)) == Line(s, "")
  {
    hide Edit, EditAll;
    var l := Line("", "");
    assert |l.Text()| == 0;
    Typing(l, Codes(s));
    var out := EditAll(l, Codes(s)).left;
    forall i | 0 <= i < |s| ensures out[i] == s[i] {
      assert out[|l.left| + i] as nat == Codes(s)[i];
    }
    assert out == s;
  }

  /** Backspace is left and then delete. */
  lemma BackspaceIsLeftDelete(l: Line)
    requires l.left != ""
    ensures EditAll(l, [KC_BACKSPACE]) == EditAll(l, [KC_LEFT, KC_DELETE])
  {
    EditAllAppend(l, [KC_LEFT], [KC_DELETE]);
    var m := Edit(l, KC_LEFT);
    assert m.right[1..] == l.right;
    assert [KC_LEFT] + [KC_DELETE] == [KC_LEFT, KC_DELETE];
  }

  lemma InsertThenBackspace(l: Line, code: nat)
    requires Printable(code) && |l.Text()| < MAX_LENGTH
    ensures Edit(Edit(l, code), KC_BACKSPACE) == l
  {
  }

  function Min(a: int, b: int): int {
    if a < b then a else b
  }

  /** Typing a string puts at the cursor as much of it as there is room for. */
  lemma {:induction false} Typing(l: Line, codes: seq<nat>)
    requires Wf(l) && forall i :: 0 <= i < |codes| ==> Printable(codes[i])
    ensures var room := MAX_LENGTH - |l.Text()|; var n := Min(|codes|, room);
      && EditAll(l, codes).right == l.right
      && |EditAll(l, codes).left| == |l.left| + n
      && EditAll(l, codes).left[..|l.left|] == l.left
      && forall i :: 0 <= i < n ==> EditAll(l, codes).left[|l.left| + i] as nat == codes[i]
    decreases |codes|
  {
    hide Wf;
    assert |l.Text()| <= MAX_LENGTH by { RoomOf(l); }
    if codes != [] {
      var l1 := Edit(l, codes[0]);
      EditKeepsWf(l, codes[0]);
      assert Printable(codes[0]);
      TypeOne(l, codes[0]);
      hide Edit, Printable;
      Typing(l1, codes[1..]);
      var out := EditAll(l, codes).left;
      if |l.Text()| < MAX_LENGTH {
        assert out[..|l.left|] == out[..|l1.left|][..|l.left|];
        assert out[|l.left|] == out[..|l1.left|][|l.left|];
        forall i | 0 < i < Min(|codes|, MAX_LENGTH - |l.Text()|) ensures out[|l.left| + i] as nat == codes[i] {
          assert out[|l1.left| + (i - 1)] as nat == codes[1..][i - 1];
        }
      }
    }
  }

  lemma RoomOf(l: Line)
    requires Wf(l)
    ensures |l.Text()| <= MAX_LENGTH
  {
  }

  lemma TypeOne(l: Line, code: nat)
    requires Printable(code)
    ensures Edit(l, code) == if |l.Text()| >= MAX_LENGTH then l else Line(l.left + [code as char], l.right)
  {
  }
}
