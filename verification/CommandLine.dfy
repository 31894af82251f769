/**
 The shell's line editor in memory: a NUL-terminated buffer of 2000 characters, its length and
 the cursor, and the loop that feeds it the queued key events.
 */
module CommandLine {
  import CString
  import opened Editor
  import Keyboard
  import Ring = EventRing

  const MAX_COMMAND_LENGTH: nat := 2000

  /** The key codes of the presses among the events, in order. */
  function Presses(es: seq<Keyboard.Event>): seq<nat> {
    if es == [] then [] else (if es[0].press then [es[0].code] else []) + Presses(es[1..])
  }

  /** What one drain leaves in the flag: whether its last press is Enter. An earlier Enter of the
      same drain is forgotten. */
  function Ended(ended: bool, codes: seq<nat>): bool {
    if codes == [] then ended else codes[|codes| - 1] == KC_ENTER
  }

  /** Only the last press counts. */
  lemma LastPressCounts(ended: bool, codes: seq<nat>, code: nat)
    ensures Ended(ended, codes + [code]) == (code == 0x0D) && Ended(ended, []) == ended
  {
  }

  /** Handling the events `es` from here gives the line and the flag given. */
  ghost predicate Leads(l: Line, ended: bool, es: seq<Keyboard.Event>, l': Line, ended': bool) {
    EditAll(l, Presses(es)) == l' && Ended(ended, Presses(es)) == ended'
  }

  lemma LeadsStep(l: Line, ended: bool, e: Keyboard.Event, es: seq<Keyboard.Event>, l': Line, ended': bool)
    requires Leads(l, ended, [e] + es, l', ended')
    ensures e.press ==> Leads(Edit(l, e.code), e.code == KC_ENTER, es, l', ended')
    ensures !e.press ==> Leads(l, ended, es, l', ended')
  {
    hide Edit;
    assert ([e] + es)[1..] == es;
    var ps := Presses(es);
    if e.press {
      assert Presses([e] + es) == [e.code] + ps;
      assert ([e.code] + ps)[1..] == ps;
    } else {
      assert Presses([e] + es) == [] + ps == ps;
    }
  }

  lemma LeadsEnd(l: Line, ended: bool, l': Line, ended': bool)
    requires Leads(l, ended, [], l', ended')
    ensures l == l' && ended == ended'
  {
  }

  // ---- The buffer ----

  /** A buffer of 2000 places with `len` printable characters and a terminator. */
  ghost predicate WfBuffer(buffer: seq<char>, cursor: nat, len: nat) {
    && |buffer| == MAX_COMMAND_LENGTH && cursor <= len < MAX_COMMAND_LENGTH
    && buffer[len] == CString.NUL && PrintableText(buffer[..len])
  }

  ghost function Shown(buffer: seq<char>, cursor: nat, len: nat): Line
    requires cursor <= len <= |buffer|
  {
    Line(buffer[..cursor], buffer[cursor..len])
  }

  lemma BufferBounds(buffer: seq<char>, cursor: nat, len: nat)
    requires WfBuffer(buffer, cursor, len)
    ensures |buffer| == MAX_COMMAND_LENGTH && cursor <= len < MAX_COMMAND_LENGTH && buffer[len] == CString.NUL
  {
  }

  /** Moving everything behind the cursor, with the terminator, down by one. */
  lemma Deleted(was: seq<char>, now: seq<char>, cursor: nat, len: nat)
    requires WfBuffer(was, cursor, len) && cursor < len && |now| == |was|
    requires forall k :: cursor <= k < len ==> now[k] == was[k + 1]
    requires forall k :: 0 <= k < cursor || len <= k < |was| ==> now[k] == was[k]
    ensures WfBuffer(now, cursor, len - 1)
    ensures Shown(now, cursor, len - 1) == Line(Shown(was, cursor, len).left, Shown(was, cursor, len).right[1..])
  {
    hide Printable;
    var text := now[..len - 1];
    forall k | 0 <= k < |text| ensures Printable(text[k] as nat) {
      assert now[k] == was[..len][if k < cursor then k else k + 1];
    }
    assert now[..cursor] == was[..cursor];
    assert now[cursor..len - 1] == was[cursor..len][1..];
  }

  /** Moving everything from the cursor on up by one, with a character in the gap. */
  lemma Inserted(was: seq<char>, now: seq<char>, cursor: nat, len: nat, c: char)
    requires WfBuffer(was, cursor, len) && len + 1 < |was| == |now| && Printable(c as nat)
    requires now[cursor] == c && now[len + 1] == CString.NUL
    requires forall k :: cursor < k <= len ==> now[k] == was[k - 1]
    requires forall k :: 0 <= k < cursor ==> now[k] == was[k]
    ensures WfBuffer(now, cursor + 1, len + 1)
    ensures Shown(now, cursor + 1, len + 1) == Line(Shown(was, cursor, len).left + [c], Shown(was, cursor, len).right)
  {
    hide Printable;
    var text := now[..len + 1];
    forall k | 0 <= k < |text| ensures Printable(text[k] as nat) {
      if k != cursor {
        assert now[k] == was[..len][if k < cursor then k else k - 1];
      }
    }
    assert now[..cursor + 1] == was[..cursor] + [c];
    assert now[cursor + 1..len + 1] == was[cursor..len];
  }

  class CommandLine {
    var cursor: nat
    var len: nat

    constructor ()
      ensures cursor == 0 && len == 0
    {
      cursor, len := 0, 0;
    }

    ghost predicate Valid(command: array<char>)
      reads this, command
    {
      WfBuffer(command[..], cursor, len)
    }

    ghost function View(command: array<char>): (l: Line)
      requires Valid(command)
      reads this, command
    {
      Shown(command[..], cursor, len)
    }

    /** The buffer as a string is the text of the line, so its strlen is the length kept. */
    lemma BufferHoldsText(command: array<char>)
      requires Valid(command)
      ensures CString.Holds(command[..], len) && command[..len] == View(command).Text() && Wf(View(command))
    {
    }

    /** delete_at: everything behind the position, with the terminator, moves down. */
    method DeleteAt(command: array<char>, position: nat)
      requires position <= len < command.Length
      modifies command
      ensures forall k :: position <= k < len ==> command[k] == old(command[k + 1])
      ensures forall k :: 0 <= k < position || len <= k < command.Length ==> command[k] == old(command[k])
    {
      for i := position to len
        invariant forall k :: position <= k < i ==> command[k] == old(command[k + 1])
        invariant forall k :: 0 <= k < position || i <= k < command.Length ==> command[k] == old(command[k])
      {
        command[i] := command[i + 1];
      }
    }

    /** insert_at: everything from the position on moves up, over the terminator. */
    method InsertAt(command: array<char>, position: nat, c: char)
      requires position <= len < command.Length
      modifies command
      ensures command[position] == c
      ensures forall k :: position < k <= len ==> command[k] == old(command[k - 1])
      ensures forall k :: 0 <= k < position || len < k < command.Length ==> command[k] == old(command[k])
    {
      var i := len;
      while i > position
        invariant position <= i <= len
        invariant forall k :: i < k <= len ==> command[k] == old(command[k - 1])
        invariant forall k :: 0 <= k <= i || len < k < command.Length ==> command[k] == old(command[k])
      {
        command[i] := command[i - 1];
        i := i - 1;
      }
      command[position] := c;
    }

    /** The deletion of the character at the cursor, as backspace and delete both do it. */
    method DeleteHere(command: array<char>)
      requires Valid(command) && cursor < len
      modifies this`len, command
      ensures Valid(command)
      ensures View(command) == Line(old(View(command)).left, old(View(command)).right[1..])
    {
      hide WfBuffer, Shown;
      BufferBounds(command[..], cursor, len);
      ghost var was := command[..];
      DeleteAt(command, cursor);
      Deleted(was, command[..], cursor, len);
      if len > 0 { len := len - 1; }
    }

    /** The insertion of a character at the cursor. */
    method InsertHere(command: array<char>, c: char)
      requires Valid(command) && len + 1 < MAX_COMMAND_LENGTH && Printable(c as nat)
      modifies this, command
      ensures Valid(command)
      ensures View(command) == Line(old(View(command)).left + [c], old(View(command)).right)
    {
      hide WfBuffer, Shown, Printable;
      BufferBounds(command[..], cursor, len);
      ghost var was := command[..];
      InsertAt(command, cursor, c);
      len := len + 1;
      command[len] := CString.NUL;
      cursor := cursor + 1;
      Inserted(was, command[..], cursor - 1, len - 1, c);
    }

    /** The view, cut out of the text. */
    lemma ViewSplits(command: array<char>)
      requires Valid(command)
      ensures View(command) == SplitAt(command[..len], cursor)
    {
      hide PrintableText;
      assert command[..len][..cursor] == command[..cursor] && command[..len][cursor..] == command[cursor..len];
    }

    /** The four cursor keys. */
    method MoveCursor(code: nat, command: array<char>)
      requires Valid(command) && Moves(code)
      modifies this`cursor
      ensures Valid(command) && View(command) == Edit(old(View(command)), code)
    {
      hide PrintableText, Edit, SplitAt, View;
      ViewSplits(command);
      MovesSplit(command[..len], cursor, code);
      if code == KC_LEFT {
        if cursor > 0 { cursor := cursor - 1; }
      } else if code == KC_RIGHT {
        if cursor < len { cursor := cursor + 1; }
      } else if code == KC_HOME {
        cursor := 0;
      } else {
        cursor := len;
      }
      ViewSplits(command);
    }

    /** handle_command_line */
    method HandleCommandLine(code: nat, command: array?<char>) returns (ended: bool)
      requires command != null ==> Valid(command)
      modifies this, if command == null then {} else {command}
      ensures command == null ==> !ended && cursor == old(cursor) && len == old(len)
      ensures command != null ==>
        && Valid(command) && ended == (code == KC_ENTER)
        && View(command) == Edit(old(View(command)), code)
      ensures command != null && !Editing(code) && !(0x20 <= code <= 0x7E) ==>
        command[..len] == old(command[..len]) && cursor == old(cursor) && len == old(len)
    {
      hide PrintableText;
      if command == null { return false; }
      if code == KC_ENTER {
        command[len] := CString.NUL;
        return true;
      }
      ended := false;
      if code == KC_BACKSPACE {
        if cursor > 0 {
          cursor := cursor - 1;
          assert View(command).right[1..] == old(View(command)).right;
          DeleteHere(command);
        }
      } else if code == KC_DELETE {
        if cursor < len {
          DeleteHere(command);
        }
      } else if Moves(code) {
        MoveCursor(code, command);
      } else if 0x20 <= code < 0x7F {
        if len >= MAX_COMMAND_LENGTH - 1 { return; }
        InsertHere(command, code as char);
      }
    }

    /** flush_command_line */
    method FlushCommandLine(command: array?<char>)
      requires command != null ==> command.Length == MAX_COMMAND_LENGTH
      modifies this, if command == null then {} else {command}
      ensures cursor == 0 && len == 0
      ensures command != null ==> Valid(command) && View(command) == Line("", "")
    {
      cursor, len := 0, 0;
      if command != null {
        command[0] := CString.NUL;
      }
    }

    /** The shell's loop over the queued events: each press is an edit. */
    method Drain(events: Ring.Buffer<Keyboard.Event>, command: array<char>, before: bool) returns (ended: bool)
      requires events.Valid() && Valid(command) && command as object != events.slots as object
      modifies this, command, events`tail
      ensures events.Valid() && Ring.Contents(events.View()) == []
      ensures Valid(command) && View(command) == EditAll(old(View(command)), Presses(old(Ring.Contents(events.View()))))
      ensures ended == Ended(before, Presses(old(Ring.Contents(events.View()))))
    {
      hide Leads, Edit, Presses, EditAll, Ended, PrintableText, Ring.Contents, Ring.Advance, Ring.Copy, Ring.Test;
      ended := before;
      ghost var l', ended' := Target(View(command), before, Ring.Contents(events.View()));
      var ok, e := events.Take();
      ghost var es := Ring.Contents(events.View());
      assert ok ==> [e] + es == old(Ring.Contents(events.View()));
      while ok
        invariant events.Valid() && Valid(command) && es == Ring.Contents(events.View())
        invariant !ok ==> es == [] && Leads(View(command), ended, es, l', ended')
        invariant ok ==> Leads(View(command), ended, [e] + es, l', ended')
        decreases ok, |es|
      {
        LeadsStep(View(command), ended, e, es, l', ended');
        if e.press {
          ended := HandleCommandLine(e.code, command);
        }
        ghost var rest := es;
        ok, e := events.Take();
        es := Ring.Contents(events.View());
        assert ok ==> [e] + es == rest;
      }
      LeadsEnd(View(command), ended, l', ended');
    }

    /** A line typed on the empty line and Enter: the buffer spells it, and the command is complete. */
    method ReadCommand(events: Ring.Buffer<Keyboard.Event>, command: array<char>, ghost s: string)
      returns (ended: bool)
      requires events.Valid() && Valid(command) && command as object != events.slots as object
      requires View(command) == Line("", "") && PrintableText(s) && |s| <= 1999
      requires Presses(Ring.Contents(events.View())) == Codes(s) + [0x0D]
      modifies this, command, events`tail
      ensures ended && Valid(command) && command[..len] == s && cursor == len == |s|
    {
      hide Ring.Contents, Presses, WfBuffer, EditAll;
      TypeCommand(s);
      ended := Drain(events, command, false);
      SpelledBy(command, s);
    }

    lemma SpelledBy(command: array<char>, s: string)
      requires Valid(command) && View(command) == Line(s, "")
      ensures cursor == len == |s| <= command.Length && command[..len] == s
    {
      hide PrintableText;
    }
  }

  /** Where handling the events is to lead. */
  lemma Target(l: Line, ended: bool, es: seq<Keyboard.Event>) returns (l': Line, ended': bool)
    ensures l' == EditAll(l, Presses(es)) && ended' == Ended(ended, Presses(es)) && Leads(l, ended, es, l', ended')
  {
    l', ended' := EditAll(l, Presses(es)), Ended(ended, Presses(es));
  }
}
