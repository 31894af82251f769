/**
 What single keys do, from the usage in a report to the line: characters and shift, lock keys,
 editing keys, and words typed key by key, on any layout and on the QWERTY tables.
 */
module KeyMeanings {
  import opened Modifiers
  import opened HidReport
  import opened Keyboard
  import opened KeyStream
  import opened KeyEvents
  import opened Editor

  // ---- Characters ----

  /** The layout has no character for the usage. */
  predicate NoCharacter(l: Layout, u: nat) {
    u in l.scancodes ==> l.scancodes[u] >= 58
  }

  /** A press gives the shifted or the plain character at the usage's scan code, the shifted one exactly
      when caps lock or shift is set; a usage without a character gives its extended code. A question mark
      or a NUL in the table is no character. */
  lemma PressGives(l: Layout, u: nat, m: Mods)
    requires WfLayout(l)
    ensures NoCharacter(l, u) ==> PressCode(l, u, m) == ExtendedCode(u)
    ensures !NoCharacter(l, u) ==>
      var sc := l.scancodes[u];
      var c := if m & 0x100 != 0 || m & 0x001 != 0 then l.shifted[sc] else l.normal[sc];
      PressCode(l, u, m) == if c == 63 || c == 0 then ExtendedCode(u) else c
  {
    hide ExtendedCode;
    if !NoCharacter(l, u) {
      CapsOrShiftShifts(l, l.scancodes[u], m);
    }
  }

  /** A release gives the extended code, or the plain character when there is none. */
  lemma ReleaseGives(l: Layout, u: nat)
    requires WfLayout(l)
    ensures ExtendedCode(u) != 0 ==> ReleaseCode(l, u) == ExtendedCode(u)
    ensures ExtendedCode(u) == 0 && !NoCharacter(l, u) ==>
      var c := l.normal[l.scancodes[u]]; ReleaseCode(l, u) == if c == 63 then 0 else c
    ensures ExtendedCode(u) == 0 && NoCharacter(l, u) ==> ReleaseCode(l, u) == 0
  {
    hide ExtendedCode;
  }

  // ---- Lock keys ----

  /** Caps, num and scroll lock: a press flips exactly the key's own bit, a second one restores the word, and
      a release changes nothing. */
  lemma LocksToggle(g: Mods, code: nat)
    requires code == 0x140 || code == 0x141 || code == 0x142
    ensures var bit: Mods := if code == 0x140 then 0x100 else if code == 0x141 then 0x200 else 0x400;
      && Dispatched(g, true, code) == g ^ bit && Dispatched(Dispatched(g, true, code), true, code) == g
      && Dispatched(g, false, code) == g
  {
    hide Dispatched, LockBit, SideBits;
    LockCodes(code);
    LockToggles(g, code, if code == 0x140 then 0x100 else if code == 0x141 then 0x200 else 0x400);
  }

  lemma LockToggles(g: Mods, code: nat, bit: Mods)
    requires LockBit(code) == bit && SideBits(code) == (0, 0)
    ensures Dispatched(g, true, code) == g ^ bit && Dispatched(Dispatched(g, true, code), true, code) == g
    ensures Dispatched(g, false, code) == g
  {
    hide LockBit, SideBits, Modifiers.Pressed, Modifiers.Released;
    LockBits(g, bit);
    LockBits(g ^ bit, bit);
    TwiceRestores(g, bit);
  }

  lemma LockCodes(code: nat)
    requires code == 0x140 || code == 0x141 || code == 0x142
    ensures LockBit(code) == if code == 0x140 then 0x100 else if code == 0x141 then 0x200 else 0x400
    ensures SideBits(code) == (0, 0)
  {
  }

  lemma LockBits(g: Mods, bit: Mods)
    ensures Modifiers.Pressed(g, bit, 0, 0) == g ^ bit && Modifiers.Released(g, 0, 0) == g
  {
  }

  lemma TwiceRestores(g: Mods, bit: Mods)
    ensures (g ^ bit) ^ bit == g
  {
  }

  /** A press of caps lock changes the table that characters come from, as long as shift is up. */
  lemma CapsChangesTable(l: Layout, u: nat, g: Mods)
    requires WfLayout(l) && !NoCharacter(l, u) && g & 0x001 == 0
    requires var sc := l.scancodes[u];
      l.normal[sc] != 0 && l.normal[sc] != 63 && l.shifted[sc] != 0 && l.shifted[sc] != 63
    ensures var sc, g' := l.scancodes[u], Dispatched(g, true, 0x140);
      if g & 0x100 == 0 then PressCode(l, u, g) == l.normal[sc] && PressCode(l, u, g') == l.shifted[sc]
      else PressCode(l, u, g) == l.shifted[sc] && PressCode(l, u, g') == l.normal[sc]
  {
    hide Dispatched, PressCode;
    LocksToggle(g, 0x140);
    CapsBits(g);
    PressGives(l, u, g);
    PressGives(l, u, g ^ 0x100);
  }

  lemma CapsBits(g: Mods)
    ensures ((g ^ 0x100) & 0x100 != 0 <==> g & 0x100 == 0) && (g ^ 0x100) & 0x001 == g & 0x001
  {
  }

  // ---- Extended keys ----

  /** The keys that edit the line, each with what its press does to it, on every layout that has no
      character for the key. */
  lemma EditingUsages(l: Layout, u: nat, m: Mods, a: string, c: char, b: string)
    requires WfLayout(l) && NoCharacter(l, u)
    ensures var code := PressCode(l, u, m);
      && (u == 0x28 ==> Edit(Line(a, b), code) == Line(a, b) && code == KC_ENTER)
      && (u == 0x2A ==> Edit(Line(a + [c], b), code) == Line(a, b))
      && (u == 0x4C ==> Edit(Line(a, [c] + b), code) == Line(a, b))
      && (u == 0x50 ==> Edit(Line(a + [c], b), code) == Line(a, [c] + b))
      && (u == 0x4F ==> Edit(Line(a, [c] + b), code) == Line(a + [c], b))
      && (u == 0x4A ==> Edit(Line(a, b), code) == Line("", a + b))
      && (u == 0x4D ==> Edit(Line(a, b), code) == Line(a + b, ""))
  {
    hide Edit, PressCode;
    PressGives(l, u, m);
    EditingKeys(a, c, b);
    Ignored(Line(a, b), 0x0D);
  }

  /** The twelve function keys have consecutive codes, and the keys that no line is edited with have codes
      that leave it alone. */
  lemma OtherUsages(u: nat, l: Line)
    ensures 0x3A <= u <= 0x45 ==> ExtendedCode(u) == 0x120 + (u - 0x3A)
    ensures u == 0x39 ==> ExtendedCode(u) == 0x140
    ensures (0x3A <= u <= 0x45 || u == 0x39 || u == 0x52 || u == 0x51 || u == 0x4B || u == 0x4E || u == 0x49
             || u == 0x29 || u == 0x2B) ==>
      ExtendedCode(u) != 0 && Edit(l, ExtendedCode(u)) == l
  {
    hide Edit;
    if !Editing(ExtendedCode(u)) && !(0x20 <= ExtendedCode(u) <= 0x7E) {
      Ignored(l, ExtendedCode(u));
    }
  }

  /** An arrow or editing key without a character owns its code, so its presses and releases are those
      of `KeysAlternate`. */
  lemma ArrowOwned(l: Layout, u: nat)
    requires WfLayout(l) && NoCharacter(l, u) && ExtendedCode(u) >= 0x100 && ExtendedCode(u) != 0x140
    ensures Owned(l, {ExtendedCode(u)}, u)
  {
    hide AsciiOf;
    forall v: nat, m: Mods | v != 0 ensures PressCode(l, v, m) in {ExtendedCode(u)} <==> v == u {
      OneUsage(l, u, v, m);
    }
    forall v: nat | v != 0 ensures ReleaseCode(l, v) in {ExtendedCode(u)} <==> v == u {
      OneUsage(l, u, v, 0);
    }
  }

  lemma OneUsage(l: Layout, u: nat, v: nat, m: Mods)
    requires WfLayout(l) && NoCharacter(l, u) && ExtendedCode(u) >= 0x100
    ensures PressCode(l, v, m) == ExtendedCode(u) <==> v == u
    ensures ReleaseCode(l, v) == ExtendedCode(u) <==> v == u
  {
  }

  // ---- Shift ----

  function Single(mods: bv8, u: nat): Report {
    Report(mods, [u, 0, 0, 0, 0, 0])
  }

  lemma {:induction false} NoneMissing(a: seq<nat>, b: seq<nat>)
    requires forall i :: 0 <= i < |a| ==> a[i] == 0
    ensures Missing(a, b) == []
  {
    if a != [] { NoneMissing(a[1..], b); }
  }

  lemma SingleDecisions(u: nat, mods: bv8)
    requires u != 0
    ensures Decisions(EMPTY_REPORT.keys, Single(mods, u).keys) == [Decision.Pressed(u)]
    ensures Decisions(Single(mods, u).keys, EMPTY_REPORT.keys) == [Decision.Released(u)]
  {
    var none, one := EMPTY_REPORT.keys, Single(mods, u).keys;
    assert one[0] == u && one[1..] == [0, 0, 0, 0, 0] && u !in none;
    NoneMissing(none, one);
    NoneMissing(one[1..], none);
    assert Missing(one, none) == [u];
    hide Missing, ReleaseAll, PressAll;
    OneDecision(u);
  }

  lemma OneDecision(u: nat)
    ensures ReleaseAll([u]) == [Decision.Released(u)] && PressAll([u]) == [Decision.Pressed(u)]
    ensures ReleaseAll([]) == [] && PressAll([]) == []
  {
    assert [u][1..] == [];
  }

  /** Shift held and a key pressed in one report: the press of shift, then that of the shifted character. */
  lemma ShiftedKey(l: Layout, u: nat, device: nat)
    requires WfLayout(l) && u != 0 && !NoCharacter(l, u)
    requires l.shifted[l.scancodes[u]] != 0 && l.shifted[l.scancodes[u]] != 63
    ensures Burst(0, l, EMPTY_REPORT, Single(0x02, u), device) ==
      [Event(true, 0x150, 0x001, device), Event(true, l.shifted[l.scancodes[u]], 0x001, device)]
  {
    hide WfLayout, PressCode, AfterModifiers, Decisions, Coded, CodedMods, Dispatched;
    CharacterBound(l, u);
    BurstDecisions(0, l, EMPTY_REPORT, Single(0x02, u), device);
    SingleDecisions(u, 0x02);
    ShiftGoesDown(u, device);
    PressGives(l, u, 0x001);
    CharacterKeeps(0x001, true, l.shifted[l.scancodes[u]]);
    CodedOne(l, 0x001, Decision.Pressed(u), device);
  }

  lemma CharacterBound(l: Layout, u: nat)
    requires WfLayout(l) && !NoCharacter(l, u)
    ensures l.scancodes[u] < |l.shifted| == |l.normal|
    ensures l.shifted[l.scancodes[u]] < 0x80 && l.normal[l.scancodes[u]] < 0x80
  {
  }

  lemma ShiftGoesDown(u: nat, device: nat)
    ensures AfterModifiers(0, EMPTY_REPORT, Single(0x02, u), device) ==
      Kbd(0x001, [Event(true, 0x150, 0x001, device)], [])
  {
  }

  /** Keys that are neither side keys nor locks keep the modifiers. */
  lemma CharacterKeeps(m: Mods, press: bool, code: nat)
    requires code < 0x140
    ensures Dispatched(m, press, code) == m
  {
    hide Modifiers.Pressed, Modifiers.Released;
    LockBits(m, 0);
    ZeroChange(m);
  }

  lemma ZeroChange(m: Mods)
    ensures m ^ 0 == m
  {
  }

  lemma CodedOne(l: Layout, m: Mods, d: Decision, device: nat)
    requires WfLayout(l)
    ensures var code := CodeOf(l, m, d); var m' := Dispatched(m, d.Pressed?, code);
      && Coded(l, m, [d], device) == (if code == KC_NONE then [] else [Event(d.Pressed?, code, m', device)])
      && CodedMods(l, m, [d]) == if code == KC_NONE then m else m'
  {
    hide CodeOf, Dispatched, WfLayout;
    assert [d][1..] == [];
  }
}
