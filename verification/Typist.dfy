/**
 Typing: a word typed key by key on any layout, and on the kernel's QWERTY tables, from the reports
 on the bus to the command line.
 */
module Typist {
  import opened Modifiers
  import opened HidReport
  import opened Keyboard
  import opened KeyStream
  import opened KeyEvents
  import opened KeyMeanings
  import opened Editor
  import opened UhciModel
  import opened UhciPipes
  import opened InputPath
  import opened UhciRuns
  import C = CommandLine
  import KeyboardLayer

  // ---- Keys one after another ----

  /** Each key goes down and up again, without modifiers. */
  function Taps(us: seq<nat>): (rs: seq<Report>)
    ensures forall i :: 0 <= i < |rs| ==> HidReport.Wf(rs[i])
    decreases |us|
  {
    if us == [] then []
    else Taps(us[..|us| - 1]) + [Single(0, us[|us| - 1]), EMPTY_REPORT]
  }

  /** A key with a code that is neither a lock nor a modifier. */
  predicate Plain(l: Layout, u: nat)
    requires WfLayout(l)
  {
    u != 0 && 0 < PressCode(l, u, 0) < 0x140 && ReleaseCode(l, u) < 0x140
  }

  ghost predicate AllPlain(l: Layout, us: seq<nat>)
    requires WfLayout(l)
  {
    forall i :: 0 <= i < |us| ==> Plain(l, us[i])
  }

  function PressCodes(l: Layout, us: seq<nat>): (codes: seq<nat>)
    requires WfLayout(l)
    ensures |codes| == |us|
  {
    seq(|us|, i requires 0 <= i < |us| => PressCode(l, us[i], 0))
  }

  lemma {:induction false} PressesAppend(a: seq<Event>, b: seq<Event>)
    ensures C.Presses(a + b) == C.Presses(a) + C.Presses(b)
  {
    if a == [] {
      assert a + b == b;
    } else {
      assert (a + b)[0] == a[0] && (a + b)[1..] == a[1..] + b;
      PressesAppend(a[1..], b);
    }
  }

  lemma NoDeltaEvents(mods: bv8, a: seq<nat>, b: seq<nat>, device: nat)
    ensures AfterModifiers(0, Report(0, a), Report(0, b), device) == IDLE
  {
  }

  /** A key going down makes its press and no other event, going up no press. */
  lemma TapBursts(l: Layout, u: nat, device: nat)
    requires WfLayout(l) && Plain(l, u)
    ensures C.Presses(Burst(0, l, EMPTY_REPORT, Single(0, u), device)) == [PressCode(l, u, 0)]
    ensures OnReport(IDLE, l, EMPTY_REPORT, Single(0, u), device).mods == 0
    ensures C.Presses(Burst(0, l, Single(0, u), EMPTY_REPORT, device)) == []
    ensures OnReport(IDLE, l, Single(0, u), EMPTY_REPORT, device).mods == 0
  {
    hide WfLayout, PressCode, ReleaseCode, AfterModifiers, Decisions, Coded, CodedMods, Dispatched, Burst, OnReport;
    hide C.Presses;
    var down, up := Single(0, u), EMPTY_REPORT;
    BurstDecisions(0, l, up, down, device);
    BurstDecisions(0, l, down, up, device);
    SingleDecisions(u, 0);
    NoDeltaEvents(0, up.keys, down.keys, device);
    NoDeltaEvents(0, down.keys, up.keys, device);
    CharacterKeeps(0, true, PressCode(l, u, 0));
    CharacterKeeps(0, false, ReleaseCode(l, u));
    CodedOne(l, 0, Decision.Pressed(u), device);
    CodedOne(l, 0, Decision.Released(u), device);
    OnePress(Event(true, PressCode(l, u, 0), 0, device));
    OnePress(Event(false, ReleaseCode(l, u), 0, device));
  }

  lemma OnePress(e: Event)
    ensures C.Presses([e]) == (if e.press then [e.code] else []) && C.Presses([]) == []
    ensures [] + [e] == [e]
  {
    assert [e][1..] == [];
  }

  /** One more report of a run. */
  lemma OneMore(l: Layout, rs: seq<Report>, r: Report, device: nat)
    requires WfLayout(l) && HidReport.Wf(r) && forall i :: 0 <= i < |rs| ==> HidReport.Wf(rs[i])
    ensures var k := RunReports(IDLE, l, rs, device);
      && Stream(l, rs + [r], device) == Stream(l, rs, device) + Burst(k.mods, l, LastReport(rs), r, device)
      && RunReports(IDLE, l, rs + [r], device).mods == OnReport(Kbd(k.mods, [], []), l, LastReport(rs), r, device).mods
      && LastReport(rs + [r]) == r
  {
    hide WfLayout, OnReport, Burst;
    assert (rs + [r])[..|rs|] == rs;
    RunReportsRoom(l, rs, device);
    OnReportAppends(RunReports(IDLE, l, rs, device), l, LastReport(rs), r, device);
  }

  /** One more key. */
  lemma TapMore(l: Layout, rs: seq<Report>, u: nat, device: nat)
    requires WfLayout(l) && Plain(l, u) && forall i :: 0 <= i < |rs| ==> HidReport.Wf(rs[i])
    requires RunReports(IDLE, l, rs, device).mods == 0 && LastReport(rs) == EMPTY_REPORT
    ensures var more := rs + [Single(0, u), EMPTY_REPORT];
      && C.Presses(Stream(l, more, device)) == C.Presses(Stream(l, rs, device)) + [PressCode(l, u, 0)]
      && RunReports(IDLE, l, more, device).mods == 0 && LastReport(more) == EMPTY_REPORT
  {
    hide WfLayout, OnReport, Burst, Plain, C.Presses, PressCode, RunReports, Stream, LastReport;
    var down, up := Single(0, u), EMPTY_REPORT;
    TapBursts(l, u, device);
    OneMore(l, rs, down, device);
    OneMore(l, rs + [down], up, device);
    assert rs + [down, up] == rs + [down] + [up];
    var first, second := Burst(0, l, up, down, device), Burst(0, l, down, up, device);
    PressesAppend(Stream(l, rs, device), first);
    PressesAppend(Stream(l, rs, device) + first, second);
  }

  /** Keys tapped one after another make exactly their presses, in order, and leave nothing held. */
  lemma {:induction false} TapsType(l: Layout, us: seq<nat>, device: nat)
    requires WfLayout(l) && AllPlain(l, us)
    ensures C.Presses(Stream(l, Taps(us), device)) == PressCodes(l, us)
    ensures RunReports(IDLE, l, Taps(us), device).mods == 0 && LastReport(Taps(us)) == EMPTY_REPORT
    decreases |us|
  {
    hide WfLayout, OnReport, Burst, Plain, C.Presses, PressCode;
    if us == [] {
      NoPress();
    } else {
      var n := |us| - 1;
      TapsType(l, us[..n], device);
      hide RunReports, Stream, LastReport;
      TapMore(l, Taps(us[..n]), us[n], device);
      assert PressCodes(l, us) == PressCodes(l, us[..n]) + [PressCode(l, us[n], 0)];
    }
  }

  lemma NoPress()
    ensures C.Presses([]) == []
  {
  }

  // ---- The QWERTY tables ----

  /** hid_usage_to_set1 */
  function ScanCode(u: nat): nat {
    match u
    case 0x04 => 0x1E case 0x05 => 0x30 case 0x06 => 0x2E case 0x07 => 0x20 case 0x08 => 0x12
    case 0x09 => 0x21 case 0x0A => 0x22 case 0x0B => 0x23 case 0x0C => 0x17 case 0x0D => 0x24
    case 0x0E => 0x25 case 0x0F => 0x26 case 0x10 => 0x32 case 0x11 => 0x31 case 0x12 => 0x18
    case 0x13 => 0x19 case 0x14 => 0x10 case 0x15 => 0x13 case 0x16 => 0x1F case 0x17 => 0x14
    case 0x18 => 0x16 case 0x19 => 0x2F case 0x1A => 0x11 case 0x1B => 0x2D case 0x1C => 0x15
    case 0x1D => 0x2C case 0x1E => 0x02 case 0x1F => 0x03 case 0x20 => 0x04 case 0x21 => 0x05
    case 0x22 => 0x06 case 0x23 => 0x07 case 0x24 => 0x08 case 0x25 => 0x09 case 0x26 => 0x0A
    case 0x27 => 0x0B case 0x2C => 0x39 case 0x2D => 0x0C case 0x2E => 0x0D case 0x2F => 0x1A
    case 0x30 => 0x1B case 0x31 => 0x2B case 0x33 => 0x27 case 0x34 => 0x28 case 0x35 => 0x29
    case 0x36 => 0x33 case 0x37 => 0x34 case 0x38 => 0x35
    case _ => NO_SCANCODE
  }

  /** sc_ascii_qwerty, as character codes; a question mark stands for no character. */
  function PlainCharacter(sc: nat): (c: nat)
    ensures c < 0x80
  {
    match sc
    case 2 => 49 case 3 => 50 case 4 => 51 case 5 => 52 case 6 => 53 case 7 => 54
    case 8 => 55 case 9 => 56 case 10 => 57 case 11 => 48 case 12 => 45 case 13 => 61
    case 16 => 113 case 17 => 119 case 18 => 101 case 19 => 114 case 20 => 116 case 21 => 121
    case 22 => 117 case 23 => 105 case 24 => 111 case 25 => 112 case 26 => 91 case 27 => 93
    case 30 => 97 case 31 => 115 case 32 => 100 case 33 => 102 case 34 => 103 case 35 => 104
    case 36 => 106 case 37 => 107 case 38 => 108 case 39 => 59 case 40 => 39 case 41 => 96
    case 43 => 92 case 44 => 122 case 45 => 120 case 46 => 99 case 47 => 118 case 48 => 98
    case 49 => 110 case 50 => 109 case 51 => 44 case 52 => 46 case 53 => 47 case 57 => 32
    case _ => QUESTION_MARK
  }

  /** sc_ascii_qwerty_cap: capital letters, and the rest as above. */
  function ShiftedCharacter(sc: nat): (c: nat)
    ensures c < 0x80
  {
    match sc
    case 16 => 81 case 17 => 87 case 18 => 69 case 19 => 82 case 20 => 84 case 21 => 89
    case 22 => 85 case 23 => 73 case 24 => 79 case 25 => 80 case 30 => 65 case 31 => 83
    case 32 => 68 case 33 => 70 case 34 => 71 case 35 => 72 case 36 => 74 case 37 => 75
    case 38 => 76 case 44 => 90 case 45 => 88 case 46 => 67 case 47 => 86 case 48 => 66
    case 49 => 78 case 50 => 77
    case _ => PlainCharacter(sc)
  }

  const QWERTY: Layout := Layout(map u: nat | 0 <= u < 256 && ScanCode(u) != NO_SCANCODE :: ScanCode(u),
                                 seq(TABLE_LENGTH, i requires 0 <= i => PlainCharacter(i)),
                                 seq(TABLE_LENGTH, i requires 0 <= i => ShiftedCharacter(i)))

  lemma QwertyWf()
    ensures WfLayout(QWERTY)
  {
    hide PlainCharacter, ShiftedCharacter;
  }

  lemma QwertyTables(u: nat)
    requires u < 256 && ScanCode(u) < TABLE_LENGTH
    ensures u in QWERTY.scancodes && QWERTY.scancodes[u] == ScanCode(u)
    ensures QWERTY.normal[ScanCode(u)] == PlainCharacter(ScanCode(u))
    ensures QWERTY.shifted[ScanCode(u)] == ShiftedCharacter(ScanCode(u))
  {
    hide PlainCharacter, ShiftedCharacter, ScanCode;
  }

  /** The letters, in the order of their usages. */
  lemma LetterTables(u: nat)
    requires 4 <= u <= 29
    ensures ScanCode(u) < TABLE_LENGTH
    ensures PlainCharacter(ScanCode(u)) == 'a' as nat + (u - 4)
    ensures ShiftedCharacter(ScanCode(u)) == 'A' as nat + (u - 4)
  {
  }

  /** On the QWERTY tables the usages 4 to 29 are the letters a to z, capital under shift or caps lock. */
  lemma QwertyLetter(u: nat, m: Mods)
    requires 4 <= u <= 29
    ensures WfLayout(QWERTY)
    ensures PressCode(QWERTY, u, m) ==
      (if m & 0x100 != 0 || m & 0x001 != 0 then 'A' as nat else 'a' as nat) + (u - 4)
  {
    QwertyWf();
    LetterTables(u);
    QwertyTables(u);
    PressGives(QWERTY, u, m);
    hide PlainCharacter, ShiftedCharacter, ScanCode, PressCode, ExtendedCode;
  }

  // ---- Words ----

  /** Lower-case letters and spaces. */
  predicate Word(s: string) {
    forall i :: 0 <= i < |s| ==> 'a' <= s[i] <= 'z' || s[i] == ' '
  }

  function UsageOf(c: char): nat {
    if 'a' <= c <= 'z' then 4 + (c as nat - 'a' as nat) else 0x2C
  }

  /** The keys of the word, then Enter. */
  function KeysFor(s: string): (us: seq<nat>)
    ensures |us| == |s| + 1
  {
    seq(|s|, i requires 0 <= i < |s| => UsageOf(s[i])) + [0x28]
  }

  /** Keys without a character on QWERTY, and the space bar. */
  lemma QwertyOthers()
    ensures WfLayout(QWERTY) && NoCharacter(QWERTY, 0x28) && PressCode(QWERTY, 0x28, 0) == 0x0D
    ensures forall m: Mods :: PressCode(QWERTY, 0x2C, m) == 0x20
    ensures ReleaseCode(QWERTY, 0x28) < 0x140 && ReleaseCode(QWERTY, 0x2C) < 0x140
  {
    QwertyWf();
    assert ScanCode(0x28) == NO_SCANCODE && ScanCode(0x2C) == 57;
    assert PlainCharacter(57) == 0x20 && ShiftedCharacter(57) == 0x20;
    QwertyTables(0x2C);
    PressGives(QWERTY, 0x28, 0);
    hide PlainCharacter, ShiftedCharacter, ScanCode, PressCode, ReleaseCode;
    ReleaseGives(QWERTY, 0x28);
    ReleaseGives(QWERTY, 0x2C);
    forall m: Mods ensures PressCode(QWERTY, 0x2C, m) == 0x20 {
      PressGives(QWERTY, 0x2C, m);
    }
  }

  lemma LetterPlain(u: nat)
    requires 4 <= u <= 29
    ensures WfLayout(QWERTY) && Plain(QWERTY, u) && PressCode(QWERTY, u, 0) == 'a' as nat + (u - 4)
  {
    QwertyLetter(u, 0);
    LetterTables(u);
    QwertyTables(u);
    hide PlainCharacter, ShiftedCharacter, ScanCode, PressCode, ReleaseCode;
    ReleaseGives(QWERTY, u);
  }

  lemma WordPresses(s: string)
    requires Word(s)
    ensures WfLayout(QWERTY) && AllPlain(QWERTY, KeysFor(s)) && PressCodes(QWERTY, KeysFor(s)) == Codes(s) + [0x0D]
  {
    hide PressCode, ReleaseCode, WfLayout, ScanCode;
    QwertyOthers();
    var us := KeysFor(s);
    forall i | 0 <= i < |us|
      ensures Plain(QWERTY, us[i]) && PressCode(QWERTY, us[i], 0) == (Codes(s) + [0x0D])[i]
    {
      if i < |s| && 'a' <= s[i] <= 'z' { LetterPlain(us[i]); }
    }
  }

  /** A word of up to 1999 letters and spaces tapped on a QWERTY keyboard, and Enter: its presses are the word
      and Enter, and they leave exactly the word on the line. */
  lemma WordTyped(s: string, device: nat)
    requires Word(s) && |s| <= 1999
    ensures WfLayout(QWERTY)
    ensures C.Presses(Stream(QWERTY, Taps(KeysFor(s)), device)) == Codes(s) + [0x0D]
    ensures EditAll(Line("", ""), C.Presses(Stream(QWERTY, Taps(KeysFor(s)), device))) == Line(s, "")
  {
    hide WfLayout, AllPlain, KeysFor, Taps, Stream, C.Presses, EditAll;
    WordPresses(s);
    TapsType(QWERTY, KeysFor(s), device);
    TypeCommand(s);
  }

  /** From the bus to the command line: when the reports a registered keyboard completed after its pipe was
      opened are those of a word tapped on QWERTY and Enter, then over every interleaving that drops nothing,
      once everything has been read, the line is exactly the word and the command is complete. */
  lemma WordFromTheBus(s: State, r: OpenRequest, devices: seq<KeyboardLayer.Device>, acts: seq<Action>, word: string)
    requires StateInv(s) && Open(s, r).1 != -1 && WfDevices(devices) && Word(word) && |word| <= 1999
    requires var d := r.devIndex % 256;
      d < |devices| && devices[d].registered && devices[d].enabled && devices[d].last == EMPTY_REPORT
    requires var x, id := Opened(s, r, devices, IDLE, Line("", "")), Open(s, r).1;
      WfSystem(x) && WfLayout(QWERTY) ==>
        && PossibleRun(x, QWERTY, acts) && ClosePipe(id) !in DriverSteps(acts) && Flush !in acts
        && (forall h :: h in HandedAll(x, QWERTY, acts) ==> h.pipe == id)
        && id >= 0 && ReportsOf(Project(HandedAll(x, QWERTY, acts), id)) == Taps(KeysFor(word))
        && NothingDropped(x, QWERTY, acts) && ActAll(x, QWERTY, acts).kbd.events == []
    ensures var x := Opened(s, r, devices, IDLE, Line("", ""));
      && WfLayout(QWERTY) && WfSystem(x) && PossibleRun(x, QWERTY, acts)
      && ActAll(x, QWERTY, acts).line == Line(word, "") && ActAll(x, QWERTY, acts).ended
  {
    hide StateInv, Open, WfDevices, PossibleRun, ActAll, HandedAll, NothingDropped, WfLayout, DriverSteps;
    hide Taps, KeysFor, Stream, C.Presses, EditAll, Project, ReportsOf, ReadAll, RunReports;
    QwertyWf();
    var d := r.devIndex % 256;
    OneKeyboardTypes(s, r, QWERTY, devices, Line("", ""), acts, SHIFTS);
    WordTyped(word, devices[d].id);
  }
}
