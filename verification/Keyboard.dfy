/**
 The keyboard layer: boot reports become modifier transitions, releases and presses, each of
 which updates the tracked modifiers and enters the event queue.
 */
module Keyboard {
  import opened Modifiers
  import opened HidReport
  import Ring = EventRing

  const KC_NONE: nat := 0
  const NO_SCANCODE: nat := 0xFF
  const TABLE_LENGTH: nat := 58
  const QUESTION_MARK: nat := 63

  // ---- Key codes ----

  /** A usage table and two character tables, indexed by set-1 scan code; any layout will do. */
  datatype Layout = Layout(scancodes: map<nat, nat>, normal: seq<nat>, shifted: seq<nat>)

  predicate WfLayout(l: Layout) {
    && |l.normal| == TABLE_LENGTH && |l.shifted| == TABLE_LENGTH
    && forall i :: 0 <= i < TABLE_LENGTH ==> l.normal[i] < 0x80 && l.shifted[i] < 0x80
  }

  /** kbd_layout_ascii_from_set1: the shifted table is used when the masked caps and shift words
      differ; a question mark stands for no character. */
  function AsciiFromSet1(l: Layout, sc: nat, mods: Mods): (c: nat)
    requires WfLayout(l)
    ensures c < 0x80
  {
    if sc >= TABLE_LENGTH then 0
    else
      var c := if (mods & CAPS) ^ (mods & SHIFT) != 0 then l.shifted[sc] else l.normal[sc];
      if c == QUESTION_MARK then 0 else c
  }

  /** The two masks are different bits, so the words differ when either is set: caps lock and shift
      together choose the shifted table too, rather than cancelling out. */
  lemma CapsOrShiftShifts(l: Layout, sc: nat, mods: Mods)
    requires WfLayout(l) && sc < TABLE_LENGTH
    ensures var c := if Set(mods, CAPS) || Set(mods, SHIFT) then l.shifted[sc] else l.normal[sc];
      AsciiFromSet1(l, sc, mods) == if c == QUESTION_MARK then 0 else c
  {
  }

  function AsciiOf(l: Layout, usage: nat, mods: Mods): (c: nat)
    requires WfLayout(l)
    ensures c < 0x80
  {
    var sc := if usage in l.scancodes then l.scancodes[usage] else NO_SCANCODE;
    if sc == NO_SCANCODE then 0 else AsciiFromSet1(l, sc, mods)
  }

  /** hid_usage_to_ext_kc */
  function ExtendedCode(u: nat): nat {
    match u
    case 0x28 => 0x0D case 0x29 => 0x1B case 0x2A => 0x08 case 0x2B => 0x09 case 0x2C => 0x20
    case 0x3A => 0x120 case 0x3B => 0x121 case 0x3C => 0x122 case 0x3D => 0x123 case 0x3E => 0x124 case 0x3F => 0x125
    case 0x40 => 0x126 case 0x41 => 0x127 case 0x42 => 0x128 case 0x43 => 0x129 case 0x44 => 0x12A case 0x45 => 0x12B
    case 0x39 => KC_CAPS_LOCK
    case 0x52 => 0x100 case 0x51 => 0x101 case 0x50 => 0x102 case 0x4F => 0x103 case 0x4A => 0x104
    case 0x4D => 0x105 case 0x4B => 0x106 case 0x4E => 0x107 case 0x49 => 0x108 case 0x4C => 0x109
    case _ => KC_NONE
  }

  /** A release prefers the extended code and looks the character up without modifiers. */
  function ReleaseCode(l: Layout, u: nat): nat
    requires WfLayout(l)
  {
    if ExtendedCode(u) != KC_NONE then ExtendedCode(u) else AsciiOf(l, u, 0)
  }

  /** A press prefers the character under the current modifiers. */
  function PressCode(l: Layout, u: nat, mods: Mods): nat
    requires WfLayout(l)
  {
    if AsciiOf(l, u, mods) != 0 then AsciiOf(l, u, mods) else ExtendedCode(u)
  }

  // ---- Events ----

  datatype Event = Event(press: bool, code: nat, mods: Mods, device: nat)

  /** The layer's state: tracked modifiers and the two queues, oldest first. */
  datatype Kbd = Kbd(mods: Mods, events: seq<Event>, chars: seq<nat>)

  function Enqueue<T>(q: seq<T>, e: T): seq<T> {
    if |q| < Ring.CAPACITY - 1 then q + [e] else q
  }

  /** kbd_dispatch_event: the event carries the modifiers after it; a press of a character also
      enters the character queue. */
  function Dispatch(k: Kbd, press: bool, code: nat, device: nat): Kbd {
    var mods := Dispatched(k.mods, press, code);
    Kbd(mods, Enqueue(k.events, Event(press, code, mods, device)),
        if press && 0 < code < 0x80 then Enqueue(k.chars, code) else k.chars)
  }

  // ---- One report ----

  function EmitDeltas(k: Kbd, prev: Mods, now: Mods, device: nat, i: nat): Kbd
    requires i <= |KEYS|
    decreases |KEYS| - i
  {
    if i == |KEYS| then k
    else
      var k' := if Moved(prev, now, KEYS[i].mask) then Dispatch(k, Set(now, KEYS[i].mask), KEYS[i].code, device) else k;
      EmitDeltas(k', prev, now, device, i + 1)
  }

  function EmitRelease(k: Kbd, l: Layout, u: nat, device: nat): Kbd
    requires WfLayout(l)
  {
    if ReleaseCode(l, u) != KC_NONE then Dispatch(k, false, ReleaseCode(l, u), device) else k
  }

  function EmitPress(k: Kbd, l: Layout, u: nat, device: nat): Kbd
    requires WfLayout(l)
  {
    var code := PressCode(l, u, k.mods);
    if code != KC_NONE then Dispatch(k, true, code, device) else k
  }

  function EmitReleases(k: Kbd, l: Layout, us: seq<nat>, device: nat): Kbd
    requires WfLayout(l)
    decreases |us|
  {
    if us == [] then k else EmitReleases(EmitRelease(k, l, us[0], device), l, us[1..], device)
  }

  function EmitPresses(k: Kbd, l: Layout, us: seq<nat>, device: nat): Kbd
    requires WfLayout(l)
    decreases |us|
  {
    if us == [] then k else EmitPresses(EmitPress(k, l, us[0], device), l, us[1..], device)
  }

  /** One boot report after another: modifier transitions, then releases, then presses. */
  function OnReport(k: Kbd, l: Layout, prev: Report, now: Report, device: nat): Kbd
    requires WfLayout(l)
  {
    var k1 := EmitDeltas(k, ModsFromHid(prev.mods), ModsFromHid(now.mods), device, 0);
    var k2 := EmitReleases(k1, l, Missing(prev.keys, now.keys), device);
    EmitPresses(k2, l, Missing(now.keys, prev.keys), device)
  }

  // ---- Tracked modifiers ----

  lemma {:induction false} DeltasMods(k: Kbd, prev: Mods, now: Mods, device: nat, i: nat)
    requires i <= |KEYS|
    ensures EmitDeltas(k, prev, now, device, i).mods == Transitions(k.mods, prev, now, i)
    decreases |KEYS| - i
  {
    hide Moved, Set, Dispatched, KEYS;
    if i < |KEYS| {
      var k' := if Moved(prev, now, KEYS[i].mask) then Dispatch(k, Set(now, KEYS[i].mask), KEYS[i].code, device) else k;
      DeltasMods(k', prev, now, device, i + 1);
    }
  }

  /** Key codes of usages are never those of side keys. */
  lemma CodesNeutral(l: Layout, u: nat, mods: Mods)
    requires WfLayout(l)
    ensures SideBits(ReleaseCode(l, u)) == (0, 0) && SideBits(PressCode(l, u, mods)) == (0, 0)
  {
  }

  /** An event of another key leaves the modifier bits alone. */
  lemma NeutralDispatch(k: Kbd, press: bool, code: nat, device: nat, bit: Mods)
    requires IsBit(bit) && SideBits(code) == (0, 0)
    ensures Set(Dispatch(k, press, code, device).mods, bit) == Set(k.mods, bit)
  {
  }

  lemma {:induction false} ReleasesNeutral(k: Kbd, l: Layout, us: seq<nat>, device: nat, bit: Mods)
    requires WfLayout(l) && IsBit(bit)
    ensures Set(EmitReleases(k, l, us, device).mods, bit) == Set(k.mods, bit)
    decreases |us|
  {
    hide Set, SideBits, ReleaseCode, Dispatch, WfLayout, IsBit;
    if us != [] {
      CodesNeutral(l, us[0], k.mods);
      NeutralDispatch(k, false, ReleaseCode(l, us[0]), device, bit);
      ReleasesNeutral(EmitRelease(k, l, us[0], device), l, us[1..], device, bit);
    }
  }

  lemma {:induction false} PressesNeutral(k: Kbd, l: Layout, us: seq<nat>, device: nat, bit: Mods)
    requires WfLayout(l) && IsBit(bit)
    ensures Set(EmitPresses(k, l, us, device).mods, bit) == Set(k.mods, bit)
    decreases |us|
  {
    hide Set, SideBits, PressCode, Dispatch, WfLayout, IsBit;
    if us != [] {
      CodesNeutral(l, us[0], k.mods);
      NeutralDispatch(k, true, PressCode(l, us[0], k.mods), device, bit);
      PressesNeutral(EmitPress(k, l, us[0], device), l, us[1..], device, bit);
    }
  }

  /** The modifier bits of a pair after one whole report. */
  lemma ReportPair(k: Kbd, l: Layout, prev: Report, now: Report, device: nat, p: Pair)
    requires WfLayout(l) && IsPair(p)
    ensures var g' := OnReport(k, l, prev, now, device).mods;
      var (a, r) := (Down(prev.mods, p.left), Down(prev.mods, p.right));
      var (a', r') := (Down(now.mods, p.left), Down(now.mods, p.right));
      && Set(g', p.side) == (if r != r' then r' else Set(k.mods, p.side))
      && Set(g', p.shared) == if r != r' then r' else if (a || r) != (a' || r') then a' || r' else Set(k.mods, p.shared)
  {
    hide Set, Down, EmitDeltas, EmitReleases, EmitPresses, Transitions, ModsFromHid, WfLayout, IsPair, IsBit;
    RowWrites(0, p);
    DeltasMods(k, ModsFromHid(prev.mods), ModsFromHid(now.mods), device, 0);
    PairTransition(k.mods, prev.mods, now.mods, p);
    var k1 := EmitDeltas(k, ModsFromHid(prev.mods), ModsFromHid(now.mods), device, 0);
    var k2 := EmitReleases(k1, l, Missing(prev.keys, now.keys), device);
    ReleasesNeutral(k1, l, Missing(prev.keys, now.keys), device, p.side);
    ReleasesNeutral(k1, l, Missing(prev.keys, now.keys), device, p.shared);
    PressesNeutral(k2, l, Missing(now.keys, prev.keys), device, p.side);
    PressesNeutral(k2, l, Missing(now.keys, prev.keys), device, p.shared);
  }

  // ---- Runs of reports ----

  function LastReport(rs: seq<Report>): Report {
    if rs == [] then EMPTY_REPORT else rs[|rs| - 1]
  }

  /** The layer after a run of reports of one keyboard. */
  function RunReports(k: Kbd, l: Layout, rs: seq<Report>, device: nat): Kbd
    requires WfLayout(l)
    decreases |rs|
  {
    if rs == [] then k
    else
      var n := |rs| - 1;
      OnReport(RunReports(k, l, rs[..n], device), l, LastReport(rs[..n]), rs[n], device)
  }

  /** The right key was down before report `k`, and from there on the left key alone is held. */
  ghost predicate LiftedAt(rs: seq<Report>, p: Pair, k: nat)
    requires 1 <= k < |rs|
  {
    && Down(rs[k - 1].mods, p.right)
    && forall j :: k <= j < |rs| ==> Down(rs[j].mods, p.left) && !Down(rs[j].mods, p.right)
  }

  /** The left key alone has been held ever since the right key was lifted under it. */
  ghost predicate LiftedUnder(rs: seq<Report>, p: Pair) {
    exists k :: 1 <= k < |rs| && LiftedAt(rs, p, k)
  }

  lemma LiftedAtStep(rs: seq<Report>, p: Pair, k: nat)
    requires 1 <= k < |rs| - 1
    ensures var n := |rs| - 1;
      LiftedAt(rs, p, k) <==> LiftedAt(rs[..n], p, k) && Down(rs[n].mods, p.left) && !Down(rs[n].mods, p.right)
  {
  }

  lemma LiftedStep(rs: seq<Report>, p: Pair)
    requires rs != []
    ensures var n := |rs| - 1; var prev := LastReport(rs[..n]).mods;
      LiftedUnder(rs, p) <==>
        && Down(rs[n].mods, p.left) && !Down(rs[n].mods, p.right)
        && (Down(prev, p.right) || LiftedUnder(rs[..n], p))
  {
    hide Down;
    var n := |rs| - 1;
    EmptyReportUp(p);
    forall k | 1 <= k < n
      ensures LiftedAt(rs, p, k) <==> LiftedAt(rs[..n], p, k) && Down(rs[n].mods, p.left) && !Down(rs[n].mods, p.right)
    {
      LiftedAtStep(rs, p, k);
    }
    assert n > 0 ==> (LiftedAt(rs, p, n) <==>
      Down(rs[n - 1].mods, p.right) && Down(rs[n].mods, p.left) && !Down(rs[n].mods, p.right));
  }

  lemma EmptyReportUp(p: Pair)
    ensures !Down(EMPTY_REPORT.mods, p.left) && !Down(EMPTY_REPORT.mods, p.right)
  {
  }

  /** The exact modifier state after every run of reports: the right bit is that of the latest
      report, and the shared bit is too, except while the left key alone has been held since the
      right key was lifted under it; then it is missing. */
  lemma {:induction false} ModifiersExact(k: Kbd, l: Layout, rs: seq<Report>, device: nat, p: Pair)
    requires WfLayout(l) && IsPair(p) && !Set(k.mods, p.side) && !Set(k.mods, p.shared)
    ensures var g := RunReports(k, l, rs, device).mods; var m := LastReport(rs).mods;
      && Set(g, p.side) == Down(m, p.right)
      && Set(g, p.shared) == ((Down(m, p.left) || Down(m, p.right)) && !LiftedUnder(rs, p))
    decreases |rs|
  {
    hide Set, Down, OnReport, IsPair, WfLayout, LiftedUnder;
    if rs == [] {
      EmptyReportUp(p);
    } else {
      var n := |rs| - 1;
      ModifiersExact(k, l, rs[..n], device, p);
      ReportPair(RunReports(k, l, rs[..n], device), l, LastReport(rs[..n]), rs[n], device, p);
      LiftedStep(rs, p);
      LiftedLast(rs[..n], p);
    }
  }

  lemma LiftedLast(rs: seq<Report>, p: Pair)
    ensures LiftedUnder(rs, p) ==> Down(LastReport(rs).mods, p.left) && !Down(LastReport(rs).mods, p.right)
  {
  }

  /** No modifier sticks: a tracked bit is set only while one of its keys is held. */
  lemma NoStuckModifier(l: Layout, rs: seq<Report>, device: nat, p: Pair)
    requires WfLayout(l) && IsPair(p)
    ensures var g := RunReports(Kbd(0, [], []), l, rs, device).mods; var m := LastReport(rs).mods;
      && (Set(g, p.side) ==> Down(m, p.right))
      && (Set(g, p.shared) ==> Down(m, p.left) || Down(m, p.right))
  {
    ZeroBits(p);
    hide Set, Down, RunReports, LiftedUnder;
    ModifiersExact(Kbd(0, [], []), l, rs, device, p);
  }

  /** For instance both shift keys and then the left one alone: shift is held, its bit is clear. */
  lemma LiftedShiftIsLost(l: Layout, device: nat)
    requires WfLayout(l)
    ensures var rs := [Report(0x22, EMPTY_REPORT.keys), Report(0x02, EMPTY_REPORT.keys)];
      var g := RunReports(Kbd(0, [], []), l, rs, device).mods;
      Down(LastReport(rs).mods, SHIFTS.left) && !Set(g, SHIFT)
  {
    hide RunReports, WfLayout;
    var rs := [Report(0x22, EMPTY_REPORT.keys), Report(0x02, EMPTY_REPORT.keys)];
    ZeroBits(SHIFTS);
    assert LiftedAt(rs, SHIFTS, 1);
    assert LiftedUnder(rs, SHIFTS);
    ModifiersExact(Kbd(0, [], []), l, rs, device, SHIFTS);
  }

  lemma ZeroBits(p: Pair)
    ensures !Set(0, p.side) && !Set(0, p.shared)
  {
  }
}
