/**
 The keyboard layer in memory: the tracked modifier word, the two rings and the table of USB
 keyboards, updated in place by one boot report.
 */
module KeyboardLayer {
  import opened Modifiers
  import HidReport
  import opened Keyboard
  import Ring = EventRing

  const MAX_USB_KEYBOARDS: nat := 4

  /** A table entry: registered, enabled, logical id and the last report seen. */
  datatype Device = Device(registered: bool, enabled: bool, id: nat, last: HidReport.Report)

  // ---- One step of each loop ----

  lemma DeltaStep(k: Kbd, prev: Mods, now: Mods, device: nat, i: nat)
    requires i < |KEYS|
    ensures EmitDeltas(k, prev, now, device, i) == EmitDeltas(
      if Moved(prev, now, KEYS[i].mask) then Dispatch(k, Set(now, KEYS[i].mask), KEYS[i].code, device) else k,
      prev, now, device, i + 1)
  {
  }

  /** Equal modifier words send nothing. */
  lemma {:induction false} NoDeltas(k: Kbd, m: Mods, device: nat, i: nat)
    requires i <= |KEYS|
    ensures EmitDeltas(k, m, m, device, i) == k
    decreases |KEYS| - i
  {
    hide Dispatch, Set;
    if i < |KEYS| {
      NoDeltas(k, m, device, i + 1);
    }
  }

  lemma ReleaseStep(k: Kbd, l: Layout, a: seq<nat>, b: seq<nat>, device: nat, i: nat)
    requires WfLayout(l) && i < |a|
    ensures EmitReleases(k, l, HidReport.Missing(a[i..], b), device) == EmitReleases(
      if a[i] != 0 && a[i] !in b then EmitRelease(k, l, a[i], device) else k,
      l, HidReport.Missing(a[i + 1..], b), device)
  {
  }

  lemma PressStep(k: Kbd, l: Layout, a: seq<nat>, b: seq<nat>, device: nat, i: nat)
    requires WfLayout(l) && i < |a|
    ensures EmitPresses(k, l, HidReport.Missing(a[i..], b), device) == EmitPresses(
      if a[i] != 0 && a[i] !in b then EmitPress(k, l, a[i], device) else k,
      l, HidReport.Missing(a[i + 1..], b), device)
  {
  }

  lemma DispatchedCases(g: Mods, code: nat)
    ensures Dispatched(g, true, code) == Pressed(g ^ LockBit(code), 0, SideBits(code).0, SideBits(code).1)
    ensures Dispatched(g, false, code) == Released(g, SideBits(code).0, SideBits(code).1)
  {
    hide LockBit, SideBits, Pressed, Released;
    LockFirst(g, LockBit(code), SideBits(code).0, SideBits(code).1);
  }

  lemma LockFirst(g: Mods, lock: Mods, side: Mods, shared: Mods)
    ensures Pressed(g, lock, side, shared) == Pressed(g ^ lock, 0, side, shared)
  {
  }

  /** A press of a lock key toggles its bit. */
  method ToggleLocks(g: Mods, code: nat) returns (r: Mods)
    ensures r == g ^ LockBit(code)
  {
    r := g;
    if code == KC_CAPS_LOCK { r := r ^ CAPS; }
    if code == KC_NUM_LOCK { r := r ^ NUM; }
    if code == KC_SCROLL_LOCK { r := r ^ SCROLL; }
  }

  lemma PressInSteps(g: Mods, side: Mods, shared: Mods)
    ensures Pressed(g, 0, side, shared) == (g | side) | shared
  {
  }

  lemma PressNothing(g: Mods)
    ensures Pressed(g, 0, 0, 0) == g
  {
  }

  lemma ReleaseInSteps(g: Mods, side: Mods, shared: Mods)
    ensures Released(g, side, shared) == (g & !side) & !shared
  {
  }

  lemma ReleaseNothing(g: Mods)
    ensures Released(g, 0, 0) == g
  {
  }

  /** The switch over the side keys. */
  method SidesOf(code: nat) returns (side: Mods, shared: Mods)
    ensures (side, shared) == SideBits(code)
  {
    side, shared := 0, 0;
    if code == KC_LSHIFT { side := SHIFT; shared := SHIFT; }
    else if code == KC_RSHIFT { side := RSHIFT; shared := SHIFT; }
    else if code == KC_LCTRL { side := CTRL; shared := CTRL; }
    else if code == KC_RCTRL { side := RCTRL; shared := CTRL; }
    else if code == KC_LALT { side := ALT; shared := ALT; }
    else if code == KC_RALT { side := RALT; shared := ALT; }
    else if code == KC_LGUI { side := GUI; shared := GUI; }
    else if code == KC_RGUI { side := RGUI; shared := GUI; }
  }

  /** A press of a side key sets its bit and the shared bit; other keys set nothing. */
  method PressSides(g: Mods, code: nat) returns (r: Mods)
    ensures r == Pressed(g, 0, SideBits(code).0, SideBits(code).1)
  {
    hide SideBits, Pressed, Released;
    var side, shared := SidesOf(code);
    PressInSteps(g, side, shared);
    PressNothing(g);
    r := g;
    if side != 0 || shared != 0 {
      r := r | side;
      r := r | shared;
    }
  }

  /** A release of a side key clears both bits. */
  method ReleaseSides(g: Mods, code: nat) returns (r: Mods)
    ensures r == Released(g, SideBits(code).0, SideBits(code).1)
  {
    hide SideBits, Pressed, Released;
    var side, shared := SidesOf(code);
    ReleaseInSteps(g, side, shared);
    ReleaseNothing(g);
    r := g;
    if side != 0 || shared != 0 {
      r := r & !side;
      r := r & !shared;
    }
  }

  /** report_contains */
  method Contains(keys: seq<nat>, usage: nat) returns (found: bool)
    ensures found <==> usage in keys
  {
    for i := 0 to |keys|
      invariant usage !in keys[..i]
    {
      if keys[i] == usage {
        return true;
      }
    }
    return false;
  }

  class KeyboardLayer {
    const layout: Layout
    const events: Ring.Buffer<Event>
    const chars: Ring.Buffer<nat>
    const devices: array<Device>
    var mods: Mods

    ghost predicate Valid()
      reads this, events, chars, devices
    {
      && WfLayout(layout)
      && events.Valid() && chars.Valid()
      && events as object != chars as object && events.slots as object != chars.slots as object
      && devices as object != events.slots as object && devices as object != chars.slots as object
      && devices.Length == MAX_USB_KEYBOARDS
      && forall i :: 0 <= i < MAX_USB_KEYBOARDS ==> HidReport.Wf(devices[i].last)
    }

    ghost function View(): Kbd
      requires Valid()
      reads this, events, events.slots, chars, chars.slots, devices
    {
      Kbd(mods, Ring.Contents(events.View()), Ring.Contents(chars.View()))
    }

    /** kbd_subsystem_init, with no USB keyboard registered yet. */
    constructor (l: Layout)
      requires WfLayout(l)
      ensures Valid() && layout == l && View() == Kbd(0, [], [])
      ensures forall i :: 0 <= i < MAX_USB_KEYBOARDS ==> !devices[i].registered
    {
      layout := l;
      events := new Ring.Buffer<Event>();
      chars := new Ring.Buffer<nat>();
      devices := new Device[MAX_USB_KEYBOARDS](_ => Device(false, false, 0, HidReport.EMPTY_REPORT));
      mods := 0;
      new;
      hide Ring.Contents, WfLayout;
    }

    /** The modifier update of kbd_dispatch_event. */
    method UpdateMods(press: bool, code: nat)
      modifies this`mods
      ensures mods == Dispatched(old(mods), press, code)
    {
      hide *;
      var g := mods;
      if press {
        g := ToggleLocks(g, code);
        g := PressSides(g, code);
      } else {
        g := ReleaseSides(g, code);
      }
      mods := g;
      DispatchedCases(old(mods), code);
    }

    /** kbd_dispatch_event */
    method DispatchEvent(press: bool, code: nat, device: nat)
      requires Valid()
      modifies this`mods, events`head, events.slots, chars`head, chars.slots
      ensures Valid() && View() == Dispatch(old(View()), press, code, device)
    {
      hide Dispatched, Ring.Contents, Ring.Push, WfLayout, HidReport.Wf;
      UpdateMods(press, code);
      events.Put(Event(press, code, mods, device));
      if press && code < 0x80 {
        if code != 0 {
          chars.Put(code);
        }
      }
    }

    /** emit_modifier_deltas */
    method EmitModifierDeltas(prev: Mods, now: Mods, device: nat)
      requires Valid()
      modifies this`mods, events`head, events.slots, chars`head, chars.slots
      ensures Valid() && View() == EmitDeltas(old(View()), prev, now, device, 0)
    {
      hide Dispatch, Moved, Set, Ring.Contents, WfLayout, HidReport.Wf;
      for i := 0 to |KEYS|
        invariant Valid() && EmitDeltas(View(), prev, now, device, i) == EmitDeltas(old(View()), prev, now, device, 0)
      {
        DeltaStep(View(), prev, now, device, i);
        if Moved(prev, now, KEYS[i].mask) {
          DispatchEvent(Set(now, KEYS[i].mask), KEYS[i].code, device);
        }
      }
    }

    /** Releases for the keys of the last report that are gone. */
    method ReleaseKeys(prev: seq<nat>, now: seq<nat>, device: nat)
      requires Valid()
      modifies this`mods, events`head, events.slots, chars`head, chars.slots
      ensures Valid() && View() == EmitReleases(old(View()), layout, HidReport.Missing(prev, now), device)
    {
      hide Dispatch, EmitReleases, Ring.Contents, ExtendedCode, AsciiOf, WfLayout, HidReport.Wf;
      assert prev[0..] == prev;
      for i := 0 to |prev|
        invariant Valid()
        invariant EmitReleases(View(), layout, HidReport.Missing(prev[i..], now), device)
               == EmitReleases(old(View()), layout, HidReport.Missing(prev, now), device)
      {
        ReleaseStep(View(), layout, prev, now, device, i);
        var u := prev[i];
        var held := Contains(now, u);
        if u != 0 && !held {
          var code := ExtendedCode(u);
          if code == KC_NONE {
            var ch := AsciiOf(layout, u, 0);
            if ch != 0 { code := ch; }
          }
          if code != KC_NONE {
            DispatchEvent(false, code, device);
          }
        }
      }
      NoneLeft(View(), prev, now, device);
    }

    lemma NoneLeft(k: Kbd, prev: seq<nat>, now: seq<nat>, device: nat)
      requires WfLayout(layout)
      ensures EmitReleases(k, layout, HidReport.Missing(prev[|prev|..], now), device) == k
      ensures EmitPresses(k, layout, HidReport.Missing(prev[|prev|..], now), device) == k
    {
    }

    /** Presses for the keys of the new report that were not held before. */
    method PressKeys(now: seq<nat>, prev: seq<nat>, device: nat)
      requires Valid()
      modifies this`mods, events`head, events.slots, chars`head, chars.slots
      ensures Valid() && View() == EmitPresses(old(View()), layout, HidReport.Missing(now, prev), device)
    {
      hide Dispatch, EmitPresses, Ring.Contents, ExtendedCode, AsciiOf, WfLayout, HidReport.Wf;
      assert now[0..] == now;
      for i := 0 to |now|
        invariant Valid()
        invariant EmitPresses(View(), layout, HidReport.Missing(now[i..], prev), device)
               == EmitPresses(old(View()), layout, HidReport.Missing(now, prev), device)
      {
        PressStep(View(), layout, now, prev, device, i);
        var u := now[i];
        var held := Contains(prev, u);
        if u != 0 && !held {
          var code := AsciiOf(layout, u, mods);
          if code == 0 {
            code := ExtendedCode(u);
          }
          if code != KC_NONE {
            DispatchEvent(true, code, device);
          }
        }
      }
      NoneLeft(View(), now, prev, device);
    }

    /** A report of this table entry is looked at. */
    predicate Listens(index: int)
      requires devices.Length == MAX_USB_KEYBOARDS
      reads devices
    {
      0 <= index < MAX_USB_KEYBOARDS && devices[index].registered && devices[index].enabled
    }

    /** keyboard_usb_on_boot_report */
    method OnBootReport(index: int, report: HidReport.Report)
      requires Valid() && HidReport.Wf(report)
      modifies this`mods, events`head, events.slots, chars`head, chars.slots, devices
      ensures Valid()
      ensures !old(Listens(index)) ==> View() == old(View()) && devices[..] == old(devices[..])
      ensures old(Listens(index)) ==>
        && View() == OnReport(old(View()), layout, old(devices[index].last), report, old(devices[index].id))
        && devices[..] == old(devices[..])[index := old(devices[index]).(last := report)]
    {
      hide EmitDeltas, EmitReleases, EmitPresses, HidReport.Missing, ModsFromHid, Ring.Contents, WfLayout;
      if index < 0 || index >= MAX_USB_KEYBOARDS || !devices[index].registered || !devices[index].enabled {
        return;
      }
      var d := devices[index];
      var prev, now := ModsFromHid(d.last.mods), ModsFromHid(report.mods);
      NoDeltas(View(), now, d.id, 0);
      if now != prev {
        EmitModifierDeltas(prev, now, d.id);
      }
      ReleaseKeys(d.last.keys, report.keys, d.id);
      PressKeys(report.keys, d.last.keys, d.id);
      devices[index] := d.(last := report);
    }

    /** kbd_read_event and kbd_read_char */
    method ReadEvent() returns (ok: bool, e: Event)
      requires Valid()
      modifies events`tail
      ensures Valid() && ok == (old(View().events) != [])
      ensures View() == old(View()).(events := if ok then old(View().events)[1..] else [])
      ensures ok ==> e == old(View().events)[0]
    {
      hide Ring.Contents, Ring.Advance, Ring.Copy, Ring.Test, WfLayout, HidReport.Wf;
      ok, e := events.Take();
    }

    /** A null character stands for an empty queue. */
    method ReadChar() returns (c: nat)
      requires Valid()
      modifies chars`tail
      ensures Valid()
      ensures old(View().chars) == [] ==> c == 0 && View() == old(View())
      ensures old(View().chars) != [] ==>
        c == old(View().chars)[0] && View() == old(View()).(chars := old(View().chars)[1..])
    {
      hide Ring.Contents, Ring.Advance, Ring.Copy, Ring.Test, WfLayout, HidReport.Wf;
      var ok, ch := chars.Take();
      c := if ok then ch else 0;
    }
  }
}
