/**
 The events of the keyboard layer apart from its queue: what one report makes, what a run of
 reports from several keyboards makes, and how the bounded queue takes it.
 */
module KeyStream {
  import opened Modifiers
  import opened HidReport
  import opened Keyboard
  import opened KeyboardLayer
  import Ring = EventRing

  const ROOM: nat := Ring.CAPACITY - 1

  /** A queue keeps its oldest items and drops the newest. */
  function Clip<T>(q: seq<T>): (r: seq<T>)
    ensures |r| <= ROOM && r <= q && (|q| <= ROOM ==> r == q)
  {
    if |q| <= ROOM then q else q[..ROOM]
  }

  /** The characters among the events, in order: presses of codes below 0x80 other than NUL. */
  function CharsOf(es: seq<Event>): seq<nat> {
    if es == [] then []
    else (if es[0].press && 0 < es[0].code < 0x80 then [es[0].code] else []) + CharsOf(es[1..])
  }

  lemma {:induction false} CharsAppend(a: seq<Event>, b: seq<Event>)
    ensures CharsOf(a + b) == CharsOf(a) + CharsOf(b)
  {
    if a == [] {
      assert a + b == b;
    } else {
      assert (a + b)[0] == a[0] && (a + b)[1..] == a[1..] + b;
      CharsAppend(a[1..], b);
    }
  }

  lemma CharsOne(e: Event)
    ensures CharsOf([e]) == if e.press && 0 < e.code < 0x80 then [e.code] else []
  {
    assert [e][1..] == [];
  }

  /** The events one report makes, apart from any queue. */
  function Burst(m: Mods, l: Layout, prev: Report, now: Report, device: nat): seq<Event>
    requires WfLayout(l)
  {
    OnReport(Kbd(m, [], []), l, prev, now, device).events
  }

  // ---- One report and the queue ----

  /** `k` runs as `j` does, behind the events and characters that `q` started with. */
  ghost predicate Follows(k: Kbd, j: Kbd, q: Kbd) {
    && k.mods == j.mods && |j.events| <= ROOM
    && k.events == Clip(q.events + j.events)
    && (|q.chars| <= ROOM ==> k.chars == Clip(q.chars + CharsOf(j.events)))
  }

  /** Appending to a clipped queue clips the whole. */
  lemma EnqueueClips<T>(q: seq<T>, a: seq<T>, e: T)
    ensures Enqueue(Clip(q + a), e) == Clip(q + (a + [e]))
  {
    assert q + (a + [e]) == (q + a) + [e];
  }

  lemma DispatchFollows(k: Kbd, j: Kbd, q: Kbd, press: bool, code: nat, device: nat)
    requires Follows(k, j, q) && |j.events| < ROOM
    ensures Follows(Dispatch(k, press, code, device), Dispatch(j, press, code, device), q)
    ensures |Dispatch(j, press, code, device).events| == |j.events| + 1
  {
    hide Dispatched, CharsOf, Clip;
    var e := Event(press, code, Dispatched(k.mods, press, code), device);
    EnqueueClips(q.events, j.events, e);
    CharsAppend(j.events, [e]);
    CharsOne(e);
    EnqueueClips(q.chars, CharsOf(j.events), code);
    assert CharsOf(j.events) + [] == CharsOf(j.events);
  }

  lemma {:induction false} DeltasFollow(k: Kbd, j: Kbd, q: Kbd, prev: Mods, now: Mods, device: nat, i: nat)
    requires i <= |KEYS| && Follows(k, j, q) && |j.events| + (|KEYS| - i) <= ROOM
    ensures Follows(EmitDeltas(k, prev, now, device, i), EmitDeltas(j, prev, now, device, i), q)
    ensures |EmitDeltas(j, prev, now, device, i).events| <= |j.events| + (|KEYS| - i)
    decreases |KEYS| - i
  {
    hide Follows, Dispatch, Moved, Set, KEYS;
    if i < |KEYS| {
      if Moved(prev, now, KEYS[i].mask) {
        var press, code := Set(now, KEYS[i].mask), KEYS[i].code;
        DispatchFollows(k, j, q, press, code, device);
        DeltasFollow(Dispatch(k, press, code, device), Dispatch(j, press, code, device), q, prev, now, device, i + 1);
      } else {
        DeltasFollow(k, j, q, prev, now, device, i + 1);
      }
    }
  }

  lemma {:induction false} ReleasesFollow(k: Kbd, j: Kbd, q: Kbd, l: Layout, us: seq<nat>, device: nat)
    requires WfLayout(l) && Follows(k, j, q) && |j.events| + |us| <= ROOM
    ensures Follows(EmitReleases(k, l, us, device), EmitReleases(j, l, us, device), q)
    ensures |EmitReleases(j, l, us, device).events| <= |j.events| + |us|
    decreases |us|
  {
    hide Follows, Dispatch, ReleaseCode, WfLayout;
    if us != [] {
      if ReleaseCode(l, us[0]) != KC_NONE {
        DispatchFollows(k, j, q, false, ReleaseCode(l, us[0]), device);
      }
      ReleasesFollow(EmitRelease(k, l, us[0], device), EmitRelease(j, l, us[0], device), q, l, us[1..], device);
    }
  }

  lemma {:induction false} PressesFollow(k: Kbd, j: Kbd, q: Kbd, l: Layout, us: seq<nat>, device: nat)
    requires WfLayout(l) && Follows(k, j, q) && |j.events| + |us| <= ROOM
    ensures Follows(EmitPresses(k, l, us, device), EmitPresses(j, l, us, device), q)
    ensures |EmitPresses(j, l, us, device).events| <= |j.events| + |us|
    decreases |us|
  {
    hide Dispatch, PressCode, WfLayout;
    if us != [] {
      var code := PressCode(l, us[0], k.mods);
      if code != KC_NONE {
        DispatchFollows(k, j, q, true, code, device);
      }
      hide Follows;
      PressesFollow(EmitPress(k, l, us[0], device), EmitPress(j, l, us[0], device), q, l, us[1..], device);
    }
  }

  lemma {:induction false} MissingShort(a: seq<nat>, b: seq<nat>)
    ensures |Missing(a, b)| <= |a|
  {
    if a != [] { MissingShort(a[1..], b); }
  }

  /** One report appends its events to the queue as far as there is room, and neither its events nor its
      modifiers depend on the queue. */
  lemma OnReportAppends(k: Kbd, l: Layout, prev: Report, now: Report, device: nat)
    requires WfLayout(l) && Wf(prev) && Wf(now) && |k.events| <= ROOM
    ensures OnReport(k, l, prev, now, device).mods == OnReport(Kbd(k.mods, [], []), l, prev, now, device).mods
    ensures OnReport(k, l, prev, now, device).events == Clip(k.events + Burst(k.mods, l, prev, now, device))
    ensures |k.chars| <= ROOM ==>
      OnReport(k, l, prev, now, device).chars == Clip(k.chars + CharsOf(Burst(k.mods, l, prev, now, device)))
    ensures |Burst(k.mods, l, prev, now, device)| <= |KEYS| + |prev.keys| + |now.keys| <= ROOM
  {
    hide Dispatch, EmitDeltas, EmitReleases, EmitPresses, Missing, ModsFromHid, WfLayout, KEYS;
    var j := Kbd(k.mods, [], []);
    var q := k;
    assert q.events + [] == q.events && q.chars + CharsOf([]) == q.chars;
    EightKeys();
    MissingShort(prev.keys, now.keys);
    MissingShort(now.keys, prev.keys);
    var m, n := ModsFromHid(prev.mods), ModsFromHid(now.mods);
    DeltasFollow(k, j, q, m, n, device, 0);
    var k1, j1 := EmitDeltas(k, m, n, device, 0), EmitDeltas(j, m, n, device, 0);
    ReleasesFollow(k1, j1, q, l, Missing(prev.keys, now.keys), device);
    var k2 := EmitReleases(k1, l, Missing(prev.keys, now.keys), device);
    var j2 := EmitReleases(j1, l, Missing(prev.keys, now.keys), device);
    PressesFollow(k2, j2, q, l, Missing(now.keys, prev.keys), device);
  }

  lemma EightKeys()
    ensures |KEYS| == 8
  {
  }

  // ---- Reports handed over ----

  /** A report handed to the layer: by which pipe, for which table entry. */
  datatype Handover = Handover(pipe: nat, index: nat, data: seq<bv8>)

  function ByteAt(data: seq<bv8>, i: nat): bv8 {
    if i < |data| then data[i] else 0
  }

  /** The report in the eight bytes of a transfer; byte 1 is reserved. */
  function ReportOf(data: seq<bv8>): (r: Report)
    ensures Wf(r)
  {
    Report(ByteAt(data, 0), seq(SLOTS, i requires 0 <= i < SLOTS => ByteAt(data, i + 2) as nat))
  }

  /** Byte 0 holds the modifiers, bytes 2 to 7 the usages. */
  lemma ReportBytes(data: seq<bv8>)
    requires |data| == 8
    ensures var r := ReportOf(data);
      r.mods == data[0] && |r.keys| == 6 && forall i :: 0 <= i < 6 ==> r.keys[i] == data[2 + i] as nat
  {
  }

  /** The layer without its queues. */
  datatype Layer = Layer(mods: Mods, devices: seq<Device>)

  ghost predicate WfDevices(devices: seq<Device>) {
    |devices| == MAX_USB_KEYBOARDS && forall i :: 0 <= i < |devices| ==> Wf(devices[i].last)
  }

  predicate Heard(devices: seq<Device>, h: Handover) {
    h.index < |devices| && devices[h.index].registered && devices[h.index].enabled
  }

  function Noted(devices: seq<Device>, h: Handover): (r: seq<Device>)
    ensures |r| == |devices|
  {
    if Heard(devices, h) then devices[h.index := devices[h.index].(last := ReportOf(h.data))] else devices
  }

  /** The events a report makes, apart from any queue. */
  function Made(y: Layer, l: Layout, h: Handover): seq<Event>
    requires WfLayout(l)
  {
    if !Heard(y.devices, h) then []
    else Burst(y.mods, l, y.devices[h.index].last, ReportOf(h.data), y.devices[h.index].id)
  }

  function Heed(y: Layer, l: Layout, h: Handover): Layer
    requires WfLayout(l)
  {
    if !Heard(y.devices, h) then y
    else
      var d := y.devices[h.index];
      Layer(OnReport(Kbd(y.mods, [], []), l, d.last, ReportOf(h.data), d.id).mods, Noted(y.devices, h))
  }

  /** keyboard_usb_on_boot_report on the layer with its queues. */
  function Hand(k: Kbd, devices: seq<Device>, l: Layout, h: Handover): Kbd
    requires WfLayout(l)
  {
    if !Heard(devices, h) then k
    else OnReport(k, l, devices[h.index].last, ReportOf(h.data), devices[h.index].id)
  }

  lemma NotedWf(devices: seq<Device>, h: Handover)
    requires WfDevices(devices)
    ensures WfDevices(Noted(devices, h))
  {
    hide ReportOf;
  }

  /** The queue takes what a report makes as far as there is room; the rest of the layer does not depend
      on the queue. */
  lemma HandAppends(k: Kbd, devices: seq<Device>, l: Layout, h: Handover)
    requires WfLayout(l) && WfDevices(devices) && |k.events| <= ROOM
    ensures var y := Layer(k.mods, devices);
      && Hand(k, devices, l, h).events == Clip(k.events + Made(y, l, h))
      && Heed(y, l, h) == Layer(Hand(k, devices, l, h).mods, Noted(devices, h))
  {
    hide OnReport, Burst, WfLayout, ReportOf, Clip;
    if Heard(devices, h) {
      OnReportAppends(k, l, devices[h.index].last, ReportOf(h.data), devices[h.index].id);
    } else {
      assert k.events + [] == k.events;
    }
  }

  // ---- Runs of reports ----

  function HeedAll(y: Layer, l: Layout, hs: seq<Handover>): Layer
    requires WfLayout(l)
    decreases |hs|
  {
    if hs == [] then y else HeedAll(Heed(y, l, hs[0]), l, hs[1..])
  }

  /** All the events a run of reports makes, apart from any queue. */
  function AllMade(y: Layer, l: Layout, hs: seq<Handover>): seq<Event>
    requires WfLayout(l)
    decreases |hs|
  {
    if hs == [] then [] else Made(y, l, hs[0]) + AllMade(Heed(y, l, hs[0]), l, hs[1..])
  }

  lemma {:induction false} HeedAllAppend(y: Layer, l: Layout, a: seq<Handover>, b: seq<Handover>)
    requires WfLayout(l)
    ensures HeedAll(y, l, a + b) == HeedAll(HeedAll(y, l, a), l, b)
    ensures AllMade(y, l, a + b) == AllMade(y, l, a) + AllMade(HeedAll(y, l, a), l, b)
    decreases |a|
  {
    hide Heed, Made, WfLayout;
    if a == [] {
      assert a + b == b;
    } else {
      assert (a + b)[0] == a[0] && (a + b)[1..] == a[1..] + b;
      HeedAllAppend(Heed(y, l, a[0]), l, a[1..], b);
    }
  }

  // ---- One keyboard ----

  function LogOf(pipe: nat, index: nat, data: seq<seq<bv8>>): (hs: seq<Handover>)
    ensures |hs| == |data|
  {
    seq(|data|, i requires 0 <= i < |data| => Handover(pipe, index, data[i]))
  }

  function ReportsOf(data: seq<seq<bv8>>): (rs: seq<Report>)
    ensures |rs| == |data|
  {
    seq(|data|, i requires 0 <= i < |data| => ReportOf(data[i]))
  }

  const IDLE: Kbd := Kbd(0, [], [])

  /** All the events a run of reports of one keyboard makes from the idle layer, apart from any queue. */
  function Stream(l: Layout, rs: seq<Report>, device: nat): seq<Event>
    requires WfLayout(l)
    decreases |rs|
  {
    if rs == [] then []
    else
      var n := |rs| - 1;
      Stream(l, rs[..n], device)
        + Burst(RunReports(IDLE, l, rs[..n], device).mods, l, LastReport(rs[..n]), rs[n], device)
  }

  lemma HeedOne(y: Layer, l: Layout, h: Handover)
    requires WfLayout(l)
    ensures HeedAll(y, l, [h]) == Heed(y, l, h) && AllMade(y, l, [h]) == Made(y, l, h)
  {
    hide Heed, Made, WfLayout;
    assert [h][1..] == [];
    assert Made(y, l, h) + [] == Made(y, l, h);
  }

  lemma {:induction false} RunReportsRoom(l: Layout, rs: seq<Report>, device: nat)
    requires WfLayout(l) && forall i :: 0 <= i < |rs| ==> Wf(rs[i])
    ensures |RunReports(IDLE, l, rs, device).events| <= ROOM && Wf(LastReport(rs))
    decreases |rs|
  {
    hide OnReport, Clip, WfLayout, Burst;
    if rs != [] {
      var n := |rs| - 1;
      RunReportsRoom(l, rs[..n], device);
      OnReportAppends(RunReports(IDLE, l, rs[..n], device), l, LastReport(rs[..n]), rs[n], device);
    }
  }

  /** The layer after reports of one keyboard alone: its modifiers, its last report and its events are
      those of the run of these reports. */
  lemma {:induction false} OneKeyboard(l: Layout, devices: seq<Device>, pipe: nat, d: nat, data: seq<seq<bv8>>)
    requires WfLayout(l) && d < |devices| && devices[d].registered && devices[d].enabled
    requires devices[d].last == EMPTY_REPORT
    ensures var rs := ReportsOf(data); var hs := LogOf(pipe, d, data); var id := devices[d].id;
      && HeedAll(Layer(0, devices), l, hs) ==
           Layer(RunReports(IDLE, l, rs, id).mods, devices[d := devices[d].(last := LastReport(rs))])
      && AllMade(Layer(0, devices), l, hs) == Stream(l, rs, id)
    decreases |data|
  {
    hide OnReport, ReportOf, WfLayout, Burst, HeedAll, AllMade, Clip;
    if data == [] {
      assert LogOf(pipe, d, data) == [];
      HeedNone(Layer(0, devices), l);
    } else {
      var n := |data| - 1;
      var hs, rs, id := LogOf(pipe, d, data[..n]), ReportsOf(data), devices[d].id;
      var h := Handover(pipe, d, data[n]);
      OneKeyboard(l, devices, pipe, d, data[..n]);
      assert LogOf(pipe, d, data) == hs + [h];
      assert rs[..n] == ReportsOf(data[..n]);
      HeedAllAppend(Layer(0, devices), l, hs, [h]);
      HeedOne(HeedAll(Layer(0, devices), l, hs), l, h);
      RunReportsRoom(l, rs[..n], id);
      OnReportAppends(RunReports(IDLE, l, rs[..n], id), l, LastReport(rs[..n]), rs[n], id);
    }
  }

  lemma HeedNone(y: Layer, l: Layout)
    requires WfLayout(l)
    ensures HeedAll(y, l, []) == y && AllMade(y, l, []) == []
  {
  }

  lemma ClipTwice<T>(q: seq<T>, a: seq<T>, b: seq<T>)
    ensures Clip(Clip(q + a) + b) == Clip(q + (a + b))
  {
    assert q + (a + b) == (q + a) + b;
  }

  /** Without a reader the queues hold the oldest events of the stream, and the oldest characters among
      them, in order. */
  lemma {:induction false} QueuesOfStream(l: Layout, rs: seq<Report>, device: nat)
    requires WfLayout(l) && forall i :: 0 <= i < |rs| ==> Wf(rs[i])
    ensures var k := RunReports(IDLE, l, rs, device);
      k.events == Clip(Stream(l, rs, device)) && k.chars == Clip(CharsOf(Stream(l, rs, device)))
    decreases |rs|
  {
    hide OnReport, WfLayout, Burst, Clip, CharsOf;
    if rs == [] {
      NoChars();
    } else {
      var n := |rs| - 1;
      var k, before := RunReports(IDLE, l, rs[..n], device), Stream(l, rs[..n], device);
      var burst := Burst(k.mods, l, LastReport(rs[..n]), rs[n], device);
      QueuesOfStream(l, rs[..n], device);
      RunReportsRoom(l, rs[..n], device);
      OnReportAppends(k, l, LastReport(rs[..n]), rs[n], device);
      CharsAppend(before, burst);
      ClipTwice([], before, burst);
      ClipTwice([], CharsOf(before), CharsOf(burst));
      assert [] + before == before && [] + CharsOf(before) == CharsOf(before);
      assert [] + (before + burst) == before + burst;
      assert [] + (CharsOf(before) + CharsOf(burst)) == CharsOf(before) + CharsOf(burst);
    }
  }

  lemma NoChars()
    ensures Clip<Event>([]) == [] && Clip(CharsOf([])) == []
  {
  }
}
