/**
 What the events of the keyboard layer say about keys: which usages each report presses and
 releases, under which codes, and what a run of key strokes types.
 */
module KeyEvents {
  import opened Modifiers
  import opened HidReport
  import opened Keyboard
  import opened KeyStream

  // ---- The events of one report ----

  /** The events of a list of decisions: a press or a release of the usage's code, if it has one, with the
      modifiers after it. */
  function Coded(l: Layout, m: Mods, ds: seq<Decision>, device: nat): seq<Event>
    requires WfLayout(l)
    decreases |ds|
  {
    if ds == [] then []
    else
      var code := CodeOf(l, m, ds[0]);
      var m' := Dispatched(m, ds[0].Pressed?, code);
      if code == KC_NONE then Coded(l, m, ds[1..], device)
      else [Event(ds[0].Pressed?, code, m', device)] + Coded(l, m', ds[1..], device)
  }

  function CodeOf(l: Layout, m: Mods, d: Decision): nat
    requires WfLayout(l)
  {
    if d.Pressed? then PressCode(l, d.usage, m) else ReleaseCode(l, d.usage)
  }

  /** The modifiers after the decisions. */
  function CodedMods(l: Layout, m: Mods, ds: seq<Decision>): Mods
    requires WfLayout(l)
    decreases |ds|
  {
    if ds == [] then m
    else
      var code := CodeOf(l, m, ds[0]);
      CodedMods(l, if code == KC_NONE then m else Dispatched(m, ds[0].Pressed?, code), ds[1..])
  }

  lemma {:induction false} CodedAppend(l: Layout, m: Mods, a: seq<Decision>, b: seq<Decision>, device: nat)
    requires WfLayout(l)
    ensures Coded(l, m, a + b, device) == Coded(l, m, a, device) + Coded(l, CodedMods(l, m, a), b, device)
    decreases |a|
  {
    hide CodeOf, Dispatched, WfLayout;
    if a == [] {
      assert a + b == b;
    } else {
      assert (a + b)[0] == a[0] && (a + b)[1..] == a[1..] + b;
      var code := CodeOf(l, m, a[0]);
      CodedAppend(l, if code == KC_NONE then m else Dispatched(m, a[0].Pressed?, code), a[1..], b, device);
    }
  }

  lemma DispatchAdds(k: Kbd, press: bool, code: nat, device: nat)
    requires |k.events| < ROOM
    ensures var k' := Dispatch(k, press, code, device);
      k'.mods == Dispatched(k.mods, press, code) && k'.events == k.events + [Event(press, code, k'.mods, device)]
  {
    hide Dispatched;
  }

  lemma CodedFirst(l: Layout, m: Mods, d: Decision, rest: seq<Decision>, device: nat)
    requires WfLayout(l)
    ensures var code := CodeOf(l, m, d); var m' := Dispatched(m, d.Pressed?, code);
      && Coded(l, m, [d] + rest, device) ==
           (if code == KC_NONE then Coded(l, m, rest, device)
            else [Event(d.Pressed?, code, m', device)] + Coded(l, m', rest, device))
      && CodedMods(l, m, [d] + rest) == CodedMods(l, if code == KC_NONE then m else m', rest)
  {
    hide CodeOf, Dispatched, WfLayout;
    assert ([d] + rest)[1..] == rest;
  }

  /** Dispatching the code of a decision, if it has one. */
  lemma DecisionCoded(k: Kbd, l: Layout, d: Decision, rest: seq<Decision>, device: nat)
    requires WfLayout(l) && |k.events| < ROOM
    ensures var code := CodeOf(l, k.mods, d);
      var k1 := if code != KC_NONE then Dispatch(k, d.Pressed?, code, device) else k;
      && |k.events| <= |k1.events| <= |k.events| + 1
      && k1.events + Coded(l, k1.mods, rest, device) == k.events + Coded(l, k.mods, [d] + rest, device)
      && CodedMods(l, k1.mods, rest) == CodedMods(l, k.mods, [d] + rest)
  {
    hide CodeOf, Dispatch, Dispatched, WfLayout, Coded, CodedMods;
    CodedFirst(l, k.mods, d, rest, device);
    DispatchAdds(k, d.Pressed?, CodeOf(l, k.mods, d), device);
  }

  lemma NothingCoded(l: Layout, m: Mods, device: nat)
    requires WfLayout(l)
    ensures Coded(l, m, [], device) == [] && CodedMods(l, m, []) == m
    ensures ReleaseAll([]) == [] && PressAll([]) == []
  {
  }

  lemma {:induction false} ReleasesCoded(k: Kbd, l: Layout, us: seq<nat>, device: nat)
    requires WfLayout(l) && |k.events| + |us| <= ROOM
    ensures var k' := EmitReleases(k, l, us, device);
      && k'.events == k.events + Coded(l, k.mods, ReleaseAll(us), device)
      && k'.mods == CodedMods(l, k.mods, ReleaseAll(us))
    decreases |us|
  {
    hide Dispatch, ReleaseCode, WfLayout, Coded, CodedMods;
    if us == [] {
      NothingCoded(l, k.mods, device);
      assert k.events + [] == k.events;
    } else {
      DecisionCoded(k, l, Decision.Released(us[0]), ReleaseAll(us[1..]), device);
      ReleasesCoded(EmitRelease(k, l, us[0], device), l, us[1..], device);
    }
  }

  lemma {:induction false} PressesCoded(k: Kbd, l: Layout, us: seq<nat>, device: nat)
    requires WfLayout(l) && |k.events| + |us| <= ROOM
    ensures var k' := EmitPresses(k, l, us, device);
      && k'.events == k.events + Coded(l, k.mods, PressAll(us), device)
      && k'.mods == CodedMods(l, k.mods, PressAll(us))
    decreases |us|
  {
    hide Dispatch, PressCode, WfLayout, Coded, CodedMods;
    if us == [] {
      NothingCoded(l, k.mods, device);
      assert k.events + [] == k.events;
    } else {
      DecisionCoded(k, l, Decision.Pressed(us[0]), PressAll(us[1..]), device);
      PressesCoded(EmitPress(k, l, us[0], device), l, us[1..], device);
    }
  }

  /** The layer after the modifier keys of a report, from an empty queue. */
  function AfterModifiers(m: Mods, prev: Report, now: Report, device: nat): Kbd {
    EmitDeltas(Kbd(m, [], []), ModsFromHid(prev.mods), ModsFromHid(now.mods), device, 0)
  }

  lemma {:induction false} DeltasShort(k: Kbd, prev: Mods, now: Mods, device: nat, i: nat)
    requires i <= |KEYS|
    ensures |EmitDeltas(k, prev, now, device, i).events| <= |k.events| + (|KEYS| - i)
    decreases |KEYS| - i
  {
    hide Dispatched, Moved, Set, KEYS;
    if i < |KEYS| {
      var k' := if Moved(prev, now, KEYS[i].mask) then Dispatch(k, Set(now, KEYS[i].mask), KEYS[i].code, device) else k;
      DeltasShort(k', prev, now, device, i + 1);
    }
  }

  /** The events of a report: those of its modifier keys, then those of its decisions, releases of the keys
      that are gone before presses of the keys that are new. */
  lemma BurstDecisions(m: Mods, l: Layout, prev: Report, now: Report, device: nat)
    requires WfLayout(l) && HidReport.Wf(prev) && HidReport.Wf(now)
    ensures var head := AfterModifiers(m, prev, now, device);
      && Burst(m, l, prev, now, device) == head.events + Coded(l, head.mods, Decisions(prev.keys, now.keys), device)
      && OnReport(Kbd(m, [], []), l, prev, now, device).mods ==
           CodedMods(l, head.mods, Decisions(prev.keys, now.keys))
  {
    hide EmitDeltas, EmitReleases, EmitPresses, Missing, ModsFromHid, WfLayout, KEYS, Coded, CodedMods;
    hide PressAll, ReleaseAll;
    var head := AfterModifiers(m, prev, now, device);
    EightKeys();
    DeltasShort(Kbd(m, [], []), ModsFromHid(prev.mods), ModsFromHid(now.mods), device, 0);
    var gone, added := Missing(prev.keys, now.keys), Missing(now.keys, prev.keys);
    MissingShort(prev.keys, now.keys);
    MissingShort(now.keys, prev.keys);
    ReleasesCoded(head, l, gone, device);
    CodedShort(l, head.mods, ReleaseAll(gone), device);
    AllLength(gone);
    var k2 := EmitReleases(head, l, gone, device);
    PressesCoded(k2, l, added, device);
    CodedAppend(l, head.mods, ReleaseAll(gone), PressAll(added), device);
    CodedModsAppend(l, head.mods, ReleaseAll(gone), PressAll(added));
  }

  lemma {:induction false} AllLength(us: seq<nat>)
    ensures |ReleaseAll(us)| == |us| && |PressAll(us)| == |us|
  {
    if us != [] { AllLength(us[1..]); }
  }

  lemma {:induction false} CodedShort(l: Layout, m: Mods, ds: seq<Decision>, device: nat)
    requires WfLayout(l)
    ensures |Coded(l, m, ds, device)| <= |ds|
    decreases |ds|
  {
    hide CodeOf, Dispatched, WfLayout;
    if ds != [] {
      var code := CodeOf(l, m, ds[0]);
      CodedShort(l, if code == KC_NONE then m else Dispatched(m, ds[0].Pressed?, code), ds[1..], device);
    }
  }

  lemma {:induction false} CodedModsAppend(l: Layout, m: Mods, a: seq<Decision>, b: seq<Decision>)
    requires WfLayout(l)
    ensures CodedMods(l, m, a + b) == CodedMods(l, CodedMods(l, m, a), b)
    decreases |a|
  {
    hide CodeOf, Dispatched, WfLayout;
    if a == [] {
      assert a + b == b;
    } else {
      assert (a + b)[0] == a[0] && (a + b)[1..] == a[1..] + b;
      var code := CodeOf(l, m, a[0]);
      CodedModsAppend(l, if code == KC_NONE then m else Dispatched(m, a[0].Pressed?, code), a[1..], b);
    }
  }

  // ---- The events of one key ----

  /** The codes `C` belong to usage `u` and to no other key, whatever the modifiers. */
  ghost predicate Owned(l: Layout, C: set<nat>, u: nat)
    requires WfLayout(l)
  {
    && KC_NONE !in C && (forall i :: 0 <= i < |KEYS| ==> KEYS[i].code !in C)
    && (forall v: nat, m: Mods :: v != 0 ==> (PressCode(l, v, m) in C <==> v == u))
    && (forall v: nat :: v != 0 ==> (ReleaseCode(l, v) in C <==> v == u))
  }

  /** The presses (true) and releases (false) among the events that carry one of the codes. */
  function Strokes(es: seq<Event>, C: set<nat>): seq<bool> {
    if es == [] then [] else (if es[0].code in C then [es[0].press] else []) + Strokes(es[1..], C)
  }

  lemma {:induction false} StrokesAppend(a: seq<Event>, b: seq<Event>, C: set<nat>)
    ensures Strokes(a + b, C) == Strokes(a, C) + Strokes(b, C)
  {
    if a == [] {
      assert a + b == b;
    } else {
      assert (a + b)[0] == a[0] && (a + b)[1..] == a[1..] + b;
      StrokesAppend(a[1..], b, C);
    }
  }

  lemma CodeOwned(l: Layout, C: set<nat>, u: nat, m: Mods, d: Decision)
    requires WfLayout(l) && Owned(l, C, u) && d.usage != 0
    ensures (CodeOf(l, m, d) in C <==> d.usage == u) && KC_NONE !in C
  {
    hide PressCode, ReleaseCode, WfLayout;
  }

  ghost predicate Nonzero(ds: seq<Decision>) {
    forall i :: 0 <= i < |ds| ==> ds[i].usage != 0
  }

  lemma {:induction false} CodedStrokes(l: Layout, m: Mods, ds: seq<Decision>, device: nat, C: set<nat>, u: nat)
    requires WfLayout(l) && Owned(l, C, u) && Nonzero(ds)
    ensures Strokes(Coded(l, m, ds, device), C) == About(ds, u)
    decreases |ds|
  {
    hide CodeOf, Dispatched, WfLayout, Owned;
    if ds != [] {
      var code := CodeOf(l, m, ds[0]);
      var m' := Dispatched(m, ds[0].Pressed?, code);
      CodeOwned(l, C, u, m, ds[0]);
      var rest := Coded(l, if code == KC_NONE then m else m', ds[1..], device);
      CodedStrokes(l, if code == KC_NONE then m else m', ds[1..], device, C, u);
      if code == KC_NONE {
        assert [] + About(ds[1..], u) == About(ds[1..], u);
      } else {
        assert ([Event(ds[0].Pressed?, code, m', device)] + rest)[1..] == rest;
      }
    }
  }

  lemma {:induction false} DeltaStrokes(k: Kbd, prev: Mods, now: Mods, device: nat, i: nat, C: set<nat>)
    requires i <= |KEYS| && |k.events| + (|KEYS| - i) <= ROOM
    requires forall j :: 0 <= j < |KEYS| ==> KEYS[j].code !in C
    ensures Strokes(EmitDeltas(k, prev, now, device, i).events, C) == Strokes(k.events, C)
    decreases |KEYS| - i
  {
    hide Dispatch, Moved, Set, KEYS;
    if i < |KEYS| {
      if Moved(prev, now, KEYS[i].mask) {
        var press, code := Set(now, KEYS[i].mask), KEYS[i].code;
        var k' := Dispatch(k, press, code, device);
        DispatchAdds(k, press, code, device);
        var e := Event(press, code, k'.mods, device);
        StrokesAppend(k.events, [e], C);
        OtherStroke(e, C);
        DeltaStrokes(k', prev, now, device, i + 1, C);
      } else {
        DeltaStrokes(k, prev, now, device, i + 1, C);
      }
    }
  }

  lemma OtherStroke(e: Event, C: set<nat>)
    requires e.code !in C
    ensures forall s: seq<bool> :: s + Strokes([e], C) == s
  {
    assert [e][1..] == [];
    assert Strokes([e], C) == [];
  }

  lemma {:induction false} MissingNonzero(a: seq<nat>, b: seq<nat>)
    ensures Nonzero(ReleaseAll(Missing(a, b))) && Nonzero(PressAll(Missing(a, b)))
  {
    if a != [] {
      MissingNonzero(a[1..], b);
      if a[0] != 0 && a[0] !in b {
        ReleaseFirst(a[0], Missing(a[1..], b));
      }
    }
  }

  /** One report presses the codes of a key exactly when it is new and releases them exactly when it is gone,
      once for every slot the key fills. */
  lemma BurstStrokes(m: Mods, l: Layout, prev: Report, now: Report, device: nat, C: set<nat>, u: nat)
    requires WfLayout(l) && HidReport.Wf(prev) && HidReport.Wf(now) && u != 0 && Owned(l, C, u)
    ensures var es := Strokes(Burst(m, l, prev, now, device), C);
      && es == About(Decisions(prev.keys, now.keys), u)
      && es == (if u in prev.keys && u !in now.keys then Repeat(false, Count(prev.keys, u))
                else if u !in prev.keys && u in now.keys then Repeat(true, Count(now.keys, u))
                else [])
  {
    hide Coded, CodedMods, WfLayout, Burst, ModsFromHid, EmitDeltas, About, KEYS, Missing, PressAll, ReleaseAll, Repeat;
    hide PressCode, ReleaseCode;
    var head := AfterModifiers(m, prev, now, device);
    var ds := Decisions(prev.keys, now.keys);
    BurstDecisions(m, l, prev, now, device);
    StrokesAppend(head.events, Coded(l, head.mods, ds, device), C);
    EightKeys();
    NoStrokes(C);
    DeltaStrokes(Kbd(m, [], []), ModsFromHid(prev.mods), ModsFromHid(now.mods), device, 0, C);
    MissingNonzero(prev.keys, now.keys);
    MissingNonzero(now.keys, prev.keys);
    CodedStrokes(l, head.mods, ds, device, C, u);
    StepAbout(prev.keys, now.keys, u);
  }

  lemma NoStrokes(C: set<nat>)
    ensures Strokes([], C) == [] && forall s: seq<bool> :: [] + s == s
  {
  }

  // ---- Runs of reports ----

  lemma LastIsBefore(rs: seq<Report>)
    ensures LastReport(rs).keys == KeysBefore(rs, |rs|)
  {
  }

  /** Over every run of reports of one keyboard, the events that carry a key's codes are its presses and
      releases as the reports decide them. */
  lemma {:induction false} StreamTrace(l: Layout, rs: seq<Report>, device: nat, C: set<nat>, u: nat)
    requires WfLayout(l) && u != 0 && Owned(l, C, u) && forall i :: 0 <= i < |rs| ==> HidReport.Wf(rs[i])
    ensures Strokes(Stream(l, rs, device), C) == Trace(rs, u)
    decreases |rs|
  {
    hide Burst, WfLayout, Owned, Decisions, About, Strokes, RunReports;
    if rs == [] {
      NoStrokes(C);
      assert Strokes([], C) == [] by { EmptyStrokes(C); }
    } else {
      var n := |rs| - 1;
      var m := RunReports(IDLE, l, rs[..n], device).mods;
      StreamTrace(l, rs[..n], device, C, u);
      RunReportsRoom(l, rs[..n], device);
      BurstStrokes(m, l, LastReport(rs[..n]), rs[n], device, C, u);
      StrokesAppend(Stream(l, rs[..n], device), Burst(m, l, LastReport(rs[..n]), rs[n], device), C);
      LastIsBefore(rs[..n]);
      assert KeysBefore(rs, n) == KeysBefore(rs[..n], n);
    }
  }

  lemma EmptyStrokes(C: set<nat>)
    ensures Strokes([], C) == []
  {
  }

  /** So the events of a key take turns, starting with a press, if and only if the key never comes or goes
      filling more than one slot; and then it is down exactly when the latest report holds it. */
  lemma KeysAlternate(l: Layout, rs: seq<Report>, device: nat, C: set<nat>, u: nat)
    requires WfLayout(l) && u != 0 && Owned(l, C, u) && forall i :: 0 <= i < |rs| ==> HidReport.Wf(rs[i])
    ensures var es := Strokes(Stream(l, rs, device), C);
      && (Alternates(es) <==> CleanRun(rs, u))
      && (Alternates(es) ==> (|es| % 2 == 1 <==> u in LastReport(rs).keys))
  {
    hide Owned, WfLayout, Alternates, CleanRun, Strokes, Stream, Trace;
    StreamTrace(l, rs, device, C, u);
    AlternatesExactly(rs, u);
    LastIsBefore(rs);
  }
}
