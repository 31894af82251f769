/**
 The report differ: which key usages are released and pressed by one boot report after
 another (HID 1.11, Appendix B.1), before any key-code lookup.
 */
module HidReport {

  const SLOTS: nat := 6

  /** Byte 0 of a report are the modifiers, bytes 2..7 the usages of the keys held; 0 is no key. */
  datatype Report = Report(mods: bv8, keys: seq<nat>)

  const EMPTY_REPORT: Report := Report(0, [0, 0, 0, 0, 0, 0])

  predicate Wf(r: Report) {
    |r.keys| == SLOTS
  }

  datatype Decision = Released(usage: nat) | Pressed(usage: nat)

  // ---- One report after another ----

  /** The non-zero usages of `a`, in order, that do not occur in `b`. */
  function Missing(a: seq<nat>, b: seq<nat>): seq<nat> {
    if a == [] then []
    else if a[0] != 0 && a[0] !in b then [a[0]] + Missing(a[1..], b)
    else Missing(a[1..], b)
  }

  /** Releases of the keys that are gone, then presses of the keys that are new. */
  function Decisions(prev: seq<nat>, now: seq<nat>): seq<Decision> {
    ReleaseAll(Missing(prev, now)) + PressAll(Missing(now, prev))
  }

  function ReleaseAll(us: seq<nat>): seq<Decision> {
    if us == [] then [] else [Released(us[0])] + ReleaseAll(us[1..])
  }

  function PressAll(us: seq<nat>): seq<Decision> {
    if us == [] then [] else [Pressed(us[0])] + PressAll(us[1..])
  }

  // ---- One usage ----

  /** The decisions about usage `u`: true for a press, false for a release. */
  function About(ds: seq<Decision>, u: nat): seq<bool> {
    if ds == [] then []
    else (if ds[0].usage == u then [ds[0].Pressed?] else []) + About(ds[1..], u)
  }

  function Count(ks: seq<nat>, u: nat): nat {
    if ks == [] then 0 else (if ks[0] == u then 1 else 0) + Count(ks[1..], u)
  }

  function Repeat(b: bool, n: nat): (r: seq<bool>)
    ensures |r| == n && forall i :: 0 <= i < n ==> r[i] == b
  {
    seq(n, i => b)
  }

  lemma CountZero(ks: seq<nat>, u: nat)
    ensures Count(ks, u) == 0 <==> u !in ks
  {
  }

  lemma {:induction false} AboutAppend(a: seq<Decision>, b: seq<Decision>, u: nat)
    ensures About(a + b, u) == About(a, u) + About(b, u)
  {
    if a == [] {
      assert a + b == b;
    } else {
      var first := if a[0].usage == u then [a[0].Pressed?] else [];
      assert (a + b)[0] == a[0] && (a + b)[1..] == a[1..] + b;
      AboutAppend(a[1..], b, u);
      Reassociate(first, About(a[1..], u), About(b, u));
    }
  }

  lemma Reassociate<T>(a: seq<T>, b: seq<T>, c: seq<T>)
    ensures a + (b + c) == (a + b) + c
  {
  }

  /** A release, or a press, of a usage put in front. */
  lemma AboutFirst(d: Decision, rest: seq<Decision>, u: nat)
    ensures About([d] + rest, u) == (if d.usage == u then [d.Pressed?] else []) + About(rest, u)
  {
    assert ([d] + rest)[1..] == rest;
  }

  lemma RepeatFirst(b: bool, n: nat)
    ensures [b] + Repeat(b, n) == Repeat(b, n + 1) && [] + Repeat(b, n) == Repeat(b, n)
  {
  }

  lemma ReleaseFirst(x: nat, us: seq<nat>)
    ensures ReleaseAll([x] + us) == [Released(x)] + ReleaseAll(us) && PressAll([x] + us) == [Pressed(x)] + PressAll(us)
  {
    assert ([x] + us)[1..] == us;
  }

  lemma AboutNothing(u: nat)
    ensures About(ReleaseAll([]), u) == [] && About(PressAll([]), u) == []
    ensures Repeat(false, 0) == [] && Repeat(true, 0) == []
  {
  }

  lemma {:induction false} AboutReleases(a: seq<nat>, b: seq<nat>, u: nat)
    requires u != 0
    ensures About(ReleaseAll(Missing(a, b)), u) == if u in b then [] else Repeat(false, Count(a, u))
  {
    hide About, ReleaseAll, Repeat;
    if a == [] {
      AboutNothing(u);
    } else {
      var rest := Missing(a[1..], b);
      AboutReleases(a[1..], b, u);
      ReleaseFirst(a[0], rest);
      AboutFirst(Released(a[0]), ReleaseAll(rest), u);
      RepeatFirst(false, Count(a[1..], u));
    }
  }

  lemma {:induction false} AboutPresses(a: seq<nat>, b: seq<nat>, u: nat)
    requires u != 0
    ensures About(PressAll(Missing(a, b)), u) == if u in b then [] else Repeat(true, Count(a, u))
  {
    hide About, PressAll, Repeat;
    if a == [] {
      AboutNothing(u);
    } else {
      var rest := Missing(a[1..], b);
      AboutPresses(a[1..], b, u);
      ReleaseFirst(a[0], rest);
      AboutFirst(Pressed(a[0]), PressAll(rest), u);
      RepeatFirst(true, Count(a[1..], u));
    }
  }

  /** One step decides about a usage only when it comes or goes, once for every slot it fills. */
  lemma StepAbout(prev: seq<nat>, now: seq<nat>, u: nat)
    requires u != 0
    ensures About(Decisions(prev, now), u) ==
      if u in prev && u !in now then Repeat(false, Count(prev, u))
      else if u !in prev && u in now then Repeat(true, Count(now, u))
      else []
  {
    AboutAppend(ReleaseAll(Missing(prev, now)), PressAll(Missing(now, prev)), u);
    AboutReleases(prev, now, u);
    AboutPresses(now, prev, u);
    CountZero(prev, u);
    CountZero(now, u);
  }

  /** All releases of a report come before all its presses. */
  lemma ReleasesFirst(prev: seq<nat>, now: seq<nat>)
    ensures var ds := Decisions(prev, now);
      forall i, j :: 0 <= i < j < |ds| && ds[i].Pressed? ==> ds[j].Pressed?
  {
    AllReleases(Missing(prev, now));
    AllReleases(Missing(now, prev));
  }

  lemma {:induction false} AllReleases(us: seq<nat>)
    ensures forall i :: 0 <= i < |ReleaseAll(us)| ==> ReleaseAll(us)[i].Released?
    ensures forall i :: 0 <= i < |PressAll(us)| ==> PressAll(us)[i].Pressed?
  {
    if us != [] { AllReleases(us[1..]); }
  }

  // ---- Runs of reports ----

  /** The usages of report `i - 1`, or none before the first report. */
  function KeysBefore(rs: seq<Report>, i: nat): seq<nat>
    requires i <= |rs|
  {
    if i == 0 then EMPTY_REPORT.keys else rs[i - 1].keys
  }

  /** All decisions about `u` over a run of reports. */
  function Trace(rs: seq<Report>, u: nat): seq<bool>
    decreases |rs|
  {
    if rs == [] then []
    else
      var n := |rs| - 1;
      Trace(rs[..n], u) + About(Decisions(KeysBefore(rs, n), rs[n].keys), u)
  }

  /** Presses and releases take turns, starting with a press. */
  predicate Alternates(t: seq<bool>) {
    forall i :: 0 <= i < |t| ==> t[i] == (i % 2 == 0)
  }

  /** A usage that comes or goes in this step fills one slot only. */
  predicate Clean(prev: seq<nat>, now: seq<nat>, u: nat) {
    (u !in prev ==> Count(now, u) <= 1) && (u !in now ==> Count(prev, u) <= 1)
  }

  /** Step `i` of the run is clean. */
  ghost predicate CleanAt(rs: seq<Report>, u: nat, i: nat)
    requires i < |rs|
  {
    Clean(KeysBefore(rs, i), rs[i].keys, u)
  }

  ghost predicate CleanRun(rs: seq<Report>, u: nat) {
    forall i :: 0 <= i < |rs| ==> CleanAt(rs, u, i)
  }

  lemma CleanAtPrefix(rs: seq<Report>, u: nat, n: nat, i: nat)
    requires i < n <= |rs|
    ensures CleanAt(rs[..n], u, i) == CleanAt(rs, u, i)
  {
    hide Clean;
    assert rs[..n][i] == rs[i] && (i > 0 ==> rs[..n][i - 1] == rs[i - 1]);
  }

  lemma CleanRunSplit(rs: seq<Report>, u: nat)
    requires rs != []
    ensures var n := |rs| - 1;
      CleanRun(rs, u) <==> CleanRun(rs[..n], u) && CleanAt(rs, u, n)
  {
    hide CleanAt;
    var n := |rs| - 1;
    forall i | 0 <= i < n ensures CleanAt(rs[..n], u, i) == CleanAt(rs, u, i) {
      CleanAtPrefix(rs, u, n, i);
    }
    if CleanRun(rs[..n], u) && CleanAt(rs, u, n) {
      forall i | 0 <= i < |rs| ensures CleanAt(rs, u, i) {
        assert i < n ==> CleanAt(rs[..n], u, i);
      }
    }
  }

  /** Appending `n` equal decisions to an alternating trace keeps it alternating exactly when there
      is none, or one that takes its turn. */
  lemma AppendAlternates(t: seq<bool>, b: bool, n: nat)
    ensures Alternates(t + Repeat(b, n)) <==> Alternates(t) && n <= 1 && (n == 1 ==> b == (|t| % 2 == 0))
  {
    var s := t + Repeat(b, n);
    assert forall i :: 0 <= i < |t| ==> s[i] == t[i];
    assert n > 0 ==> s[|t|] == b;
    assert n > 1 ==> s[|t| + 1] == b;
  }

  /** One more report: a trace that alternates and ends in step with the previous report goes on
      doing so exactly when the step is clean. */
  lemma StepAlternates(t: seq<bool>, prev: seq<nat>, now: seq<nat>, u: nat)
    requires u != 0 && (Alternates(t) ==> (|t| % 2 == 1 <==> u in prev))
    ensures var s := t + About(Decisions(prev, now), u);
      && (Alternates(s) <==> Alternates(t) && Clean(prev, now, u))
      && (Alternates(s) ==> (|s| % 2 == 1 <==> u in now))
  {
    hide Alternates, Decisions, About, Count;
    StepAbout(prev, now, u);
    CountZero(prev, u);
    CountZero(now, u);
    if u in prev && u !in now {
      AppendAlternates(t, false, Count(prev, u));
    } else if u !in prev && u in now {
      AppendAlternates(t, true, Count(now, u));
    } else {
      assert t + [] == t;
    }
  }

  /** Over every run of reports, the presses and releases of a usage take turns, starting with a
      press, exactly when it never comes or goes filling more than one slot; and then it is
      pressed and not released exactly when the latest report holds it. */
  lemma {:induction false} AlternatesExactly(rs: seq<Report>, u: nat)
    requires u != 0
    ensures Alternates(Trace(rs, u)) <==> CleanRun(rs, u)
    ensures Alternates(Trace(rs, u)) ==> (|Trace(rs, u)| % 2 == 1 <==> u in KeysBefore(rs, |rs|))
    decreases |rs|
  {
    if rs != [] {
      var n := |rs| - 1;
      var prev, now := KeysBefore(rs, n), rs[n].keys;
      assert n > 0 ==> rs[..n][n - 1] == rs[n - 1];
      assert KeysBefore(rs[..n], n) == prev;
      hide Alternates, CleanRun, Decisions, About, Clean;
      AlternatesExactly(rs[..n], u);
      CleanRunSplit(rs, u);
      StepAlternates(Trace(rs[..n], u), prev, now, u);
    }
  }

  /** Reports whose non-zero usages are distinct. */
  ghost predicate DistinctKeys(r: Report) {
    forall i, j :: 0 <= i < j < |r.keys| && r.keys[i] != 0 ==> r.keys[i] != r.keys[j]
  }

  lemma {:induction false} DistinctCounts(ks: seq<nat>, u: nat)
    requires forall i, j :: 0 <= i < j < |ks| && ks[i] != 0 ==> ks[i] != ks[j]
    requires u != 0
    ensures Count(ks, u) <= 1
  {
    if ks != [] {
      DistinctCounts(ks[1..], u);
      CountZero(ks[1..], u);
    }
  }

  /** In particular they take turns whenever every report lists its keys once; the usages pressed
      and not released are those of the latest report. */
  lemma DistinctReportsAlternate(rs: seq<Report>, u: nat)
    requires u != 0 && forall i :: 0 <= i < |rs| ==> DistinctKeys(rs[i])
    ensures Alternates(Trace(rs, u)) && (|Trace(rs, u)| % 2 == 1 <==> u in KeysBefore(rs, |rs|))
  {
    hide Alternates, Trace, DistinctKeys, CleanAt;
    forall i | 0 <= i < |rs| ensures CleanAt(rs, u, i) {
      DistinctClean(rs, u, i);
    }
    AlternatesExactly(rs, u);
  }

  lemma DistinctClean(rs: seq<Report>, u: nat, i: nat)
    requires u != 0 && i < |rs| && DistinctKeys(rs[i]) && (i > 0 ==> DistinctKeys(rs[i - 1]))
    ensures CleanAt(rs, u, i)
  {
    hide Count;
    DistinctCounts(rs[i].keys, u);
    if i > 0 {
      DistinctCounts(rs[i - 1].keys, u);
    } else {
      EmptyCount(u);
    }
  }

  lemma EmptyCount(u: nat)
    requires u != 0
    ensures Count(EMPTY_REPORT.keys, u) <= 1
  {
    CountZero(EMPTY_REPORT.keys, u);
  }

  /** The first report presses a usage once for every slot it fills. */
  lemma FirstReportPresses(r: Report, u: nat)
    requires u != 0
    ensures Trace([r], u) == Repeat(true, Count(r.keys, u))
  {
    hide Decisions, About, Count, Repeat;
    var rs := [r];
    assert rs[..0] == [] && Trace(rs[..0], u) == [];
    StepAbout(EMPTY_REPORT.keys, r.keys, u);
    CountZero(r.keys, u);
    NoneRepeated();
  }

  lemma NoneRepeated()
    ensures Repeat(true, 0) == []
  {
  }

  /** A keyboard that reports roll-over in all six slots is pressed six times over. */
  lemma RollOverDoesNotAlternate()
    ensures var t := Trace([Report(0, [1, 1, 1, 1, 1, 1])], 1); t == Repeat(true, 6) && !Alternates(t)
  {
    hide Trace, Alternates;
    var rs := [Report(0, [1, 1, 1, 1, 1, 1])];
    RollOverCount();
    FirstReportPresses(rs[0], 1);
    assert !CleanAt(rs, 1, 0);
    AlternatesExactly(rs, 1);
  }

  lemma RollOverCount()
    ensures Count([1, 1, 1, 1, 1, 1], 1) == 6
  {
    var ks := [1, 1, 1, 1, 1, 1];
    assert ks[1..] == [1, 1, 1, 1, 1] && ks[1..][1..] == [1, 1, 1, 1];
    assert ks[3..] == [1, 1, 1] && ks[4..] == [1, 1] && ks[5..] == [1] && Count([1], 1) == 1;
    assert Count(ks[3..], 1) == 3 by { assert ks[3..][1..] == ks[4..] && ks[4..][1..] == ks[5..]; }
    assert ks[1..][1..][1..] == ks[3..];
  }
}
