/**
 Which slots of the frame list a keyboard pipe keeps: over whole runs, a slot links to the pipe
 exactly when the pipe's walk covers it and nothing has written it since the pipe was opened.
 */
module UhciPolling {
  import opened Heap
  import opened UhciWords
  import opened Resources
  import opened FrameList
  import opened UhciModel
  import opened UhciPipes
  import opened UhciTransfers
  import opened UhciFinish
  import opened UhciService
  import opened UhciBlobs
  import opened UhciLeaks
  import opened UhciRoom
  import opened UhciRuns
  import opened UhciDelivery
  import Stride
  import E = Endpoint

  // ---- The slots a step writes ----

  function IntervalOf(r: OpenRequest): nat {
    if r.interval == 0 then 1 else r.interval
  }

  function Listed(frames: seq<nat>): set<nat> {
    set f | f in frames
  }

  function Below(n: nat): (r: set<nat>)
    ensures forall f: nat :: f in r <==> f < n
  {
    if n == 0 then {} else Below(n - 1) + {n - 1}
  }

  /** Initialisation writes every slot, an open or a close the walk of its pipe, a transfer its one or
      two slots when it starts and when it terminates them; nothing else writes a slot. */
  ghost function Writes(s: State, step: Step): set<nat>
    requires StateInv(s) && Enabled(s, step)
  {
    match step
    case Initialize => Below(|s.slots|)
    case OpenPipe(r) => if Open(s, r).1 == -1 then {} else Region(NextSlot(r.frame), IntervalOf(r))
    case ClosePipe(id) =>
      if 0 <= id < |s.pipes| && s.pipes[id].inUse then Region(s.pipes[id].firstSlot, s.pipes[id].interval) else {}
    case BeginTransfer(cmd) => if Begin(s, cmd).pending.None? then {} else Listed(FramesFor(cmd.kind, cmd.frame))
    case FinishTransfer(o) =>
      if Terminates(s.pending.value.kind, o) then Listed(s.pending.value.frames) else {}
    case _ => {}
  }

  /** Slot `f` changes only if the step writes it, and what is written is no link to `q`. */
  ghost predicate Rewritten(slots: seq<nat>, slots': seq<nat>, writes: set<nat>, q: nat) {
    && |slots| == |slots'| == FRAMES
    && forall f :: 0 <= f < FRAMES ==> if f in writes then slots'[f] != QhLink(q) else slots'[f] == slots[f]
  }

  // ---- Each step ----

  lemma Lengths(s: State)
    requires StateInv(s)
    ensures |s.slots| == FRAMES && |s.pipes| == MAX_PIPES && |s.delivered| == MAX_PIPES
  {
    hide HeapInv, Typed, OwnersOk, Apart, OwnersOf;
  }

  /** The queue head of a pipe in use is linkable, and its link is neither the terminate word nor that of
      an object that did not exist. */
  lemma PipeHead(s: State, i: nat)
    requires StateInv(s) && i < MAX_PIPES && s.pipes[i].inUse
    ensures var q := s.pipes[i].qh; q in s.mem && Linkable(q) && QhLink(q) != UhciWords.TERMINATE
  {
    hide CoreInv, OwnersOf, OwnerOk, Linkable, Link;
    StateCounts(s);
    PipeOwned(s, i);
    ObjectLinkable(CoreOf(s), s.pipes[i].qh);
    QhLinksDiffer(s.pipes[i].qh, s.pipes[i].qh);
  }

  lemma OtherHead(c: Core, p: nat, q: nat)
    requires CoreInv(c) && p in c.mem && Linkable(q) && p != q
    ensures QhLink(p) != QhLink(q)
  {
    hide CoreInv, Linkable, Link;
    ObjectLinkable(c, p);
    QhLinksDiffer(p, q);
  }

  lemma InRegion(first: nat, interval: nat)
    ensures forall f :: 0 <= f < FRAMES ==> (f in Region(first, interval) <==> Stride.Owns(first, interval, FRAMES, f))
  {
  }

  lemma FilledRewrites(slots: seq<nat>, first: nat, interval: nat, word: nat, q: nat)
    requires |slots| == FRAMES && word != QhLink(q)
    ensures Rewritten(slots, Filled(slots, first, interval, word), Region(first, interval), q)
  {
    InRegion(first, interval);
    hide Region, Stride.Owns, Link;
  }

  lemma WritesListed(slots: seq<nat>, frames: seq<nat>, word: nat, q: nat)
    requires |slots| == FRAMES && word != QhLink(q) && forall i :: 0 <= i < |frames| ==> frames[i] < FRAMES
    ensures Rewritten(slots, WriteSlots(slots, frames, word), Listed(frames), q)
  {
    hide Link;
  }

  lemma NothingWritten(slots: seq<nat>, q: nat)
    requires |slots| == FRAMES
    ensures Rewritten(slots, slots, {}, q)
  {
  }

  lemma InitializeWrites(s: State, i: nat)
    requires StateInv(s) && i < MAX_PIPES && s.pipes[i].inUse
    ensures Rewritten(s.slots, AllTerminated(), Below(|s.slots|), s.pipes[i].qh)
  {
    hide StateInv, Linkable, Link, Below;
    Lengths(s);
    PipeHead(s, i);
  }

  lemma OpenWrites(s: State, r: OpenRequest, i: nat)
    requires StateInv(s) && i < MAX_PIPES && s.pipes[i].inUse && Open(s, r).1 != -1
    ensures Rewritten(s.slots, Open(s, r).0.slots, Region(NextSlot(r.frame), IntervalOf(r)), s.pipes[i].qh)
  {
    hide Shapes, Open, Acquire, OwnersOf, CoreInv, Linkable, Link, Region, Filled, Rewritten, NextSlot;
    Lengths(s);
    PipeHead(s, i);
    OpenedBy(s, r);
    var (c, buf, td, qh) := Acquire(CoreOf(s));
    OtherHead(c, qh, s.pipes[i].qh);
    FilledRewrites(s.slots, NextSlot(r.frame), IntervalOf(r), QhLink(qh), s.pipes[i].qh);
  }

  lemma CloseWrites(s: State, id: int, i: nat)
    requires StateInv(s) && i < MAX_PIPES && s.pipes[i].inUse && 0 <= id < |s.pipes| && s.pipes[id].inUse
    ensures Rewritten(s.slots, Close(s, id).slots, Region(s.pipes[id].firstSlot, s.pipes[id].interval), s.pipes[i].qh)
  {
    hide StateInv, Close, Linkable, Link, Region, Filled, Rewritten;
    Lengths(s);
    PipeHead(s, i);
    CloseKeepsInv(s, id);
    FilledRewrites(s.slots, s.pipes[id].firstSlot, s.pipes[id].interval, UhciWords.TERMINATE, s.pipes[i].qh);
  }

  lemma BeginWrites(s: State, cmd: Command, i: nat)
    requires StateInv(s) && i < MAX_PIPES && s.pipes[i].inUse && s.pending.None? && Begin(s, cmd).pending.Some?
    ensures Rewritten(s.slots, Begin(s, cmd).slots, Listed(FramesFor(cmd.kind, cmd.frame)), s.pipes[i].qh)
  {
    hide CoreInv, Shapes, OwnersOf, Begin, Linkable, Link, Rewritten, WriteSlots, Listed, FramesFor, Elements;
    hide TransferOwner;
    Lengths(s);
    PipeHead(s, i);
    BeginKeepsInv(s, cmd);
    BeginExtends(s, cmd);
    var s1 := Begin(s, cmd);
    var t := s1.pending.value;
    OwnPointers(t);
    OtherHead(CoreOf(s1), t.qh, s.pipes[i].qh);
    WritesListed(s.slots, t.frames, QhLink(t.qh), s.pipes[i].qh);
  }

  lemma FinishSlots(s: State, o: Outcome)
    requires StateInv(s) && s.pending.Some?
    ensures var t := s.pending.value;
      && |s.slots| == FRAMES && (forall k :: 0 <= k < |t.frames| ==> t.frames[k] < FRAMES)
      && Finish(s, o).0.slots ==
         if Terminates(t.kind, o) then WriteSlots(s.slots, t.frames, UhciWords.TERMINATE) else s.slots
  {
    hide CoreInv, OwnersOf, ReleaseAll, WriteSlots, PipeShape;
    GivenAddresses(s);
    SlotsLength(CoreOf(s));
    ReleaseAllSlots(Settled(s, o), Given(s.pending.value));
  }

  lemma FinishWrites(s: State, o: Outcome, i: nat)
    requires StateInv(s) && i < MAX_PIPES && s.pipes[i].inUse && s.pending.Some?
    requires Terminates(s.pending.value.kind, o)
    ensures Rewritten(s.slots, Finish(s, o).0.slots, Listed(s.pending.value.frames), s.pipes[i].qh)
  {
    hide StateInv, Finish, Linkable, Link, Rewritten, WriteSlots, Listed;
    Lengths(s);
    PipeHead(s, i);
    FinishSlots(s, o);
    WritesListed(s.slots, s.pending.value.frames, UhciWords.TERMINATE, s.pipes[i].qh);
  }

  lemma {:induction false} ServiceSlots(s: State, k: nat)
    requires StateInv(s) && k <= MAX_PIPES
    ensures ServiceFrom(s, k).slots == s.slots
    decreases MAX_PIPES - k
  {
    hide CoreInv, OwnersOf, E.Service, EndpointOf;
    if k < MAX_PIPES {
      ServicePipeKeepsInv(s, k);
      hide StateInv;
      ServiceSlots(ServicePipe(s, k), k + 1);
    }
  }

  lemma BusSlots(s: State, ev: BusEvent)
    requires StateInv(s)
    ensures BusNext(s, ev).slots == s.slots
  {
    hide CoreInv, OwnersOf, E.Retire, EndpointOf, ServiceFrom;
    match ev {
      case Interrupt => ServiceSlots(s, 0);
      case Completion(_, _, _, _) =>
    }
  }

  lemma SilentSlots(s: State, step: Step)
    requires StateInv(s) && Enabled(s, step)
    requires step.Bus? || step.Stage? || step.BorrowBlob? || step.FillBlob? || step.ReturnBlob?
    ensures Next(s, step).slots == s.slots
  {
    hide StateInv, Borrow, OwnersOf, Unowned, BusNext;
    match step {
      case Bus(ev) => BusSlots(s, ev);
      case BorrowBlob(size) => BorrowKeepsInv(s, size);
      case ReturnBlob(p) => ReturnKeepsInv(s, p);
      case _ =>
    }
  }

  lemma FailedOpenSlots(s: State, r: OpenRequest)
    requires StateInv(s) && Open(s, r).1 == -1
    ensures Open(s, r).0.slots == s.slots
  {
    hide StateInv, Open, OwnersOf;
    OpenKeepsInv(s, r);
  }

  lemma NotClosing(s: State, id: int)
    requires StateInv(s) && !(0 <= id < |s.pipes| && s.pipes[id].inUse)
    ensures Close(s, id) == s
  {
    hide StateInv;
  }

  /** One step writes exactly the slots listed, and never a link to the pipe. */
  lemma StepWrites(s: State, step: Step, i: nat)
    requires StateInv(s) && Enabled(s, step) && i < MAX_PIPES && s.pipes[i].inUse
    ensures Rewritten(s.slots, Next(s, step).slots, Writes(s, step), s.pipes[i].qh)
  {
    hide StateInv, Open, Close, Begin, Finish, StageState, BusNext, Borrow, Return, Fill, AllTerminated, Rewritten;
    hide Region, Listed, Below, FramesFor, NextSlot, Dangles, Loose;
    Lengths(s);
    NothingWritten(s.slots, s.pipes[i].qh);
    match step {
      case Initialize => InitializeWrites(s, i);
      case OpenPipe(r) =>
        if Open(s, r).1 == -1 { FailedOpenSlots(s, r); } else { OpenWrites(s, r, i); }
      case ClosePipe(id) =>
        if 0 <= id < |s.pipes| && s.pipes[id].inUse { CloseWrites(s, id, i); } else { NotClosing(s, id); }
      case BeginTransfer(cmd) =>
        if Begin(s, cmd).pending.Some? { BeginWrites(s, cmd, i); } else { FailedBeginSlots(s, cmd); }
      case FinishTransfer(o) =>
        if Terminates(s.pending.value.kind, o) { FinishWrites(s, o, i); } else { FinishSlots(s, o); }
      case _ => SilentSlots(s, step);
    }
  }

  lemma FailedBeginSlots(s: State, cmd: Command)
    requires StateInv(s) && s.pending.None? && Begin(s, cmd).pending.None?
    ensures Begin(s, cmd).slots == s.slots
  {
    hide StateInv, Begin, AcquireChain, Extends, NonNull, OwnersOf;
    FailedBeginLeavesExactly(s, cmd);
  }

  // ---- The pipe keeps its queue head ----

  lemma {:induction false} RunSamePipe(e: E.Endpoint, evs: seq<E.Event>)
    ensures SamePipe(e.pipe, E.Run(e, evs).pipe)
    decreases |evs|
  {
    hide BuildInToken, IsActive;
    if evs != [] {
      RunSamePipe(E.Next(e, evs[0]), evs[1..]);
    }
  }

  lemma StepSamePipe(s: State, step: Step, i: nat)
    requires StateInv(s) && Enabled(s, step) && i < MAX_PIPES && s.pipes[i].inUse && step != ClosePipe(i)
    ensures StateInv(Next(s, step)) && Next(s, step).pipes[i].inUse && SamePipe(s.pipes[i], Next(s, step).pipes[i])
  {
    hide CoreInv, Shapes, OwnersOf, Enabled, EndpointOf, Next, E.Run, StepEvents;
    StepEndpoint(s, step, i);
    RunSamePipe(EndpointOf(s, i), StepEvents(step, i));
    EndpointPipe(s, i);
    EndpointPipe(Next(s, step), i);
  }

  // ---- Runs ----

  /** No step of the run writes slot `f`. */
  ghost predicate Unwritten(s: State, steps: seq<Step>, f: nat)
    requires StateInv(s) && LegalRun(s, steps)
    decreases |steps|
  {
    steps == [] || (f !in Writes(s, steps[0]) && Unwritten(Next(s, steps[0]), steps[1..], f))
  }

  /** Over every legal run that does not close the pipe: a slot links to the pipe at the end if and only
      if it did so at the beginning and no step wrote it. */
  lemma {:induction false} LinkKeptExactly(s: State, steps: seq<Step>, i: nat, f: nat)
    requires StateInv(s) && LegalRun(s, steps) && i < MAX_PIPES && s.pipes[i].inUse && ClosePipe(i) !in steps
    requires f < FRAMES
    ensures |s.slots| == |UhciRuns.Run(s, steps).slots| == FRAMES
    ensures var s' := UhciRuns.Run(s, steps);
      && s'.pipes[i].inUse && SamePipe(s.pipes[i], s'.pipes[i])
      && (s'.slots[f] == QhLink(s.pipes[i].qh) <==> s.slots[f] == QhLink(s.pipes[i].qh) && Unwritten(s, steps, f))
    decreases |steps|
  {
    hide StateInv, Next, Enabled, Writes, Link;
    Lengths(s);
    if steps != [] {
      var s1 := Next(s, steps[0]);
      StepSamePipe(s, steps[0], i);
      StepWrites(s, steps[0], i);
      LinkKeptExactly(s1, steps[1..], i, f);
    }
  }

  lemma OpenedLinks(s: State, r: OpenRequest, f: nat)
    requires StateInv(s) && Open(s, r).1 != -1 && f < FRAMES
    ensures var (s1, id) := Open(s, r);
      && StateInv(s1) && 0 <= id < MAX_PIPES && s1.pipes[id].inUse && |s1.slots| == FRAMES
      && s1.pipes[id].firstSlot == NextSlot(r.frame) && s1.pipes[id].interval == IntervalOf(r)
      && (s1.slots[f] == QhLink(s1.pipes[id].qh) <==> f in Region(NextSlot(r.frame), IntervalOf(r)))
  {
    hide StateInv, Open, Acquire, OwnersOf, CoreInv, Link, NextSlot;
    OpenKeepsInv(s, r);
    OpenedBy(s, r);
    var (s1, id) := Open(s, r);
    Lengths(s1);
    InRegion(NextSlot(r.frame), IntervalOf(r));
    hide Region, Stride.Owns;
    OnlyRegionLinks(s1, id, f);
  }

  lemma OnlyRegionLinks(s: State, i: nat, f: nat)
    requires StateInv(s) && i < |s.pipes| && s.pipes[i].inUse && f < |s.slots|
    ensures s.slots[f] == QhLink(s.pipes[i].qh) ==> f in Region(s.pipes[i].firstSlot, s.pipes[i].interval)
  {
    hide CoreInv, Shapes, OwnersOf, Region, Link;
    PipeOwned(s, i);
  }

  /** From an open on, over every legal run that does not close the pipe: a slot links to the pipe's
      queue head if and only if the pipe's walk covers it and no later initialisation, open, close or
      transfer wrote it. */
  lemma PolledExactly(s: State, r: OpenRequest, steps: seq<Step>, f: nat)
    requires StateInv(s) && Open(s, r).1 != -1 && f < FRAMES
    requires StateInv(Open(s, r).0) ==> LegalRun(Open(s, r).0, steps) && ClosePipe(Open(s, r).1) !in steps
    ensures var (s1, id) := Open(s, r);
      && StateInv(s1) && LegalRun(s1, steps) && 0 <= id < MAX_PIPES
      && var s2 := UhciRuns.Run(s1, steps);
      && s2.pipes[id].inUse && |s2.slots| == FRAMES
      && (s2.slots[f] == QhLink(s2.pipes[id].qh) <==>
            f in Region(NextSlot(r.frame), IntervalOf(r)) && Unwritten(s1, steps, f))
  {
    hide StateInv, Open, LegalRun, UhciRuns.Run, Unwritten, Region, NextSlot, Link;
    OpenedLinks(s, r, f);
    var (s1, id) := Open(s, r);
    LinkKeptExactly(s1, steps, id, f);
  }

  /** So a pipe none of whose slots is written again is polled in every window of its interval. */
  lemma PolledWhileUnwritten(s: State, r: OpenRequest, steps: seq<Step>, w: nat) returns (j: nat)
    requires StateInv(s) && Open(s, r).1 != -1
    requires StateInv(Open(s, r).0) ==>
      && LegalRun(Open(s, r).0, steps) && ClosePipe(Open(s, r).1) !in steps
      && forall f :: f in Region(NextSlot(r.frame), IntervalOf(r)) ==> Unwritten(Open(s, r).0, steps, f)
    ensures var (s1, id) := Open(s, r);
      && StateInv(s1) && LegalRun(s1, steps) && 0 <= id < MAX_PIPES
      && var s2 := UhciRuns.Run(s1, steps);
      && j < IntervalOf(r) && |s2.slots| == FRAMES && s2.slots[(w + j) % FRAMES] == QhLink(s2.pipes[id].qh)
  {
    hide StateInv, Open, LegalRun, UhciRuns.Run, Unwritten, NextSlot, Link;
    j := Stride.WindowHit(NextSlot(r.frame), IntervalOf(r), FRAMES, w);
    InRegion(NextSlot(r.frame), IntervalOf(r));
    hide Region, Stride.Owns;
    PolledExactly(s, r, steps, (w + j) % FRAMES);
  }

  // ---- Two keyboards ----

  /** Two walks with the same interval cover the same slots or none in common. */
  lemma SameIntervalRegions(a: nat, b: nat, d: nat)
    requires d > 0
    ensures a % Stride.Gcd(d, FRAMES) == b % Stride.Gcd(d, FRAMES) ==> Region(a, d) == Region(b, d)
    ensures a % Stride.Gcd(d, FRAMES) != b % Stride.Gcd(d, FRAMES) ==> Region(a, d) !! Region(b, d)
  {
    hide Stride.Gcd;
  }

  lemma WalkNotEmpty(first: nat, interval: nat)
    requires first < FRAMES
    ensures first in Region(first, interval)
  {
  }

  /** Opening a second pipe: a slot still links to the first exactly when only the first walk covers it. */
  lemma SecondOpenSlot(s: State, r1: OpenRequest, r2: OpenRequest, f: nat)
    requires StateInv(s) && Open(s, r1).1 != -1 && f < FRAMES
    requires StateInv(Open(s, r1).0) ==> Open(Open(s, r1).0, r2).1 != -1
    ensures var (s1, id) := Open(s, r1);
      && StateInv(s1) && 0 <= id < MAX_PIPES
      && var s2 := Open(s1, r2).0;
      && |s2.slots| == FRAMES && |s2.pipes| == |s1.pipes| == MAX_PIPES
      && s1.pipes[id].inUse && s2.pipes[id] == s1.pipes[id]
      && (s2.slots[f] == QhLink(s1.pipes[id].qh) <==>
            f in Region(NextSlot(r1.frame), IntervalOf(r1)) && f !in Region(NextSlot(r2.frame), IntervalOf(r2)))
  {
    hide StateInv, Open, Region, NextSlot, Link, SameAt;
    OpenedLinks(s, r1, f);
    var (s1, id) := Open(s, r1);
    Lengths(s1);
    OpenWrites(s1, r2, id);
    OpenUndisturbed(s1, r2, id);
  }

  /** Opening a second pipe silences the first, which stays in use and keeps its queue head, exactly
      when the second walk covers the whole of the first. */
  lemma SecondOpen(s: State, r1: OpenRequest, r2: OpenRequest)
    requires StateInv(s) && Open(s, r1).1 != -1
    requires StateInv(Open(s, r1).0) ==> Open(Open(s, r1).0, r2).1 != -1
    ensures var (s1, id) := Open(s, r1);
      && StateInv(s1) && 0 <= id < MAX_PIPES
      && var s2 := Open(s1, r2).0;
      && |s2.pipes| == |s1.pipes| == MAX_PIPES && s1.pipes[id].inUse && s2.pipes[id] == s1.pipes[id]
      && (Unlinked(s2.slots, s2.pipes[id].qh) <==>
            Region(NextSlot(r1.frame), IntervalOf(r1)) <= Region(NextSlot(r2.frame), IntervalOf(r2)))
  {
    hide StateInv, Open, Region, NextSlot, Link;
    var R1, R2 := Region(NextSlot(r1.frame), IntervalOf(r1)), Region(NextSlot(r2.frame), IntervalOf(r2));
    SecondOpenSlot(s, r1, r2, 0);
    var (s1, id) := Open(s, r1);
    var s2 := Open(s1, r2).0;
    forall f: nat | f < FRAMES ensures s2.slots[f] == QhLink(s1.pipes[id].qh) <==> f in R1 && f !in R2 {
      SecondOpenSlot(s, r1, r2, f);
    }
    RegionBound(NextSlot(r1.frame), IntervalOf(r1));
    if !(R1 <= R2) {
      var f :| f in R1 && f !in R2;
      assert s2.slots[f] == QhLink(s1.pipes[id].qh);
    }
  }

  lemma RegionBound(first: nat, interval: nat)
    ensures forall f :: f in Region(first, interval) ==> f < FRAMES
  {
  }

  /** With equal intervals that is when the first slots agree modulo the gcd of the interval and 1024;
      otherwise the two walks have no slot in common. */
  lemma EqualIntervals(s: State, r1: OpenRequest, r2: OpenRequest)
    requires StateInv(s) && Open(s, r1).1 != -1 && IntervalOf(r1) == IntervalOf(r2)
    requires StateInv(Open(s, r1).0) ==> Open(Open(s, r1).0, r2).1 != -1
    ensures var (s1, id) := Open(s, r1); var g := Stride.Gcd(IntervalOf(r1), FRAMES);
      && StateInv(s1) && 0 <= id < MAX_PIPES && g > 0
      && var s2 := Open(s1, r2).0;
      && |s2.pipes| == |s1.pipes| == MAX_PIPES && s2.pipes[id].inUse && s2.pipes[id] == s1.pipes[id]
      && (Unlinked(s2.slots, s2.pipes[id].qh) <==> NextSlot(r1.frame) % g == NextSlot(r2.frame) % g)
  {
    hide StateInv, Open, Region, NextSlot, Link, Unlinked, Stride.Gcd;
    SecondOpen(s, r1, r2);
    SameIntervalRegions(NextSlot(r1.frame), NextSlot(r2.frame), IntervalOf(r1));
    NextSlotBound(r1.frame);
    WalkNotEmpty(NextSlot(r1.frame), IntervalOf(r1));
  }

  /** The walk starts in the frame after the current one. */
  lemma NextSlotBound(frame: nat)
    ensures NextSlot(frame) == (frame + 1) % FRAMES < FRAMES && NextSlot(frame) % 2 == (frame + 1) % 2
  {
    var f := frame % 2048;
    var n := (f + 1) % 1024;
    FrameWraps(frame);
    SameParity(frame + 1, f + 1, 1024 * (frame / 2048));
    SameParity(f + 1, n, 512 * ((f + 1) / 1024));
  }

  lemma FrameWraps(frame: nat)
    ensures (frame % 2048 + 1) % 1024 == (frame + 1) % 1024
  {
  }

  lemma SameParity(a: nat, b: nat, k: int)
    requires a == b + 2 * k
    ensures a % 2 == b % 2
  {
  }

  lemma GcdOfTen()
    ensures Stride.Gcd(10, FRAMES) == 2
  {
    assert Stride.Gcd(1024, 10) == Stride.Gcd(10, 4);
  }

  /** For instance two keyboards that ask to be polled every 10 frames, on a fresh driver: both are
      opened, and the second silences the first exactly when the frame numbers at the two opens have
      the same parity. */
  lemma TwoKeyboards(base: nat, r1: OpenRequest, r2: OpenRequest)
    requires 0 < base && base + ALLOCATOR_SIZE < 0x1_0000_0000 && r1.interval == 10 && r2.interval == 10
    ensures StateInv(Fresh(base)) && Open(Fresh(base), r1).1 == 0
    ensures var s1 := Open(Fresh(base), r1).0;
      && StateInv(s1) && Open(s1, r2).1 == 1
      && var s2 := Open(s1, r2).0;
      && |s2.pipes| == MAX_PIPES && s2.pipes[0].inUse
      && (Unlinked(s2.slots, s2.pipes[0].qh) <==> r1.frame % 2 == r2.frame % 2)
  {
    hide StateInv, Open, Region, NextSlot, Link, Unlinked, Stride.Gcd, AllTerminated;
    FreshInv(base);
    var s := Fresh(base);
    assert FreePipe(s.pipes) == 0;
    OpenGrants(s, r1);
    OpenKeepsInv(s, r1);
    OpenedPipes(s, r1);
    var s1 := Open(s, r1).0;
    assert FreePipe(s1.pipes) == 1;
    OpenGrants(s1, r2);
    EqualIntervals(s, r1, r2);
    GcdOfTen();
    SlotParity(r1.frame, r2.frame);
  }

  lemma SlotParity(a: nat, b: nat)
    ensures NextSlot(a) % 2 == NextSlot(b) % 2 <==> a % 2 == b % 2
  {
    NextSlotBound(a);
    NextSlotBound(b);
    hide NextSlot;
  }

  lemma OpenedPipes(s: State, r: OpenRequest)
    requires StateInv(s) && Open(s, r).1 != -1
    ensures var (s1, id) := Open(s, r);
      0 <= id < |s.pipes| && |s1.pipes| == |s.pipes| && s1.pipes[id].inUse && s1.pipes == s.pipes[id := s1.pipes[id]]
  {
    hide StateInv, Open, Acquire, OwnersOf, Filled, Obtained;
    OpenedBy(s, r);
  }
}
