/**
 Delivery over whole runs: whatever else the driver does between the completions and service calls
 of a pipe, every error-free report of the pipe is delivered exactly once.
 */
module UhciDelivery {
  import opened Heap
  import opened Resources
  import opened FrameList
  import opened UhciModel
  import opened UhciPipes
  import opened UhciTransfers
  import opened UhciFinish
  import opened UhciService
  import opened UhciBlobs
  import opened UhciLeaks
  import opened UhciRuns
  import E = Endpoint

  /** Pipe `i`, its three objects and its log are the same in both states. */
  ghost predicate Undisturbed(s: State, s': State, i: nat) {
    && i < |s.pipes| == |s'.pipes| && s'.pipes[i] == s.pipes[i]
    && i < |s.delivered| == |s'.delivered| && s'.delivered[i] == s.delivered[i]
    && SameAt(s.mem, s'.mem, PipePtrs(s.pipes[i]))
  }

  ghost predicate SameAt(mem: map<nat, Object>, mem': map<nat, Object>, ps: seq<nat>) {
    forall q :: q in ps && q in mem ==> q in mem' && mem'[q] == mem[q]
  }

  lemma UndisturbedEndpoint(s: State, s': State, i: nat)
    requires Shapes(s) && Shapes(s') && i < MAX_PIPES && s.pipes[i].inUse && Undisturbed(s, s', i)
    ensures s'.pipes[i].inUse && EndpointOf(s', i) == EndpointOf(s, i)
  {
    var p := s.pipes[i];
    hide Shapes, PipeShape;
    PipeInMem(s, i);
    assert p.td in PipePtrs(p) && p.qh in PipePtrs(p) && p.buf in PipePtrs(p);
    PipeInMem(s', i);
  }

  lemma PipeInMem(s: State, i: nat)
    requires Shapes(s) && i < MAX_PIPES && s.pipes[i].inUse
    ensures var p := s.pipes[i];
      && |s.pipes| == MAX_PIPES && |s.delivered| == MAX_PIPES
      && p.td in s.mem && p.qh in s.mem && p.buf in s.mem
      && s.mem[p.td].TdObject? && s.mem[p.qh].QhObject? && s.mem[p.buf].Bytes?
  {
    assert PipeShape(s.mem, s.pipes[i]);
  }

  // ---- What each step leaves alone ----

  lemma ExtendsSameAt(mem: map<nat, Object>, mem': map<nat, Object>, added: set<nat>, ps: seq<nat>)
    requires Extends(mem, mem', added)
    ensures SameAt(mem, mem', ps)
  {
  }

  lemma OpenUndisturbed(s: State, r: OpenRequest, i: nat)
    requires StateInv(s) && i < MAX_PIPES && s.pipes[i].inUse
    ensures Undisturbed(s, Open(s, r).0, i)
  {
    hide CoreInv, Shapes, OwnersOf, Acquire, ReleaseAll, Obtained, AllDisposable, Returned, Filled, SameAt;
    SlotCount(s);
    var k := FreePipe(s.pipes);
    if k == |s.pipes| {
      SameSelf(s.mem, PipePtrs(s.pipes[i]));
    } else {
      assert k != i;
      AcquireObtained(CoreOf(s));
      var (c, buf, td, qh) := Acquire(CoreOf(s));
      ObtainedCore(CoreOf(s), c, buf, td, qh);
      if buf == NULL || td == NULL || qh == NULL {
        ReleaseAllKeepsInv(c, [td, qh, buf]);
        MemRestored(CoreOf(s), c, ReleaseAll(c, [td, qh, buf]), buf, td, qh);
        SameSelf(s.mem, PipePtrs(s.pipes[i]));
      } else {
        ScheduledSame(CoreOf(s), c, PipeFor(r, buf, td, qh), PipePtrs(s.pipes[i]));
      }
    }
  }

  lemma ObtainedCore(c0: Core, c: Core, buf: nat, td: nat, qh: nat)
    requires Obtained(c0, c, buf, td, qh)
    ensures CoreInv(c) && |c.slots| == FRAMES
  {
    hide CoreInv;
    SlotsLength(c);
  }

  lemma SameSelf(mem: map<nat, Object>, ps: seq<nat>)
    ensures SameAt(mem, mem, ps)
  {
  }

  lemma ScheduledSame(c0: Core, c: Core, p: Pipe, ps: seq<nat>)
    requires Obtained(c0, c, p.buf, p.td, p.qh) && p.td != NULL && p.qh != NULL && |c.slots| == FRAMES
    ensures SameAt(c0.mem, Scheduled(c, p).mem, ps)
  {
    hide CoreInv, Filled;
  }

  lemma CloseUndisturbed(s: State, id: int, i: nat)
    requires StateInv(s) && i < MAX_PIPES && s.pipes[i].inUse && id != i
    ensures Undisturbed(s, Close(s, id), i)
  {
    hide CoreInv, Shapes, OwnersOf, ReleaseAll, Unscheduled, SameAt, ClosedBy;
    SlotCount(s);
    CloseKeepsInv(s, id);
    if 0 <= id < |s.pipes| && s.pipes[id].inUse {
      PipesApart(s, i, id);
      ClosedSame(s, Close(s, id), id, PipePtrs(s.pipes[i]));
    } else {
      SameSelf(s.mem, PipePtrs(s.pipes[i]));
    }
  }

  lemma ClosedSame(s: State, s': State, id: nat, ps: seq<nat>)
    requires id < |s.pipes| && ClosedBy(s, s', id)
    requires forall q :: q in ps ==> q !in PipePtrs(s.pipes[id])
    ensures SameAt(s.mem, s'.mem, ps)
  {
    var p := s.pipes[id];
    assert p.td in PipePtrs(p) && p.qh in PipePtrs(p) && p.buf in PipePtrs(p);
    hide Filled;
  }

  lemma BeginUndisturbed(s: State, cmd: Command, i: nat)
    requires StateInv(s) && s.pending.None? && i < MAX_PIPES && s.pipes[i].inUse
    ensures Undisturbed(s, Begin(s, cmd), i)
  {
    hide StateInv, Begin, SameAt, Extends, Elements, NonNull;
    StateCounts(s);
    BeginFields(s, cmd);
    var ps := PipePtrs(s.pipes[i]);
    if Begin(s, cmd).pending.Some? {
      BeginExtends(s, cmd);
      ExtendsSameAt(s.mem, Begin(s, cmd).mem, Elements(TransferOwner(Begin(s, cmd).pending.value).ptrs), ps);
    } else {
      FailedBeginLeavesExactly(s, cmd);
      var (c, packet, qs) := AcquireOf(s, cmd);
      ExtendsSameAt(s.mem, Begin(s, cmd).mem, NonNull([packet]) + NonNull(qs), ps);
    }
  }

  ghost function AcquireOf(s: State, cmd: Command): (r: (Core, nat, seq<nat>))
    requires StateInv(s)
  {
    AcquireChain(CoreOf(s), cmd)
  }

  /** A pipe and the transfer share no object. */
  lemma TransferApart(s: State, i: nat)
    requires StateInv(s) && s.pending.Some? && i < MAX_PIPES && s.pipes[i].inUse
    ensures forall q :: q in PipePtrs(s.pipes[i]) ==> q !in TransferOwner(s.pending.value).ptrs
  {
    hide HeapInv, Typed, SlotsOk, OwnersOk, TransferOwner;
    StateCounts(s);
    assert MAX_PIPES in OwnersOf(s) && OwnersOf(s)[MAX_PIPES] == TransferOwner(s.pending.value);
    assert i in OwnersOf(s) && OwnersOf(s)[i] == PipeOwner(s.pipes[i]);
  }

  lemma FinishUndisturbed(s: State, o: Outcome, i: nat)
    requires StateInv(s) && s.pending.Some? && i < MAX_PIPES && s.pipes[i].inUse
    ensures Undisturbed(s, Finish(s, o).0, i)
  {
    hide StateInv, Finish, Elements, TransferOwner;
    StateCounts(s);
    TransferApart(s, i);
    FinishObjects(s, o);
    FinishFields(s, o);
    RemovedSame(s.mem, TransferOwner(s.pending.value).ptrs, Leaked(s.pending.value, o), PipePtrs(s.pipes[i]));
  }

  lemma RemovedSame(mem: map<nat, Object>, gone: seq<nat>, kept: set<nat>, ps: seq<nat>)
    requires forall q :: q in ps ==> q !in gone
    ensures SameAt(mem, mem - (Elements(gone) - kept), ps)
  {
  }

  lemma FinishFields(s: State, o: Outcome)
    requires StateInv(s) && s.pending.Some?
    ensures Finish(s, o).0.pipes == s.pipes && Finish(s, o).0.delivered == s.delivered
  {
    hide CoreInv, Shapes, OwnersOf, ReleaseAll, WriteSlots;
    GivenAddresses(s);
  }

  lemma StageUndisturbed(s: State, k: nat, td: Td, element: nat, i: nat)
    requires StateInv(s) && i < MAX_PIPES && s.pipes[i].inUse
    ensures Undisturbed(s, StageState(s, k, td, element), i)
  {
    hide StateInv;
    StateCounts(s);
    if s.pending.Some? {
      TransferApart(s, i);
      StageSame(s.mem, s.pending.value, PipePtrs(s.pipes[i]));
    }
  }

  lemma StageSame(mem: map<nat, Object>, t: Transfer, ps: seq<nat>)
    requires forall q :: q in ps ==> q !in TransferOwner(t).ptrs
    ensures forall q :: q in ps ==> q != t.qh && q !in t.stages
  {
    var all := TransferOwner(t).ptrs;
    assert all[|t.stages|] == t.qh && forall i :: 0 <= i < |t.stages| ==> all[i] == t.stages[i];
  }

  lemma BlobUndisturbed(s: State, step: Step, i: nat)
    requires StateInv(s) && Enabled(s, step) && (step.BorrowBlob? || step.FillBlob? || step.ReturnBlob?)
    requires i < MAX_PIPES && s.pipes[i].inUse
    ensures Undisturbed(s, Next(s, step), i)
  {
    hide StateInv, Borrow, OwnersOf, Unowned;
    StateCounts(s);
    match step {
      case BorrowBlob(size) => BorrowKeepsInv(s, size);
      case FillBlob(p, data) => PipeNotLoose(s, i, p);
      case ReturnBlob(p) =>
        ReturnKeepsInv(s, p);
        if p != NULL { PipeNotLoose(s, i, p); }
    }
  }

  // ---- One step ----

  /** The events of a pipe in one step of a run. */
  function StepEvents(step: Step, i: nat): seq<E.Event> {
    if step.Bus? then EventFor(step.event, i) else []
  }

  lemma QuietStep(s: State, step: Step, i: nat)
    requires StateInv(s) && Enabled(s, step) && i < MAX_PIPES && s.pipes[i].inUse
    requires !step.Bus? && step != ClosePipe(i)
    ensures Undisturbed(s, Next(s, step), i)
  {
    hide StateInv, Open, Close, Begin, Finish, StageState, Borrow, Return, Fill, AllTerminated, Enabled;
    StateCounts(s);
    match step {
      case Initialize => SameSelf(s.mem, PipePtrs(s.pipes[i]));
      case OpenPipe(r) => OpenUndisturbed(s, r, i);
      case ClosePipe(id) => CloseUndisturbed(s, id, i);
      case BeginTransfer(cmd) => EnabledBegin(s, cmd); BeginUndisturbed(s, cmd, i);
      case FinishTransfer(o) => EnabledFinish(s, o); FinishUndisturbed(s, o, i);
      case Stage(k, td, element) => StageUndisturbed(s, k, td, element, i);
      case _ => BlobUndisturbed(s, step, i);
    }
  }

  lemma EnabledBegin(s: State, cmd: Command)
    requires Enabled(s, BeginTransfer(cmd))
    ensures s.pending.None?
  {
  }

  lemma EnabledFinish(s: State, o: Outcome)
    requires Enabled(s, FinishTransfer(o))
    ensures s.pending.Some? && !Dangles(s, o)
  {
  }

  lemma StepEndpoint(s: State, step: Step, i: nat)
    requires StateInv(s) && Enabled(s, step) && i < MAX_PIPES && s.pipes[i].inUse && step != ClosePipe(i)
    ensures StateInv(Next(s, step)) && Next(s, step).pipes[i].inUse
    ensures EndpointOf(Next(s, step), i) == E.Run(EndpointOf(s, i), StepEvents(step, i))
  {
    hide CoreInv, Shapes, OwnersOf, Enabled, EndpointOf, Undisturbed, BusNext;
    if step.Bus? {
      BusNextEndpoint(s, step.event, i);
      BusStep(s, step.event);
    } else {
      hide Next;
      QuietStep(s, step, i);
      UndisturbedEndpoint(s, Next(s, step), i);
    }
  }

  lemma BusStep(s: State, ev: BusEvent)
    requires StateInv(s) && Enabled(s, Bus(ev))
    ensures Next(s, Bus(ev)) == BusNext(s, ev)
  {
    hide StateInv, Open, Close, Begin, Finish, StageState, Borrow, Return, Fill, AllTerminated, Enabled;
  }

  // ---- Runs ----

  function RunEvents(steps: seq<Step>, i: nat): seq<E.Event>
    decreases |steps|
  {
    if steps == [] then [] else StepEvents(steps[0], i) + RunEvents(steps[1..], i)
  }

  /** Projection: over every legal run that does not close the pipe, the pipe runs as its endpoint
      does on its own events, whatever pipes, transfers, blobs and initialisation do in between. */
  lemma {:induction false} RunEndpoint(s: State, steps: seq<Step>, i: nat)
    requires StateInv(s) && LegalRun(s, steps) && i < MAX_PIPES && s.pipes[i].inUse && ClosePipe(i) !in steps
    ensures UhciRuns.Run(s, steps).pipes[i].inUse
    ensures EndpointOf(UhciRuns.Run(s, steps), i) == E.Run(EndpointOf(s, i), RunEvents(steps, i))
    decreases |steps|
  {
    hide CoreInv, Shapes, OwnersOf, Next, Enabled, EndpointOf, StepEvents;
    if steps != [] {
      var s1 := Next(s, steps[0]);
      StepEndpoint(s, steps[0], i);
      RunEndpoint(s1, steps[1..], i);
      RunAppend(EndpointOf(s, i), StepEvents(steps[0], i), RunEvents(steps[1..], i));
    }
  }

  /** From an open on, over every legal run that does not close the pipe: every error-free, NAK-free
      completion is delivered exactly once and in order, at most one waits, and the toggle is the
      parity of the delivered reports. */
  lemma DeliveredInEveryRun(s: State, r: OpenRequest, steps: seq<Step>)
    requires StateInv(s) && Open(s, r).1 != -1
    requires StateInv(Open(s, r).0) ==> LegalRun(Open(s, r).0, steps) && ClosePipe(Open(s, r).1) !in steps
    ensures var (s1, id) := Open(s, r);
      && StateInv(s1) && LegalRun(s1, steps) && 0 <= id < MAX_PIPES && s1.pipes[id].inUse
      && var s2 := UhciRuns.Run(s1, steps);
      && s2.pipes[id].inUse && E.InStep(EndpointOf(s2, id))
      && s2.delivered[id] + E.Outstanding(EndpointOf(s2, id)) == E.Completed(EndpointOf(s1, id), RunEvents(steps, id))
  {
    hide CoreInv, Shapes, OwnersOf, Open, EndpointOf, LegalRun, UhciRuns.Run, E.InStep, E.Outstanding;
    OpenedInStep(s, r);
    var (s1, id) := Open(s, r);
    RunEndpoint(s1, steps, id);
    var s2 := UhciRuns.Run(s1, steps);
    var e := EndpointOf(s1, id);
    E.RunInStep(e, RunEvents(steps, id));
    E.ExactlyOnce(e, RunEvents(steps, id));
    EndpointLog(s1, id);
    EndpointLog(s2, id);
  }

  lemma EndpointLog(s: State, i: nat)
    requires StateInv(s) && i < MAX_PIPES && s.pipes[i].inUse
    ensures |s.delivered| == MAX_PIPES && EndpointOf(s, i).delivered == s.delivered[i]
  {
    hide CoreInv;
  }

  // ---- Runs of completions and service calls alone ----

  function BusSteps(evs: seq<BusEvent>): seq<Step>
    decreases |evs|
  {
    if evs == [] then [] else [Bus(evs[0])] + BusSteps(evs[1..])
  }

  lemma {:induction false} BusStepsRun(s: State, evs: seq<BusEvent>, i: nat)
    requires StateInv(s)
    ensures LegalRun(s, BusSteps(evs)) && UhciRuns.Run(s, BusSteps(evs)) == BusRun(s, evs)
    ensures RunEvents(BusSteps(evs), i) == EventsFor(evs, i) && ClosePipe(i) !in BusSteps(evs)
    decreases |evs|
  {
    hide StateInv, Next, BusNext, EventFor;
    if evs != [] {
      BusStep(s, evs[0]);
      BusStepsRun(BusNext(s, evs[0]), evs[1..], i);
      assert BusSteps(evs)[1..] == BusSteps(evs[1..]);
    }
  }

  /** Over every interleaving of completions on any pipe and service calls, a pipe in use runs exactly
      as its endpoint does on its own events. */
  lemma BusRunEndpoint(s: State, evs: seq<BusEvent>, i: nat)
    requires StateInv(s) && i < MAX_PIPES && s.pipes[i].inUse
    ensures BusRun(s, evs).pipes[i].inUse
    ensures EndpointOf(BusRun(s, evs), i) == E.Run(EndpointOf(s, i), EventsFor(evs, i))
  {
    hide CoreInv, Shapes, OwnersOf, EndpointOf, BusRun, BusSteps, LegalRun, UhciRuns.Run, E.Run;
    BusStepsRun(s, evs, i);
    RunEndpoint(s, BusSteps(evs), i);
  }

  /** And from an open on it delivers every error-free, NAK-free completion exactly once and in order. */
  lemma DeliveredExactlyOnce(s: State, r: OpenRequest, evs: seq<BusEvent>)
    requires StateInv(s) && Open(s, r).1 != -1
    ensures var (s1, id) := Open(s, r);
      && StateInv(s1) && 0 <= id < MAX_PIPES && s1.pipes[id].inUse
      && var s2 := BusRun(s1, evs);
      && s2.pipes[id].inUse && E.InStep(EndpointOf(s2, id))
      && s2.delivered[id] + E.Outstanding(EndpointOf(s2, id)) == E.Completed(EndpointOf(s1, id), EventsFor(evs, id))
  {
    hide CoreInv, Shapes, OwnersOf, Open, EndpointOf, BusRun, BusSteps, LegalRun, UhciRuns.Run, E.InStep;
    OpenedInStep(s, r);
    var (s1, id) := Open(s, r);
    BusStepsRun(s1, evs, id);
    DeliveredInEveryRun(s, r, BusSteps(evs));
    StateCounts(BusRun(s1, evs));
  }
}
