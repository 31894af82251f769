/**
 Whole runs of the driver: controller initialisation, pipes opened and closed, control
 transfers started and finished, blobs borrowed and given back, hardware completions and service
 calls, in any order.
 */
module UhciRuns {
  import opened Heap
  import opened UhciWords
  import opened Resources
  import opened FrameList
  import opened UhciModel
  import opened UhciPipes
  import opened UhciTransfers
  import opened UhciFinish
  import opened UhciService
  import opened UhciBlobs
  import opened UhciRoom

  datatype Step =
    | Initialize
    | OpenPipe(request: OpenRequest)
    | ClosePipe(id: int)
    | BeginTransfer(command: Command)
    | FinishTransfer(outcome: Outcome)
    | Stage(stage: nat, td: Td, element: nat)   // the hardware works on a control transfer
    | Bus(event: BusEvent)                      // a completion on a pipe, or a service call
    | BorrowBlob(size: nat)                     // the enumeration allocates a configuration blob
    | FillBlob(blob: nat, data: seq<bv8>)       // the hardware writes into it
    | ReturnBlob(blob: nat)                     // and the enumeration frees it

  /** Steps that can happen: one transfer at a time, and no failed GET_CONFIG whose slot still
      links to its queue head. */
  ghost predicate Enabled(s: State, step: Step) {
    match step
    case BeginTransfer(_) => s.pending.None?
    case FinishTransfer(o) => s.pending.Some? && !Dangles(s, o)
    case BorrowBlob(size) => size < MAX_BLOB
    case FillBlob(p, _) => Loose(s, p)
    case ReturnBlob(p) => p == NULL || Loose(s, p)
    case _ => true
  }

  // ---- Initialisation ----

  function AllTerminated(): (r: seq<nat>)
    ensures |r| == FRAMES && forall f :: 0 <= f < FRAMES ==> r[f] == UhciWords.TERMINATE
  {
    seq(FRAMES, f => UhciWords.TERMINATE)
  }

  /** The driver before its first transfer: frame list initialised, nothing allocated. */
  function Fresh(base: nat): State {
    State(Empty(base), AllTerminated(), map[], [NO_PIPE, NO_PIPE, NO_PIPE, NO_PIPE], None, [[], [], [], []])
  }

  lemma FreshInv(base: nat)
    requires 0 < base && base + ALLOCATOR_SIZE < 0x1_0000_0000
    ensures StateInv(Fresh(base))
  {
  }

  lemma InitializeKeepsInv(s: State)
    requires StateInv(s)
    ensures StateInv(s.(slots := AllTerminated()))
  {
    var s' := s.(slots := AllTerminated());
    OwnersFrame(s, s');
    ClearedOwners(CoreOf(s));
    assert SlotsOk(s.mem, s'.slots) by {
      assert forall f :: 0 <= f < FRAMES ==> SlotOk(s.mem, s'.slots[f]);
    }
    hide HeapInv, Typed, SlotsOk, OwnersOk, Apart, OwnersOf, PipeShape, TransferShape, AllTerminated;
  }

  lemma ClearedOwners(c: Core)
    requires CoreInv(c)
    ensures OwnersOk(AllTerminated(), c.mem, c.owners)
  {
    hide HeapInv, Typed, SlotsOk, Apart;
    forall k | k in c.owners ensures OwnerOk(AllTerminated(), c.mem, c.owners[k]) {
      assert OwnerOk(c.slots, c.mem, c.owners[k]);
      HeadNotTerminate(c, k);
    }
  }

  lemma HeadNotTerminate(c: Core, k: nat)
    requires CoreInv(c) && k in c.owners
    ensures QhLink(c.owners[k].qh) != UhciWords.TERMINATE
  {
    assert OwnerOk(c.slots, c.mem, c.owners[k]);
    ObjectLinkable(c, c.owners[k].qh);
    hide CoreInv;
    QhLinksDiffer(c.owners[k].qh, c.owners[k].qh);
  }

  // ---- The hardware on a control transfer ----

  /** The controller rewrites one descriptor of the transfer in progress and the element link of
      its queue head. */
  function StageState(s: State, k: nat, td: Td, element: nat): State {
    if s.pending.None? || k >= |s.pending.value.stages| then s
    else
      var t := s.pending.value;
      if t.qh in s.mem && s.mem[t.qh].QhObject? then
        s.(mem := s.mem[t.stages[k] := TdObject(td)][t.qh := QhObject(s.mem[t.qh].qh.(vertical := element))])
      else s
  }

  lemma StageKeepsInv(s: State, k: nat, td: Td, element: nat)
    requires StateInv(s)
    ensures StateInv(StageState(s, k, td, element))
  {
    hide CoreInv, OwnersOf, StageState, PipeShape, TransferShape;
    var s' := StageState(s, k, td, element);
    StageKinds(s, k, td, element);
    SameKindsKeepsInv(CoreOf(s), s'.mem);
    StageFields(s, k, td, element);
    OwnersFrame(s, s');
    KindsShapes(s, s'.mem);
  }

  lemma StageKinds(s: State, k: nat, td: Td, element: nat)
    requires Shapes(s)
    ensures SameKinds(s.mem, StageState(s, k, td, element).mem)
  {
  }

  lemma StageFields(s: State, k: nat, td: Td, element: nat)
    ensures var s' := StageState(s, k, td, element);
      s' == s.(mem := s'.mem)
  {
  }

  // ---- Runs ----

  ghost function Next(s: State, step: Step): (s': State)
    requires StateInv(s) && Enabled(s, step)
    ensures StateInv(s')
  {
    hide StateInv, Open, Close, Begin, Finish, StageState, BusNext, Borrow, Fill, Return;
    match step
    case Initialize => InitializeKeepsInv(s); s.(slots := AllTerminated())
    case OpenPipe(r) => OpenKeepsInv(s, r); Open(s, r).0
    case ClosePipe(id) => CloseKeepsInv(s, id); Close(s, id)
    case BeginTransfer(cmd) => BeginKeepsInv(s, cmd); Begin(s, cmd)
    case FinishTransfer(o) => FinishKeepsInv(s, o); Finish(s, o).0
    case Stage(k, td, element) => StageKeepsInv(s, k, td, element); StageState(s, k, td, element)
    case Bus(ev) => BusNext(s, ev)
    case BorrowBlob(size) => BorrowKeepsInv(s, size); Borrow(s, size).0
    case FillBlob(p, data) => FillKeepsInv(s, p, data); Fill(s, p, data)
    case ReturnBlob(p) => ReturnKeepsInv(s, p); Return(s, p)
  }

  ghost predicate LegalRun(s: State, steps: seq<Step>)
    requires StateInv(s)
    decreases |steps|
  {
    steps == [] || (Enabled(s, steps[0]) && LegalRun(Next(s, steps[0]), steps[1..]))
  }

  ghost function Run(s: State, steps: seq<Step>): (s': State)
    requires StateInv(s) && LegalRun(s, steps)
    ensures StateInv(s')
    decreases |steps|
  {
    if steps == [] then s else Run(Next(s, steps[0]), steps[1..])
  }

  /** A step that is not the end of a failed GET_CONFIG. */
  ghost predicate Plain(s: State, step: Step) {
    match step
    case BeginTransfer(_) => s.pending.None?
    case FinishTransfer(o) => s.pending.Some? && (IsConfigRead(s.pending.value.kind) ==> o.wait == 1)
    case _ => Enabled(s, step)
  }

  lemma PlainEnabled(s: State, step: Step)
    requires Plain(s, step)
    ensures Enabled(s, step)
  {
  }

  /** A run in which no GET_CONFIG fails. */
  ghost predicate PlainRun(s: State, steps: seq<Step>)
    requires StateInv(s)
    decreases |steps|
  {
    steps == [] || (Plain(s, steps[0]) && (PlainEnabled(s, steps[0]); PlainRun(Next(s, steps[0]), steps[1..])))
  }

  lemma {:induction false} PlainRunLegal(s: State, steps: seq<Step>)
    requires StateInv(s) && PlainRun(s, steps)
    ensures LegalRun(s, steps)
    decreases |steps|
  {
    hide StateInv, Next, Plain, Enabled;
    if steps != [] {
      PlainEnabled(s, steps[0]);
      PlainRunLegal(Next(s, steps[0]), steps[1..]);
    }
  }

  /** Safety: after every legal run from a fresh driver, every slot is terminated or links to a
      live queue head, however pipes and transfers overwrote each other's slots. */
  lemma FrameListAlwaysSafe(base: nat, steps: seq<Step>)
    requires StateInv(Fresh(base)) && LegalRun(Fresh(base), steps)
    ensures SlotsSafe(Run(Fresh(base), steps))
  {
    hide StateInv, SlotsSafe, LegalRun;
    InvSlotsSafe(Run(Fresh(base), steps));
  }

  lemma SafeUnlessConfigFails(base: nat, steps: seq<Step>)
    requires 0 < base && base + ALLOCATOR_SIZE < 0x1_0000_0000
    requires StateInv(Fresh(base)) ==> PlainRun(Fresh(base), steps)
    ensures StateInv(Fresh(base)) && LegalRun(Fresh(base), steps) && SlotsSafe(Run(Fresh(base), steps))
  {
    FreshInv(base);
    hide StateInv, SlotsSafe;
    PlainRunLegal(Fresh(base), steps);
    FrameListAlwaysSafe(base, steps);
  }

  /** A transfer runs to its end without interleaved pipe operations; then a failed GET_CONFIG
      always leaves a dangling slot. */
  lemma ConfigFailureDangles(s: State, cmd: Command, o: Outcome)
    requires StateInv(s) && s.pending.None? && IsConfigRead(cmd.kind) && o.wait != 1
    requires Begin(s, cmd).pending.Some?
    ensures StateInv(Begin(s, cmd)) && Dangles(Begin(s, cmd), o) && !SlotsSafe(Finish(Begin(s, cmd), o).0)
  {
    BeginKeepsInv(s, cmd);
    BeginLinks(s, cmd);
    var s1 := Begin(s, cmd);
    hide Begin, StateInv, SlotsSafe, Finish;
    assert Dangles(s1, o) by {
      assert s1.slots[s1.pending.value.frames[0]] == QhLink(s1.pending.value.qh);
    }
    FinishSafeExactly(s1, o);
  }

  /** On the fresh driver every transfer starts and every open succeeds. */
  lemma FreshStarts(base: nat, cmd: Command, r: OpenRequest)
    requires 0 < base && base + ALLOCATOR_SIZE < 0x1_0000_0000
    ensures StateInv(Fresh(base)) && Begin(Fresh(base), cmd).pending.Some? && Open(Fresh(base), r).1 == 0
  {
    hide StateInv, Begin, Open, AllTerminated;
    FreshInv(base);
    BeginGrants(Fresh(base), cmd);
    assert FreePipe(Fresh(base).pipes) == 0;
    OpenGrants(Fresh(base), r);
  }

  /** So the failure happens: a timed-out GET_CONFIG as the very first transfer leaves a slot that
      links to a freed queue head. */
  lemma ConfigFailureHappens(base: nat, cmd: Command)
    requires 0 < base && base + ALLOCATOR_SIZE < 0x1_0000_0000 && IsConfigRead(cmd.kind)
    ensures StateInv(Fresh(base)) && StateInv(Begin(Fresh(base), cmd)) && Begin(Fresh(base), cmd).pending.Some?
    ensures var o := Outcome(true, -1, 0);
      Dangles(Begin(Fresh(base), cmd), o) && !SlotsSafe(Finish(Begin(Fresh(base), cmd), o).0)
  {
    hide StateInv, Begin, Finish, SlotsSafe, AllTerminated, Dangles, Open;
    FreshStarts(base, cmd, OpenRequest(0, 0, 0, 0, 0));
    ConfigFailureDangles(Fresh(base), cmd, Outcome(true, -1, 0));
  }

  lemma BeginLinks(s: State, cmd: Command)
    requires StateInv(s) && s.pending.None? && Begin(s, cmd).pending.Some?
    ensures var s1 := Begin(s, cmd); var t := s1.pending.value;
      && t.kind == cmd.kind && |t.frames| > 0 && |s1.slots| == FRAMES
      && (forall i :: 0 <= i < |t.frames| ==> t.frames[i] < FRAMES && s1.slots[t.frames[i]] == QhLink(t.qh))
  {
    hide CoreInv, Shapes, AcquireChain, ChainObtained, OwnersOf, Complete, Built, Link;
    AcquiredChain(CoreOf(s), cmd);
    var (c, packet, ps) := AcquireChain(CoreOf(s), cmd);
    assert packet != NULL && Complete(packet, ps);
    ChainTransfer(CoreOf(s), c, cmd, packet, ps);
    ChainGrown(CoreOf(s), c, cmd, packet, ps);
    SlotsLength(c);
    var t := TransferFor(cmd, packet, ps);
    assert Begin(s, cmd) == StartedState(s, c, cmd, t);
    hide Begin;
    assert forall i :: 0 <= i < |t.frames| ==> t.frames[i] in t.frames;
  }
}
