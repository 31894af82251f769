/**
 A successful enumeration is one of the runs: address, device descriptor, short configuration,
 blob, full configuration, set configuration and the keyboard pipe, with everything the code
 allocates and frees on the way.
 */
module UhciEnumeration {
  import opened Heap
  import opened Resources
  import opened UhciModel
  import opened UhciPipes
  import opened UhciTransfers
  import opened UhciFinish
  import opened UhciBlobs
  import opened UhciRoom
  import opened UhciLeaks
  import opened UhciRuns
  import opened UhciOnBus

  /** The wait succeeded, and the status word read after it shows no stall. */
  const SUCCESS: Outcome := Outcome(true, 1, 0)

  /** The five commands the enumeration of one device issues, in order: SET_ADDRESS, GET_DEVICE, short
      and full GET_CONFIG, SET_CONFIGURATION. */
  datatype Commands = Commands(address: Command, device: Command, short: Command, full: Command, config: Command)

  /** The steps of uhci_enumerate_device for a boot keyboard, with its blob at `blob`. */
  function Enumeration(cs: Commands, size: nat, blob: nat, data: seq<bv8>, r: OpenRequest): seq<Step> {
    Transferred(cs.address, Transferred(cs.device, Transferred(cs.short,
      [BorrowBlob(size)] + Transferred(cs.full,
        [FillBlob(blob, data)] + ([ReturnBlob(blob)] + Transferred(cs.config, [OpenPipe(r)]))))))
  }

  function Transferred(cmd: Command, rest: seq<Step>): seq<Step> {
    [BeginTransfer(cmd)] + ([FinishTransfer(SUCCESS)] + rest)
  }

  // ---- Runs, step by step ----

  /** The steps can be taken one after the other, and lead to `s'`. */
  ghost predicate Leads(s: State, steps: seq<Step>, s': State)
    requires StateInv(s)
  {
    PlainRun(s, steps) && LegalRun(s, steps) && Run(s, steps) == s'
  }

  lemma LeadsNowhere(s: State)
    requires StateInv(s)
    ensures Leads(s, [], s)
  {
    hide StateInv;
  }

  lemma LeadsStep(s: State, step: Step, rest: seq<Step>, s': State)
    requires StateInv(s) && Plain(s, step) && Enabled(s, step) && Leads(Next(s, step), rest, s')
    ensures Leads(s, [step] + rest, s')
  {
    hide StateInv, Plain, Enabled, Next;
    assert ([step] + rest)[0] == step && ([step] + rest)[1..] == rest;
  }

  /** Between transfers, with at most `used` bytes of the buffer taken. */
  ghost predicate Ready(s: State, used: nat) {
    StateInv(s) && s.pending.None? && s.heap.offset <= used
  }

  /** The state after a successful transfer. */
  ghost function After(s: State, cmd: Command): State
    requires StateInv(s) && s.pending.None?
  {
    BeginKeepsInv(s, cmd);
    if Begin(s, cmd).pending.Some? then Finish(Begin(s, cmd), SUCCESS).0 else Begin(s, cmd)
  }

  lemma NotDangling(s: State)
    requires s.pending.Some?
    ensures !Dangles(s, SUCCESS)
  {
  }

  /** A successful transfer, when there is room, is two steps, gives back what it needs to and leaves
      older objects, pipes and logs alone. */
  lemma TransferLeads(s: State, cmd: Command, used: nat)
    requires Ready(s, used) && used + TRANSFER_ROOM <= ALLOCATOR_SIZE
    ensures Ready(After(s, cmd), used + TRANSFER_ROOM) && After(s, cmd).pipes == s.pipes
    ensures forall q :: q in s.mem ==> q in After(s, cmd).mem && After(s, cmd).mem[q] == s.mem[q]
    ensures forall rest, s' :: Leads(After(s, cmd), rest, s') ==> Leads(s, Transferred(cmd, rest), s')
  {
    hide StateInv, Begin, Finish, Leads, Dangles, Elements, Leaked;
    BeginGrants(s, cmd);
    BeginKeepsInv(s, cmd);
    var s1 := Begin(s, cmd);
    NotDangling(s1);
    FinishKeepsInv(s1, SUCCESS);
    FinishOffset(s1, SUCCESS);
    BeginFields(s, cmd);
    TransferLeavesExactly(s, cmd, SUCCESS);
    hide Next;
    TransferNexts(s, cmd);
    forall rest, s' | Leads(After(s, cmd), rest, s') ensures Leads(s, Transferred(cmd, rest), s') {
      LeadsStep(s1, FinishTransfer(SUCCESS), rest, s');
      LeadsStep(s, BeginTransfer(cmd), [FinishTransfer(SUCCESS)] + rest, s');
    }
  }

  lemma TransferNexts(s: State, cmd: Command)
    requires StateInv(s) && s.pending.None? && StateInv(Begin(s, cmd)) && Begin(s, cmd).pending.Some?
    ensures Plain(s, BeginTransfer(cmd)) && Enabled(s, BeginTransfer(cmd))
    ensures Next(s, BeginTransfer(cmd)) == Begin(s, cmd)
    ensures var s1 := Begin(s, cmd); var step := FinishTransfer(SUCCESS);
      Plain(s1, step) && Enabled(s1, step) && Next(s1, step) == After(s, cmd)
  {
    hide StateInv, Begin, Finish, Open, Close, StageState, Borrow, Return, Fill, AllTerminated;
    BeginKeepsInv(s, cmd);
    NotDangling(Begin(s, cmd));
  }

  // ---- The blob ----

  lemma BorrowLeads(s: State, size: nat, used: nat)
    requires Ready(s, used) && size < MAX_BLOB && used + OVERHEAD + size <= ALLOCATOR_SIZE
    ensures Keyed(s.heap) && Borrow(s, size).1 != NULL && Loose(Borrow(s, size).0, Borrow(s, size).1)
    ensures Ready(Borrow(s, size).0, used + OVERHEAD + size) && Borrow(s, size).0.pipes == s.pipes
    ensures forall rest, s' :: Leads(Borrow(s, size).0, rest, s') ==> Leads(s, [BorrowBlob(size)] + rest, s')
  {
    hide StateInv, Borrow, Loose, Leads;
    BorrowKeepsInv(s, size);
    BorrowGrants(s, size);
    BlobNexts(s, BorrowBlob(size));
    hide Next;
    forall rest, s' | Leads(Borrow(s, size).0, rest, s') ensures Leads(s, [BorrowBlob(size)] + rest, s') {
      LeadsStep(s, BorrowBlob(size), rest, s');
    }
  }

  lemma BlobNexts(s: State, step: Step)
    requires StateInv(s) && Enabled(s, step) && (step.BorrowBlob? || step.FillBlob? || step.ReturnBlob?)
    ensures Plain(s, step)
    ensures step.BorrowBlob? ==> Keyed(s.heap) && Next(s, step) == Borrow(s, step.size).0
    ensures step.FillBlob? ==> Next(s, step) == Fill(s, step.blob, step.data)
    ensures step.ReturnBlob? ==> (step.blob == NULL || step.blob > HEADER) && Next(s, step) == Return(s, step.blob)
  {
    hide StateInv, Begin, Finish, Open, Close, StageState, Borrow, Return, Fill, AllTerminated, Loose;
    match step {
      case BorrowBlob(size) => BorrowKeepsInv(s, size);
      case FillBlob(p, data) => FillKeepsInv(s, p, data);
      case ReturnBlob(p) => ReturnKeepsInv(s, p);
    }
  }

  /** A blob is still one after a transfer. */
  lemma LooseAfter(s: State, s': State, p: nat)
    requires Loose(s, p) && p in s'.mem && s'.mem[p] == s.mem[p] && s'.pipes == s.pipes && s'.pending == s.pending
    ensures Loose(s', p)
  {
    hide Unowned;
    OwnersFrame(s, s');
  }

  /** Fill and free the blob. */
  ghost function Parsed(s: State, p: nat, data: seq<bv8>): State
    requires StateInv(s) && Loose(s, p)
  {
    FillKeepsInv(s, p, data);
    LooseFilled(s, p, data);
    ReturnKeepsInv(Fill(s, p, data), p);
    Return(Fill(s, p, data), p)
  }

  lemma LooseFilled(s: State, p: nat, data: seq<bv8>)
    requires Loose(s, p)
    ensures Loose(Fill(s, p, data), p)
  {
    hide Unowned;
    OwnersFrame(s, Fill(s, p, data));
  }

  lemma ParsedLeads(s: State, p: nat, data: seq<bv8>, used: nat)
    requires Ready(s, used) && Loose(s, p)
    ensures Ready(Parsed(s, p, data), used) && Parsed(s, p, data).pipes == s.pipes
    ensures forall rest, s' :: Leads(Parsed(s, p, data), rest, s') ==>
      Leads(s, [FillBlob(p, data)] + ([ReturnBlob(p)] + rest), s')
  {
    hide StateInv, Loose, Leads;
    FillKeepsInv(s, p, data);
    LooseFilled(s, p, data);
    var s1 := Fill(s, p, data);
    ReturnKeepsInv(s1, p);
    BlobNexts(s, FillBlob(p, data));
    BlobNexts(s1, ReturnBlob(p));
    hide Next;
    forall rest, s' | Leads(Parsed(s, p, data), rest, s')
      ensures Leads(s, [FillBlob(p, data)] + ([ReturnBlob(p)] + rest), s')
    {
      LeadsStep(s1, ReturnBlob(p), rest, s');
      LeadsStep(s, FillBlob(p, data), [ReturnBlob(p)] + rest, s');
    }
  }

  // ---- The pipe ----

  lemma OpenLeads(s: State, r: OpenRequest, used: nat)
    requires Ready(s, used) && used + PIPE_ROOM <= ALLOCATOR_SIZE && FreePipe(s.pipes) < |s.pipes|
    ensures Open(s, r).1 == FreePipe(s.pipes) && Leads(s, [OpenPipe(r)], Open(s, r).0)
  {
    hide StateInv, Open, FreePipe, Leads;
    OpenGrants(s, r);
    OpenKeepsInv(s, r);
    OpenNext(s, r);
    LeadsNowhere(Open(s, r).0);
    hide Next;
    LeadsStep(s, OpenPipe(r), [], Open(s, r).0);
    assert [OpenPipe(r)] + [] == [OpenPipe(r)];
  }

  lemma OpenNext(s: State, r: OpenRequest)
    requires StateInv(s)
    ensures Plain(s, OpenPipe(r)) && Enabled(s, OpenPipe(r)) && Next(s, OpenPipe(r)) == Open(s, r).0
  {
    hide StateInv, Begin, Finish, Open, Close, StageState, Borrow, Return, Fill, AllTerminated;
  }

  // ---- The whole enumeration ----

  lemma FirstThree(s: State, cs: Commands, used: nat) returns (s3: State)
    requires Ready(s, used) && used + 3 * TRANSFER_ROOM <= ALLOCATOR_SIZE
    ensures Ready(s3, used + 3 * TRANSFER_ROOM) && s3.pipes == s.pipes
    ensures forall rest, s' :: Leads(s3, rest, s') ==>
      Leads(s, Transferred(cs.address, Transferred(cs.device, Transferred(cs.short, rest))), s')
  {
    hide StateInv, After, Leads, Transferred;
    TransferLeads(s, cs.address, used);
    var s1 := After(s, cs.address);
    TransferLeads(s1, cs.device, used + TRANSFER_ROOM);
    var s2 := After(s1, cs.device);
    TransferLeads(s2, cs.short, used + 2 * TRANSFER_ROOM);
    s3 := After(s2, cs.short);
  }

  lemma Blob(s: State, cs: Commands, size: nat, data: seq<bv8>, used: nat) returns (p: nat, s': State)
    requires Ready(s, used) && size < MAX_BLOB && used + OVERHEAD + size + TRANSFER_ROOM <= ALLOCATOR_SIZE
    ensures Ready(s', used + OVERHEAD + size + TRANSFER_ROOM) && s'.pipes == s.pipes
    ensures forall rest, t :: Leads(s', rest, t) ==>
      Leads(s, [BorrowBlob(size)] + Transferred(cs.full, [FillBlob(p, data)] + ([ReturnBlob(p)] + rest)), t)
  {
    hide StateInv, After, Leads, Transferred, Borrow, Loose, Parsed;
    BorrowLeads(s, size, used);
    var s1: State;
    s1, p := Borrow(s, size).0, Borrow(s, size).1;
    TransferLeads(s1, cs.full, used + OVERHEAD + size);
    var s2 := After(s1, cs.full);
    LooseAfterTransfer(s1, s2, p);
    ParsedLeads(s2, p, data, used + OVERHEAD + size + TRANSFER_ROOM);
    s' := Parsed(s2, p, data);
  }

  lemma LooseAfterTransfer(s: State, s': State, p: nat)
    requires Loose(s, p) && s'.pipes == s.pipes && s'.pending.None? && s.pending.None?
    requires forall q :: q in s.mem ==> q in s'.mem && s'.mem[q] == s.mem[q]
    ensures Loose(s', p)
  {
    hide Unowned, OwnersOf;
    LooseAfter(s, s', p);
  }

  /** From every good state between transfers with a free table entry and enough room, and for every
      device and blob, there is a blob address with which the enumeration is a run: no step of it
      fails, no GET_CONFIG fails, and the keyboard pipe is open at the end. */
  lemma EnumerationIsRun(s: State, cs: Commands, size: nat, data: seq<bv8>, r: OpenRequest) returns (p: nat)
    requires StateInv(s) && s.pending.None? && FreePipe(s.pipes) < |s.pipes|
    requires size < MAX_BLOB
    requires s.heap.offset + OVERHEAD + size + 5 * TRANSFER_ROOM + PIPE_ROOM <= ALLOCATOR_SIZE
    ensures PlainRun(s, Enumeration(cs, size, p, data, r)) && LegalRun(s, Enumeration(cs, size, p, data, r))
    ensures var s' := Run(s, Enumeration(cs, size, p, data, r)); var id := FreePipe(s.pipes);
      && id < |s'.pipes| && s'.pipes[id].inUse && s'.pending.None? && SlotsSafe(s')
      && (r.devAddr < 0x80 ==> Polls(s', id, r.devAddr, r.endpoint & 0x0F))
  {
    hide StateInv, After, Leads, Transferred, FreePipe, Open, SlotsSafe, Polls;
    var used := s.heap.offset;
    var s3 := FirstThree(s, cs, used);
    var s6;
    p, s6 := Blob(s3, cs, size, data, used + 3 * TRANSFER_ROOM);
    TransferLeads(s6, cs.config, used + OVERHEAD + size + 4 * TRANSFER_ROOM);
    var s7 := After(s6, cs.config);
    OpenLeads(s7, r, used + OVERHEAD + size + 5 * TRANSFER_ROOM);
    OpenGrants(s7, r);
    OpenKeepsInv(s7, r);
    StateCounts(Open(s7, r).0);
    InvSlotsSafe(Open(s7, r).0);
    if r.devAddr < 0x80 { OpenedPolls(s7, r); }
    assert Leads(s, Enumeration(cs, size, p, data, r), Open(s7, r).0);
    LeadsIsRun(s, Enumeration(cs, size, p, data, r), Open(s7, r).0);
  }

  lemma LeadsIsRun(s: State, steps: seq<Step>, s': State)
    requires StateInv(s) && Leads(s, steps, s')
    ensures PlainRun(s, steps) && LegalRun(s, steps) && Run(s, steps) == s'
  {
    hide StateInv, PlainRun, LegalRun, Run;
  }
}
