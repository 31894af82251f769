/**
 The five control transfers as the driver writes them out: allocate, fill the descriptors field by
 field, link the queue head, wait, look at the outcome, unlink and free. Each is proved to be the
 step Begin of the state machine followed by the step Finish.
 */
module UhciControl {
  import opened Heap
  import opened UhciWords
  import R = Resources
  import opened FrameList
  import opened UhciModel
  import P = UhciPipes
  import T = UhciTransfers
  import F = UhciFinish
  import D = UhciDriver

  // ---- The allocations, one after the other ----

  lemma ObtainAllStep(c: R.Core, want: R.Want, rest: seq<R.Want>)
    requires R.CoreInv(c) && forall i :: 0 <= i < |[want] + rest| ==> ([want] + rest)[i].size <= ALLOCATOR_SIZE
    ensures want.size <= ALLOCATOR_SIZE && (forall i :: 0 <= i < |rest| ==> rest[i].size <= ALLOCATOR_SIZE)
    ensures Keyed(c.heap) && R.CoreInv(R.Obtain(c, want.size, want.obj).0)
    ensures var (c1, p) := R.Obtain(c, want.size, want.obj);
      R.ObtainAll(c, [want] + rest) == (R.ObtainAll(c1, rest).0, [p] + R.ObtainAll(c1, rest).1)
  {
    hide R.CoreInv, R.Obtain;
    var wants := [want] + rest;
    assert wants[0] == want && wants[1..] == rest;
    assert forall i :: 0 <= i < |rest| ==> rest[i] == wants[i + 1];
    R.ObtainKeepsInv(c, want.size, want.obj);
  }

  /** The setup packet. */
  lemma AcquirePacket(c0: R.Core, cmd: T.Command)
    requires R.CoreInv(c0)
    ensures Keyed(c0.heap)
    ensures var (c1, sp) := R.Obtain(c0, T.PACKET_SIZE, R.Bytes(T.SetupBytes(cmd)));
      && R.CoreInv(c1)
      && (sp == NULL ==> T.AcquireChain(c0, cmd) == (c1, NULL, []))
      && SmallChain(cmd.kind)
      && (sp != NULL ==>
            var (c, ps) := R.ObtainAll(c1, T.ChainWants(cmd.kind));
            T.AcquireChain(c0, cmd) == (c, sp, ps))
  {
    hide R.CoreInv, R.Obtain, T.SetupBytes, T.ChainWants, R.FreshIn;
    T.SmallWants(cmd.kind);
    var want := R.Want(T.PACKET_SIZE, R.Bytes(T.SetupBytes(cmd)));
    assert T.PacketWants(cmd) == [want] + [];
    ObtainAllStep(c0, want, []);
    var (c1, sp) := R.Obtain(c0, T.PACKET_SIZE, want.obj);
    assert R.ObtainAll(c1, []) == (c1, []);
    assert [sp] + [] == [sp];
    hide R.ObtainAll;
    assert R.ObtainAll(c0, T.PacketWants(cmd)) == (c1, [sp]);
  }

  ghost predicate SmallChain(kind: Kind) {
    forall i :: 0 <= i < |T.ChainWants(kind)| ==> T.ChainWants(kind)[i].size <= ALLOCATOR_SIZE
  }

  /** Descriptors and queue head of a transfer without data, from the core after its packet. */
  ghost predicate TwoStages(c1: R.Core, c4: R.Core, setup: nat, status: nat, qh: nat) {
    && Keyed(c1.heap) && setup == R.Obtain(c1, P.TD_SIZE, P.TD_WANT.obj).1
    && var c2 := R.Obtain(c1, P.TD_SIZE, P.TD_WANT.obj).0;
    && Keyed(c2.heap) && status == R.Obtain(c2, P.TD_SIZE, P.TD_WANT.obj).1
    && var c3 := R.Obtain(c2, P.TD_SIZE, P.TD_WANT.obj).0;
    && Keyed(c3.heap) && qh == R.Obtain(c3, P.QH_SIZE, P.QH_WANT.obj).1
    && c4 == R.Obtain(c3, P.QH_SIZE, P.QH_WANT.obj).0
  }

  lemma NothingMore(c: R.Core)
    requires R.CoreInv(c)
    ensures R.ObtainAll(c, []) == (c, [])
  {
    hide R.CoreInv;
  }

  ghost predicate SmallList(wants: seq<R.Want>) {
    forall i :: 0 <= i < |wants| ==> wants[i].size <= ALLOCATOR_SIZE
  }

  const TWO_STAGES: seq<R.Want> := [P.TD_WANT, P.TD_WANT, P.QH_WANT]

  lemma TwoSmall()
    ensures SmallList(TWO_STAGES)
  {
  }

  lemma ObtainTwoStages(c1: R.Core, c4: R.Core, setup: nat, status: nat, qh: nat)
    requires R.CoreInv(c1) && TwoStages(c1, c4, setup, status, qh) && SmallList(TWO_STAGES)
    ensures R.ObtainAll(c1, TWO_STAGES) == (c4, [setup, status, qh])
  {
    hide R.CoreInv, R.Obtain, R.ObtainAll;
    assert [P.TD_WANT, P.TD_WANT, P.QH_WANT] == [P.TD_WANT] + [P.TD_WANT, P.QH_WANT];
    assert [P.TD_WANT, P.QH_WANT] == [P.TD_WANT] + [P.QH_WANT] && [P.QH_WANT] == [P.QH_WANT] + [];
    ObtainAllStep(c1, P.TD_WANT, [P.TD_WANT, P.QH_WANT]);
    var c2 := R.Obtain(c1, P.TD_SIZE, P.TD_WANT.obj).0;
    ObtainAllStep(c2, P.TD_WANT, [P.QH_WANT]);
    var c3 := R.Obtain(c2, P.TD_SIZE, P.TD_WANT.obj).0;
    ObtainAllStep(c3, P.QH_WANT, []);
    NothingMore(c4);
    assert [setup] + ([status] + ([qh] + [])) == [setup, status, qh];
  }

  ghost predicate ThreeStages(c1: R.Core, c5: R.Core, setup: nat, data: nat, status: nat, qh: nat) {
    && Keyed(c1.heap) && setup == R.Obtain(c1, P.TD_SIZE, P.TD_WANT.obj).1
    && TwoStages(R.Obtain(c1, P.TD_SIZE, P.TD_WANT.obj).0, c5, data, status, qh)
  }

  lemma ThreeSmall()
    ensures SmallList([P.TD_WANT] + TWO_STAGES)
  {
  }

  lemma ObtainThreeStages(c1: R.Core, c5: R.Core, setup: nat, data: nat, status: nat, qh: nat)
    requires R.CoreInv(c1) && ThreeStages(c1, c5, setup, data, status, qh) && SmallList([P.TD_WANT] + TWO_STAGES)
    ensures R.ObtainAll(c1, [P.TD_WANT] + TWO_STAGES) == (c5, [setup, data, status, qh])
  {
    hide R.CoreInv, R.Obtain, R.ObtainAll, TwoStages, TWO_STAGES;
    TwoSmall();
    ObtainAllStep(c1, P.TD_WANT, TWO_STAGES);
    ObtainTwoStages(R.Obtain(c1, P.TD_SIZE, P.TD_WANT.obj).0, c5, data, status, qh);
    assert [setup] + [data, status, qh] == [setup, data, status, qh];
  }

  /** All allocations of a transfer without data. */
  lemma AcquireTwo(c0: R.Core, cmd: T.Command, c1: R.Core, sp: nat, c4: R.Core, setup: nat, status: nat, qh: nat)
    requires R.CoreInv(c0) && !T.HasData(cmd.kind) && Keyed(c0.heap)
    requires R.Obtain(c0, T.PACKET_SIZE, R.Bytes(T.SetupBytes(cmd))) == (c1, sp) && sp != NULL
    requires TwoStages(c1, c4, setup, status, qh)
    ensures T.AcquireChain(c0, cmd) == (c4, sp, [setup, status, qh])
  {
    hide R.CoreInv, R.Obtain, R.ObtainAll, T.AcquireChain, T.SetupBytes, TwoStages;
    AcquirePacket(c0, cmd);
    TwoSmall();
    ObtainTwoStages(c1, c4, setup, status, qh);
    assert T.ChainWants(cmd.kind) == TWO_STAGES;
  }

  /** All allocations of a transfer with data. */
  lemma AcquireThree(c0: R.Core, cmd: T.Command, c1: R.Core, sp: nat, c5: R.Core,
                     setup: nat, data: nat, status: nat, qh: nat)
    requires R.CoreInv(c0) && T.HasData(cmd.kind) && Keyed(c0.heap)
    requires R.Obtain(c0, T.PACKET_SIZE, R.Bytes(T.SetupBytes(cmd))) == (c1, sp) && sp != NULL
    requires ThreeStages(c1, c5, setup, data, status, qh)
    ensures T.AcquireChain(c0, cmd) == (c5, sp, [setup, data, status, qh])
  {
    hide R.CoreInv, R.Obtain, R.ObtainAll, T.AcquireChain, T.SetupBytes, ThreeStages;
    AcquirePacket(c0, cmd);
    ThreeSmall();
    ObtainThreeStages(c1, c5, setup, data, status, qh);
    assert T.ChainWants(cmd.kind) == [P.TD_WANT] + TWO_STAGES;
  }

  // ---- The start ----

  /** The transfer whose blocks were obtained. */
  function TwoStageTransfer(cmd: T.Command, sp: nat, setup: nat, status: nat, qh: nat): Transfer {
    Transfer(cmd.kind, sp, [setup, status], qh, T.FramesFor(cmd.kind, cmd.frame))
  }

  function ThreeStageTransfer(cmd: T.Command, sp: nat, setup: nat, data: nat, status: nat, qh: nat): Transfer {
    Transfer(cmd.kind, sp, [setup, data, status], qh, T.FramesFor(cmd.kind, cmd.frame))
  }

  lemma TransferForTwo(cmd: T.Command, sp: nat, setup: nat, status: nat, qh: nat)
    ensures T.TransferFor(cmd, sp, [setup, status, qh]) == TwoStageTransfer(cmd, sp, setup, status, qh)
  {
  }

  lemma TransferForThree(cmd: T.Command, sp: nat, setup: nat, data: nat, status: nat, qh: nat)
    ensures T.TransferFor(cmd, sp, [setup, data, status, qh]) == ThreeStageTransfer(cmd, sp, setup, data, status, qh)
  {
  }

  /** What Begin does once the blocks are known: `ps` are descriptors and queue head. */
  lemma BeginFrom(s: State, cmd: T.Command, c: R.Core, sp: nat, ps: seq<nat>)
    requires StateInv(s) && s.pending.None? && T.AcquireChain(CoreOf(s), cmd) == (c, sp, ps) && sp != NULL
    ensures c.slots == s.slots && |s.slots| == FRAMES && |ps| == (if T.HasData(cmd.kind) then 4 else 3)
    ensures NULL in ps ==> T.Begin(s, cmd) == WithCore(s, c)
    ensures NULL !in ps ==> var t := T.TransferFor(cmd, sp, ps);
      && NoDuplicates(ps) && (forall i :: 0 <= i < |t.frames| ==> t.frames[i] < FRAMES)
      && T.Begin(s, cmd) == T.StartedState(s, c, cmd, t)
  {
    hide R.CoreInv, StateInv, T.AcquireChain, OwnersOf, T.Begin, T.StartedState, T.ChainObtained, T.ChainWants;
    D.BeginCases(s, cmd);
    T.AcquiredChain(CoreOf(s), cmd);
    ChainLength(CoreOf(s), c, cmd, sp, ps);
    if NULL !in ps {
      assert T.Complete(sp, ps);
    }
  }

  lemma ChainLength(c0: R.Core, c: R.Core, cmd: T.Command, sp: nat, ps: seq<nat>)
    requires T.ChainObtained(c0, c, cmd, sp, ps) && sp != NULL
    ensures |ps| == (if T.HasData(cmd.kind) then 4 else 3)
    ensures NULL !in ps ==> NoDuplicates(ps)
  {
    hide P.Grown, P.NewObject;
  }

  /** Filling the fields of distinct descriptors, in any order, builds the chain. */
  lemma BuiltTwo(mem: map<nat, R.Object>, cmd: T.Command, sp: nat, setup: nat, status: nat, qh: nat)
    requires !T.HasData(cmd.kind) && setup != status && setup != qh && status != qh
    ensures T.Built(mem, cmd, TwoStageTransfer(cmd, sp, setup, status, qh)) ==
      mem[setup := R.TdObject(T.SetupTd(cmd, status, sp))][status := R.TdObject(T.StatusTd(cmd))]
         [qh := R.QhObject(R.Qh(UhciWords.TERMINATE, setup))]
  {
    hide T.SetupTd, T.StatusTd;
  }

  lemma BuiltThree(mem: map<nat, R.Object>, cmd: T.Command, sp: nat, setup: nat, data: nat, status: nat, qh: nat)
    requires T.HasData(cmd.kind) && NoDuplicates([setup, data, status, qh])
    ensures T.Built(mem, cmd, ThreeStageTransfer(cmd, sp, setup, data, status, qh)) ==
      mem[setup := R.TdObject(T.SetupTd(cmd, data, sp))][data := R.TdObject(T.DataTd(cmd, status))]
         [status := R.TdObject(T.StatusTd(cmd))][qh := R.QhObject(R.Qh(UhciWords.TERMINATE, setup))]
  {
    hide T.SetupTd, T.DataTd, T.StatusTd;
    var ps := [setup, data, status, qh];
    assert ps[0] != ps[1] && ps[0] != ps[2] && ps[0] != ps[3] && ps[1] != ps[2] && ps[1] != ps[3] && ps[2] != ps[3];
  }

  lemma WriteTwo(slots: seq<nat>, a: nat, b: nat, word: nat)
    requires |slots| == FRAMES && a < FRAMES && b < FRAMES
    ensures T.WriteSlots(slots, [a, b], word) == slots[a := word][b := word]
  {
  }

  lemma WriteOne(slots: seq<nat>, a: nat, word: nat)
    requires |slots| == FRAMES && a < FRAMES
    ensures T.WriteSlots(slots, [a], word) == slots[a := word]
  {
  }

  // ---- Steps shared by the functions ----

  /** allocate_td: a zeroed descriptor. */
  method AllocateTd(d: D.Driver, ghost c: R.Core) returns (td: nat)
    requires d.Valid() && d.Matches(c) && R.CoreInv(c)
    modifies d`mem, d.heap
    ensures d.Valid() && Keyed(c.heap) && td == R.Obtain(c, P.TD_SIZE, P.TD_WANT.obj).1
    ensures d.Matches(R.Obtain(c, P.TD_SIZE, P.TD_WANT.obj).0) && R.CoreInv(R.Obtain(c, P.TD_SIZE, P.TD_WANT.obj).0)
  {
    hide R.CoreInv, R.Obtain;
    R.ObtainKeepsInv(c, P.TD_SIZE, P.TD_WANT.obj);
    td := d.Obtain(16, R.TdObject(R.Td(0, 0, 0, 0)), c);
  }

  /** allocate_qh: a zeroed queue head. */
  method AllocateQh(d: D.Driver, ghost c: R.Core) returns (qh: nat)
    requires d.Valid() && d.Matches(c) && R.CoreInv(c)
    modifies d`mem, d.heap
    ensures d.Valid() && Keyed(c.heap) && qh == R.Obtain(c, P.QH_SIZE, P.QH_WANT.obj).1
    ensures d.Matches(R.Obtain(c, P.QH_SIZE, P.QH_WANT.obj).0) && R.CoreInv(R.Obtain(c, P.QH_SIZE, P.QH_WANT.obj).0)
  {
    hide R.CoreInv, R.Obtain;
    R.ObtainKeepsInv(c, P.QH_SIZE, P.QH_WANT.obj);
    qh := d.Obtain(16, R.QhObject(R.Qh(0, 0)), c);
  }

  /** allocate_setup_packet, and the packet filled in. */
  method AllocateSetupPacket(d: D.Driver, bytes: seq<bv8>, ghost c: R.Core) returns (sp: nat)
    requires d.Valid() && d.Matches(c) && R.CoreInv(c)
    modifies d`mem, d.heap
    ensures d.Valid() && Keyed(c.heap) && sp == R.Obtain(c, T.PACKET_SIZE, R.Bytes(bytes)).1
    ensures d.Matches(R.Obtain(c, T.PACKET_SIZE, R.Bytes(bytes)).0)
    ensures R.CoreInv(R.Obtain(c, T.PACKET_SIZE, R.Bytes(bytes)).0)
  {
    hide R.CoreInv, R.Obtain;
    R.ObtainKeepsInv(c, T.PACKET_SIZE, R.Bytes(bytes));
    sp := d.Obtain(8, R.Bytes(bytes), c);
  }

  /** The four field writes of a descriptor, and the two of a queue head. */
  method WriteTd(d: D.Driver, td: nat, link: nat, status: bv32, token: bv32, buffer: nat)
    modifies d`mem
    ensures d.mem == old(d.mem)[td := R.TdObject(R.Td(link, status, token, buffer))]
  {
    d.mem := d.mem[td := R.TdObject(R.Td(link, status, token, buffer))];
  }

  method WriteQh(d: D.Driver, qh: nat, horizontal: nat, vertical: nat)
    modifies d`mem
    ensures d.mem == old(d.mem)[qh := R.QhObject(R.Qh(horizontal, vertical))]
  {
    d.mem := d.mem[qh := R.QhObject(R.Qh(horizontal, vertical))];
  }

  /** The transfer was carried out: its allocations failed, or it ended with this outcome. */
  ghost predicate Performs(s: State, cmd: T.Command, o: F.Outcome, s': State, r: int)
    requires StateInv(s) && s.pending.None? && StateInv(T.Begin(s, cmd))
  {
    var s1 := T.Begin(s, cmd);
    if s1.pending.None? then s' == s1 && r == 0 else (s', r) == F.Finish(s1, o)
  }

  /** The state with its transfer in progress; the driver has no field for it. */
  ghost predicate Started(d: D.Driver, s: State, cmd: T.Command, t: Transfer)
    requires StateInv(s) && s.pending.None?
    reads d, d.heap, d.frames, d.pipes
  {
    d.View().(pending := Some(t)) == T.Begin(s, cmd)
  }

  lemma StartedFields(s: State, c: R.Core, cmd: T.Command, t: Transfer, s': State)
    requires |t.stages| == (if T.HasData(cmd.kind) then 3 else 2) && |c.slots| == FRAMES
    requires forall i :: 0 <= i < |t.frames| ==> t.frames[i] < FRAMES
    requires s'.heap == c.heap && s'.slots == T.WriteSlots(c.slots, t.frames, QhLink(t.qh))
    requires s'.mem == T.Built(c.mem, cmd, t) && s'.pipes == s.pipes && s'.delivered == s.delivered
    ensures s'.(pending := Some(t)) == T.StartedState(s, c, cmd, t)
  {
    hide T.WriteSlots, T.Built;
  }

  // ---- The start of a transfer ----

  /** Write a word to a frame slot and the next. */
  method LinkTwo(d: D.Driver, fr: nat, word: nat)
    requires d.Valid()
    modifies d.frames
    ensures d.Valid() && d.frames[..] == T.WriteSlots(old(d.frames[..]), [fr % 1024, (fr + 1) % 1024], word)
  {
    hide T.WriteSlots;
    WriteTwo(d.frames[..], fr % 1024, (fr + 1) % 1024, word);
    d.frames[fr % 1024] := word;
    d.frames[(fr + 1) % 1024] := word;
  }

  /** Write a word to one frame slot. */
  method LinkOne(d: D.Driver, fr: nat, word: nat)
    requires d.Valid()
    modifies d.frames
    ensures d.Valid() && d.frames[..] == T.WriteSlots(old(d.frames[..]), [fr % 1024], word)
  {
    hide T.WriteSlots;
    WriteOne(d.frames[..], fr % 1024, word);
    d.frames[fr % 1024] := word;
  }

  lemma ThreeDistinct(a: nat, b: nat, c: nat)
    requires NoDuplicates([a, b, c])
    ensures a != b && a != c && b != c
  {
    var s := [a, b, c];
    assert s[0] != s[1] && s[0] != s[2] && s[1] != s[2];
  }

  lemma StateCore(s: State)
    requires StateInv(s)
    ensures R.CoreInv(CoreOf(s)) && CoreOf(s).heap == s.heap && CoreOf(s).slots == s.slots && CoreOf(s).mem == s.mem
  {
    hide R.CoreInv, OwnersOf;
  }

  lemma BeginNoPacket(s: State, cmd: T.Command, c: R.Core)
    requires StateInv(s) && s.pending.None? && T.AcquireChain(CoreOf(s), cmd) == (c, NULL, [])
    ensures T.Begin(s, cmd) == WithCore(s, c) && c.slots == s.slots
  {
    hide R.CoreInv, StateInv, T.AcquireChain, OwnersOf, T.Begin;
    D.BeginCases(s, cmd);
  }

  /** The bytes, tokens and frames written are those of the command. */
  ghost predicate Encodes(cmd: T.Command, bytes: seq<bv8>, setup: bv32, status: bv32, frames: seq<nat>) {
    && bytes == T.SetupBytes(cmd) && setup == ControlToken(PID_SETUP, cmd.addr, 0, 7)
    && status == T.StatusTd(cmd).token && frames == T.FramesFor(cmd.kind, cmd.frame)
  }

  lemma EncodedTds(cmd: T.Command, bytes: seq<bv8>, setup: bv32, status: bv32, frames: seq<nat>, next: nat, sp: nat)
    requires Encodes(cmd, bytes, setup, status, frames)
    ensures T.SetupTd(cmd, next, sp) == R.Td(Link(next, 4), 0x80_0000, setup, sp)
    ensures T.StatusTd(cmd) == R.Td(1, 0x80_0000, status, 0)
  {
    hide ControlToken, Link, T.SetupBytes;
  }

  /** The start of SET_ADDRESS and SET_CONFIGURATION: packet, two descriptors, queue head, two frames. */
  method StartTwo(d: D.Driver, bytes: seq<bv8>, setupToken: bv32, statusToken: bv32, fr: nat, ghost cmd: T.Command)
    returns (ok: bool, sp: nat, setup: nat, status: nat, qh: nat)
    requires d.Valid() && StateInv(d.View()) && d.pending.None? && !T.HasData(cmd.kind)
    requires Encodes(cmd, bytes, setupToken, statusToken, [fr % 1024, (fr + 1) % 1024])
    modifies d`mem, d.heap, d.frames
    ensures d.Valid() && d.pending.None?
    ensures !ok ==> d.View() == T.Begin(old(d.View()), cmd)
    ensures ok ==> Started(d, old(d.View()), cmd, TwoStageTransfer(cmd, sp, setup, status, qh))
  {
    hide StateInv, R.CoreInv, R.Obtain, T.AcquireChain, T.Begin, T.HasData, T.SetupTd, T.StatusTd, T.SetupBytes;
    hide T.FramesFor, T.Built, T.WriteSlots, OwnersOf, NoDuplicates, Link, T.StartedState, T.TransferFor, ControlToken;
    ghost var s := d.View();
    ghost var c0 := CoreOf(s);
    StateCore(s);
    AcquirePacket(c0, cmd);
    ok, setup, status, qh := false, NULL, NULL, NULL;
    sp := AllocateSetupPacket(d, bytes, c0);
    ghost var c1 := R.Obtain(c0, T.PACKET_SIZE, R.Bytes(bytes)).0;
    if sp == NULL {
      BeginNoPacket(s, cmd, c1);
      return;
    }
    setup := AllocateTd(d, c1);
    ghost var c2 := R.Obtain(c1, P.TD_SIZE, P.TD_WANT.obj).0;
    status := AllocateTd(d, c2);
    ghost var c3 := R.Obtain(c2, P.TD_SIZE, P.TD_WANT.obj).0;
    qh := AllocateQh(d, c3);
    ghost var c4 := R.Obtain(c3, P.QH_SIZE, P.QH_WANT.obj).0;
    AcquireTwo(c0, cmd, c1, sp, c4, setup, status, qh);
    BeginFrom(s, cmd, c4, sp, [setup, status, qh]);
    if setup == NULL || status == NULL || qh == NULL { return; }
    ok := true;
    TransferForTwo(cmd, sp, setup, status, qh);
    FillTwo(d, bytes, setupToken, statusToken, fr, cmd, sp, setup, status, qh, s, c4);
  }

  /** The field writes and the frame slots. */
  method FillTwo(d: D.Driver, ghost bytes: seq<bv8>, setupToken: bv32, statusToken: bv32, fr: nat, ghost cmd: T.Command,
                 sp: nat, setup: nat, status: nat, qh: nat, ghost s: State, ghost c: R.Core)
    requires d.Valid() && d.Matches(c) && d.pipes[..] == s.pipes && d.delivered == s.delivered && |c.slots| == FRAMES
    requires NoDuplicates([setup, status, qh]) && !T.HasData(cmd.kind)
    requires Encodes(cmd, bytes, setupToken, statusToken, [fr % 1024, (fr + 1) % 1024])
    modifies d`mem, d.frames
    ensures d.Valid()
    ensures var t := TwoStageTransfer(cmd, sp, setup, status, qh);
      && (forall i :: 0 <= i < |t.frames| ==> t.frames[i] < FRAMES)
      && d.View().(pending := Some(t)) == T.StartedState(s, c, cmd, t)
  {
    hide T.SetupTd, T.StatusTd, T.HasData, T.FramesFor, T.Built, T.WriteSlots, Link, T.StartedState, T.SetupBytes;
    hide NoDuplicates, ControlToken;
    EncodedTds(cmd, bytes, setupToken, statusToken, [fr % 1024, (fr + 1) % 1024], status, sp);
    ThreeDistinct(setup, status, qh);
    BuiltTwo(c.mem, cmd, sp, setup, status, qh);
    WriteTd(d, setup, Link(status, 4), 0x80_0000, setupToken, sp);
    WriteTd(d, status, 1, 0x80_0000, statusToken, 0);
    WriteQh(d, qh, 1, setup);
    LinkTwo(d, fr, Link(qh, 2));
    StartedFields(s, c, cmd, TwoStageTransfer(cmd, sp, setup, status, qh), d.View());
  }

  /** Two descriptors and a queue head, in a row. */
  method AllocateRest(d: D.Driver, ghost c1: R.Core) returns (td: nat, status: nat, qh: nat, ghost c4: R.Core)
    requires d.Valid() && d.Matches(c1) && R.CoreInv(c1)
    modifies d`mem, d.heap
    ensures d.Valid() && d.Matches(c4) && TwoStages(c1, c4, td, status, qh)
  {
    hide R.CoreInv, R.Obtain;
    td := AllocateTd(d, c1);
    ghost var c2 := R.Obtain(c1, P.TD_SIZE, P.TD_WANT.obj).0;
    status := AllocateTd(d, c2);
    ghost var c3 := R.Obtain(c2, P.TD_SIZE, P.TD_WANT.obj).0;
    qh := AllocateQh(d, c3);
    c4 := R.Obtain(c3, P.QH_SIZE, P.QH_WANT.obj).0;
  }

  /** The start of the three GET_DESCRIPTOR transfers, with one frame or two. */
  method StartThree(d: D.Driver, bytes: seq<bv8>, setupToken: bv32, dataToken: bv32, statusToken: bv32, buffer: nat,
                    fr: nat, both: bool, ghost cmd: T.Command)
    returns (ok: bool, sp: nat, setup: nat, data: nat, status: nat, qh: nat)
    requires d.Valid() && StateInv(d.View()) && d.pending.None? && T.HasData(cmd.kind)
    requires Encodes(cmd, bytes, setupToken, statusToken, SlotsFor(fr, both))
    requires T.DataTd(cmd, NULL).token == dataToken && cmd.target == buffer
    modifies d`mem, d.heap, d.frames
    ensures d.Valid() && d.pending.None?
    ensures !ok ==> d.View() == T.Begin(old(d.View()), cmd)
    ensures ok ==> Started(d, old(d.View()), cmd, ThreeStageTransfer(cmd, sp, setup, data, status, qh))
  {
    hide StateInv, R.CoreInv, R.Obtain, T.AcquireChain, T.Begin, T.HasData, T.SetupTd, T.StatusTd, T.SetupBytes;
    hide T.DataTd, T.FramesFor, T.Built, T.WriteSlots, OwnersOf, NoDuplicates, Link, T.StartedState, T.TransferFor;
    hide ControlToken, TwoStages;
    ghost var s := d.View();
    ghost var c0 := CoreOf(s);
    StateCore(s);
    AcquirePacket(c0, cmd);
    ok, setup, data, status, qh := false, NULL, NULL, NULL, NULL;
    sp := AllocateSetupPacket(d, bytes, c0);
    ghost var c1 := R.Obtain(c0, T.PACKET_SIZE, R.Bytes(bytes)).0;
    if sp == NULL {
      BeginNoPacket(s, cmd, c1);
      return;
    }
    setup := AllocateTd(d, c1);
    ghost var c2 := R.Obtain(c1, P.TD_SIZE, P.TD_WANT.obj).0;
    ghost var c5: R.Core;
    data, status, qh, c5 := AllocateRest(d, c2);
    AcquireThree(c0, cmd, c1, sp, c5, setup, data, status, qh);
    BeginFrom(s, cmd, c5, sp, [setup, data, status, qh]);
    if setup == NULL || data == NULL || status == NULL || qh == NULL { return; }
    ok := true;
    TransferForThree(cmd, sp, setup, data, status, qh);
    FillThree(d, bytes, setupToken, dataToken, statusToken, buffer, fr, both, cmd, sp, setup, data, status, qh, s, c5);
  }

  function SlotsFor(fr: nat, both: bool): seq<nat> {
    if both then [fr % 1024, (fr + 1) % 1024] else [fr % 1024]
  }

  lemma DataFields(cmd: T.Command, next: nat)
    ensures T.DataTd(cmd, next) == R.Td(Link(next, 4), 0x80_0000, T.DataTd(cmd, NULL).token, cmd.target)
  {
    hide ControlToken, Link;
  }

  method FillThree(d: D.Driver, ghost bytes: seq<bv8>, setupToken: bv32, dataToken: bv32, statusToken: bv32,
                   buffer: nat, fr: nat, both: bool, ghost cmd: T.Command,
                   sp: nat, setup: nat, data: nat, status: nat, qh: nat, ghost s: State, ghost c: R.Core)
    requires d.Valid() && d.Matches(c) && d.pipes[..] == s.pipes && d.delivered == s.delivered && |c.slots| == FRAMES
    requires NoDuplicates([setup, data, status, qh]) && T.HasData(cmd.kind)
    requires Encodes(cmd, bytes, setupToken, statusToken, SlotsFor(fr, both))
    requires T.DataTd(cmd, NULL).token == dataToken && cmd.target == buffer
    modifies d`mem, d.frames
    ensures d.Valid()
    ensures var t := ThreeStageTransfer(cmd, sp, setup, data, status, qh);
      && (forall i :: 0 <= i < |t.frames| ==> t.frames[i] < FRAMES)
      && d.View().(pending := Some(t)) == T.StartedState(s, c, cmd, t)
  {
    hide T.SetupTd, T.StatusTd, T.DataTd, T.HasData, T.FramesFor, T.Built, T.WriteSlots, Link, T.StartedState;
    hide NoDuplicates, ControlToken, T.SetupBytes;
    EncodedTds(cmd, bytes, setupToken, statusToken, SlotsFor(fr, both), data, sp);
    DataFields(cmd, status);
    BuiltThree(c.mem, cmd, sp, setup, data, status, qh);
    WriteTd(d, setup, Link(data, 4), 0x80_0000, setupToken, sp);
    WriteTd(d, data, Link(status, 4), 0x80_0000, dataToken, buffer);
    WriteTd(d, status, 1, 0x80_0000, statusToken, 0);
    WriteQh(d, qh, 1, setup);
    if both {
      LinkTwo(d, fr, Link(qh, 2));
    } else {
      LinkOne(d, fr, Link(qh, 2));
    }
    StartedFields(s, c, cmd, ThreeStageTransfer(cmd, sp, setup, data, status, qh), d.View());
  }

  // ---- The end ----

  /** The driver after a transfer that keeps everything. */
  lemma Abandoned(s1: State, t: Transfer, o: F.Outcome, s': State)
    requires StateInv(s1) && s1.pending == Some(t) && F.Abandons(t.kind, o) && s' == s1.(pending := None)
    ensures F.Finish(s1, o) == (s', 0)
  {
    hide StateInv, R.CoreInv, OwnersOf, F.Finish, R.ReleaseAll, F.Settled, D.Returnable, T.WriteSlots;
    D.FinishCases(s1, o);
  }

  /** What is left to do for the others: give the blocks back to the core with the slots settled. */
  lemma Settling(s1: State, t: Transfer, o: F.Outcome)
    requires StateInv(s1) && s1.pending == Some(t) && !F.Abandons(t.kind, o)
    ensures |s1.slots| == FRAMES && forall i :: 0 <= i < |t.frames| ==> t.frames[i] < FRAMES
    ensures var c := F.Settled(s1, o);
      && c.heap == s1.heap && c.mem == s1.mem && D.Returnable(c.heap, F.Given(t))
      && c.slots == (if F.Terminates(t.kind, o) then T.WriteSlots(s1.slots, t.frames, UhciWords.TERMINATE)
                     else s1.slots)
      && (forall i :: 0 <= i < |F.Given(t)| ==> F.Given(t)[i] == NULL || F.Given(t)[i] > HEADER)
      && F.Finish(s1, o) == (WithCore(s1, R.ReleaseAll(c, F.Given(t))).(pending := None), F.ResultOf(t.kind, o))
  {
    hide StateInv, R.CoreInv, OwnersOf, F.Finish, R.ReleaseAll, F.Settled, D.Returnable, T.WriteSlots;
    D.FinishCases(s1, o);
  }

  lemma ReleasedSlots(c: R.Core, ps: seq<nat>)
    requires forall i :: 0 <= i < |ps| ==> ps[i] == NULL || ps[i] > HEADER
    ensures R.ReleaseAll(c, ps).slots == c.slots
  {
    R.ReleaseAllSlots(c, ps);
  }

  lemma StartedView(d: D.Driver, s: State, cmd: T.Command, t: Transfer)
    requires StateInv(s) && s.pending.None? && Started(d, s, cmd, t)
    ensures T.Begin(s, cmd).pending == Some(t) && d.View().(pending := Some(t)) == T.Begin(s, cmd)
  {
    hide StateInv, T.Begin;
  }

  // ---- The five functions ----

  /** The first poll in time that sees the descriptor retired sees no error bit and no NAK. */
  ghost predicate Completes(polls: seq<bv32>) {
    exists i: nat :: FirstRetired(polls, i) && IsGood(polls[i])
  }

  lemma WaitCompletes(polls: seq<bv32>, wait: int)
    requires |polls| > TIMEOUT && WaitAnswers(polls, wait)
    ensures wait == 1 <==> Completes(polls)
  {
    hide FirstRetired, IsGood;
  }


  lemma FirstToken(pid: bv32, addr: bv8, m1: bv32)
    ensures ControlToken(pid, addr, 0, m1) == pid | (addr as bv32 << 8) | (m1 << 21)
  {
  }

  lemma DataToken(pid: bv32, addr: bv8, m1: bv32)
    ensures ControlToken(pid, addr, 1, m1) == pid | (addr as bv32 << 8) | (1 << 19) | (m1 << 21)
  {
  }

  lemma LastToken(pid: bv32, addr: bv8)
    ensures ControlToken(pid, addr, 1, 0) == pid | (addr as bv32 << 8) | (1 << 19)
  {
  }

  function SetAddressCommand(address: bv8, frame: nat): T.Command {
    T.Command(SetAddress, 0, address, 0, 0, frame)
  }

  lemma SetAddressEncodes(address: bv8, frame: nat)
    ensures var cmd := SetAddressCommand(address, frame);
      && cmd.kind == SetAddress
      && Encodes(cmd, [0x00, 0x05, address, 0, 0, 0, 0, 0], 0x2D | (7 << 21),
        0x69, [(frame % 2048 + 1) % 1024, (frame % 2048 + 1 + 1) % 1024])
  {
  }

  /** uhci_set_device_address. `status` is the setup descriptor's status word after the wait. */
  method SetDeviceAddress(d: D.Driver, address: bv8, frame: nat, running: bool, polls: seq<bv32>, status: bv32)
    returns (r: int, wait: int)
    requires d.Valid() && StateInv(d.View()) && d.pending.None? && |polls| > TIMEOUT
    modifies d`mem, d.heap, d.frames
    ensures d.Valid() && StateInv(T.Begin(old(d.View()), SetAddressCommand(address, frame)))
    ensures Performs(old(d.View()), SetAddressCommand(address, frame), F.Outcome(running, wait, status), d.View(), r)
    ensures running && T.Begin(old(d.View()), SetAddressCommand(address, frame)).pending.Some? ==>
      WaitAnswers(polls, wait)
    ensures r == 0 || r == 1
    ensures r == 1 <==>
      running && T.Begin(old(d.View()), SetAddressCommand(address, frame)).pending.Some? && Completes(polls) &&
        status & TD_STALLED == 0
  {
    hide StateInv, T.Begin, F.Finish, OwnersOf, R.ReleaseAll, F.Settled, D.Returnable, T.WriteSlots, Started;
    hide WaitAnswers, Completes, NoDuplicates, SetAddressCommand, T.FramesFor, T.SetupBytes, T.StatusTd, ControlToken;
    ghost var s, cmd := d.View(), SetAddressCommand(address, frame);
    SetAddressEncodes(address, frame);
    T.BeginKeepsInv(s, cmd);
    r, wait := 0, 0;
    var ok, sp, tdSetup, tdStatus, qh := StartTwo(d, [0x00, 0x05, address, 0, 0, 0, 0, 0],
      0x2D | (7 << 21), 0x69, frame % 2048 + 1, cmd);
    ghost var t := TwoStageTransfer(cmd, sp, tdSetup, tdStatus, qh);
    ghost var s1 := T.Begin(s, cmd);
    if !ok { return; }
    StartedView(d, s, cmd, t);
    if !running {
      Abandoned(s1, t, F.Outcome(running, wait, status), d.View());
      return;
    }
    wait := WaitForTransfer(polls);
    WaitCompletes(polls, wait);
    ghost var o := F.Outcome(running, wait, status);
    if wait != 1 {
      Abandoned(s1, t, o, d.View());
      return;
    }
    Settling(s1, t, o);
    ReleasedSlots(F.Settled(s1, o), F.Given(t));
    assert F.Given(t) == [tdSetup, tdStatus, qh, sp];
    if status & 0x40_0000 != 0 {
      LinkTwo(d, frame % 2048 + 1, 1);
      d.ReleaseAll([tdSetup, tdStatus, qh, sp], F.Settled(s1, o));
      return;
    }
    LinkTwo(d, frame % 2048 + 1, 1);
    d.ReleaseAll([tdSetup, tdStatus, qh, sp], F.Settled(s1, o));
    r := 1;
  }

  function GetDeviceCommand(addr: bv8, buffer: nat, frame: nat): T.Command {
    T.Command(GetDevice, addr, 0, 18, buffer, frame)
  }

  lemma GetDeviceEncodes(addr: bv8, buffer: nat, frame: nat)
    ensures var cmd := GetDeviceCommand(addr, buffer, frame);
      && cmd.kind == GetDevice
      && T.DataTd(cmd, NULL).token == 0x69 | (addr as bv32 << 8) | (1 << 19) | (17 << 21) && cmd.target == buffer
      && Encodes(cmd, [0x80, 0x06, 0, 1, 0, 0, 18, 0], 0x2D | (addr as bv32 << 8) | (7 << 21),
        0xE1 | (addr as bv32 << 8) | (1 << 19), [(frame % 2048 + 1) % 1024, (frame % 2048 + 1 + 1) % 1024])
  {
    hide ControlToken, Link;
    FirstToken(PID_SETUP, addr, 7);
    DataToken(PID_IN, addr, 17);
    LastToken(PID_OUT, addr);
  }

  /** uhci_get_device_descriptor. `status` is the data descriptor's. The setup packet is not given back. */
  method GetDeviceDescriptor(d: D.Driver, addr: bv8, buffer: nat, frame: nat, polls: seq<bv32>, status: bv32)
    returns (r: int, wait: int)
    requires d.Valid() && StateInv(d.View()) && d.pending.None? && |polls| > TIMEOUT
    modifies d`mem, d.heap, d.frames
    ensures d.Valid() && StateInv(T.Begin(old(d.View()), GetDeviceCommand(addr, buffer, frame)))
    ensures Performs(old(d.View()), GetDeviceCommand(addr, buffer, frame), F.Outcome(true, wait, status), d.View(), r)
    ensures T.Begin(old(d.View()), GetDeviceCommand(addr, buffer, frame)).pending.Some? ==>
      WaitAnswers(polls, wait)
    ensures r == 0 || r == 1
    ensures r == 1 <==>
      T.Begin(old(d.View()), GetDeviceCommand(addr, buffer, frame)).pending.Some? && Completes(polls) &&
        status & TD_STALLED == 0
  {
    hide StateInv, T.Begin, F.Finish, OwnersOf, R.ReleaseAll, F.Settled, D.Returnable, T.WriteSlots, Started;
    hide WaitAnswers, Completes, NoDuplicates, GetDeviceCommand, T.FramesFor, T.SetupBytes, T.StatusTd, ControlToken,
        T.DataTd;
    ghost var s, cmd := d.View(), GetDeviceCommand(addr, buffer, frame);
    GetDeviceEncodes(addr, buffer, frame);
    T.BeginKeepsInv(s, cmd);
    r, wait := 0, 0;
    var ok, sp, tdSetup, tdData, tdStatus, qh := StartThree(d, [0x80, 0x06, 0, 1, 0, 0, 18, 0],
      0x2D | (addr as bv32 << 8) | (7 << 21), 0x69 | (addr as bv32 << 8) | (1 << 19) | (17 << 21),
      0xE1 | (addr as bv32 << 8) | (1 << 19), buffer, frame % 2048 + 1, true, cmd);
    ghost var t := ThreeStageTransfer(cmd, sp, tdSetup, tdData, tdStatus, qh);
    ghost var s1 := T.Begin(s, cmd);
    if !ok { return; }
    StartedView(d, s, cmd, t);
    wait := WaitForTransfer(polls);
    WaitCompletes(polls, wait);
    ghost var o := F.Outcome(true, wait, status);
    if wait != 1 {
      Abandoned(s1, t, o, d.View());
      return;
    }
    Settling(s1, t, o);
    ReleasedSlots(F.Settled(s1, o), F.Given(t));
    assert F.Given(t) == [tdSetup, tdData, tdStatus, qh];
    if status & 0x40_0000 != 0 {
      LinkTwo(d, frame % 2048 + 1, 1);
      d.ReleaseAll([tdSetup, tdData, tdStatus, qh], F.Settled(s1, o));
      return;
    }
    LinkTwo(d, frame % 2048 + 1, 1);
    d.ReleaseAll([tdSetup, tdData, tdStatus, qh], F.Settled(s1, o));
    r := 1;
  }

  function GetConfigCommand(addr: bv8, buffer: nat, frame: nat): T.Command {
    T.Command(GetConfig, addr, 0, 9, buffer, frame)
  }

  lemma GetConfigEncodes(addr: bv8, buffer: nat, frame: nat)
    ensures var cmd := GetConfigCommand(addr, buffer, frame);
      && cmd.kind == GetConfig
      && T.DataTd(cmd, NULL).token == 0x69 | (addr as bv32 << 8) | (1 << 19) | (8 << 21) && cmd.target == buffer
      && Encodes(cmd, [0x80, 0x06, 0, 2, 0, 0, 9, 0], 0x2D | (addr as bv32 << 8) | (7 << 21),
        0xE1 | (addr as bv32 << 8) | (1 << 19), [frame % 2048 % 1024])
  {
    hide ControlToken, Link;
    FirstToken(PID_SETUP, addr, 7);
    DataToken(PID_IN, addr, 8);
    LastToken(PID_OUT, addr);
  }

  /** uhci_get_configuration_descriptor. A failed wait frees the blocks and leaves the frame slot alone. */
  method GetConfigurationDescriptor(d: D.Driver, addr: bv8, buffer: nat, frame: nat, polls: seq<bv32>)
    returns (r: int, wait: int)
    requires d.Valid() && StateInv(d.View()) && d.pending.None? && |polls| > TIMEOUT
    modifies d`mem, d.heap, d.frames
    ensures d.Valid() && StateInv(T.Begin(old(d.View()), GetConfigCommand(addr, buffer, frame)))
    ensures Performs(old(d.View()), GetConfigCommand(addr, buffer, frame), F.Outcome(true, wait, 0), d.View(), r)
    ensures T.Begin(old(d.View()), GetConfigCommand(addr, buffer, frame)).pending.Some? ==>
      WaitAnswers(polls, wait)
    ensures r == 0 || r == 1
    ensures r == 1 <==>
      T.Begin(old(d.View()), GetConfigCommand(addr, buffer, frame)).pending.Some? && Completes(polls)
  {
    hide StateInv, T.Begin, F.Finish, OwnersOf, R.ReleaseAll, F.Settled, D.Returnable, T.WriteSlots, Started;
    hide WaitAnswers, Completes, NoDuplicates, GetConfigCommand, T.FramesFor, T.SetupBytes, T.StatusTd, ControlToken,
        T.DataTd;
    ghost var s, cmd := d.View(), GetConfigCommand(addr, buffer, frame);
    GetConfigEncodes(addr, buffer, frame);
    T.BeginKeepsInv(s, cmd);
    r, wait := 0, 0;
    var ok, sp, tdSetup, tdData, tdStatus, qh := StartThree(d, [0x80, 0x06, 0, 2, 0, 0, 9, 0],
      0x2D | (addr as bv32 << 8) | (7 << 21), 0x69 | (addr as bv32 << 8) | (1 << 19) | (8 << 21),
      0xE1 | (addr as bv32 << 8) | (1 << 19), buffer, frame % 2048, false, cmd);
    ghost var t := ThreeStageTransfer(cmd, sp, tdSetup, tdData, tdStatus, qh);
    ghost var s1 := T.Begin(s, cmd);
    if !ok { return; }
    StartedView(d, s, cmd, t);
    wait := WaitForTransfer(polls);
    WaitCompletes(polls, wait);
    ghost var o := F.Outcome(true, wait, 0);
    Settling(s1, t, o);
    ReleasedSlots(F.Settled(s1, o), F.Given(t));
    assert F.Given(t) == [tdSetup, tdData, tdStatus, qh];
    if wait != 1 {
      d.ReleaseAll([tdSetup, tdData, tdStatus, qh], F.Settled(s1, o));
      return;
    }
    LinkOne(d, frame % 2048, 1);
    d.ReleaseAll([tdSetup, tdData, tdStatus, qh], F.Settled(s1, o));
    r := 1;
  }

  function GetFullConfigCommand(addr: bv8, buffer: nat, length: bv16, frame: nat): T.Command {
    T.Command(GetFullConfig, addr, 0, length, buffer, frame)
  }

  function FullDataToken(addr: bv8, length: bv16): bv32 {
    0x69 | (addr as bv32 << 8) | (1 << 19) | (T.LengthField(length) << 21)
  }

  lemma GetFullConfigData(addr: bv8, buffer: nat, length: bv16, frame: nat)
    ensures T.DataTd(GetFullConfigCommand(addr, buffer, length, frame), NULL).token == FullDataToken(addr, length)
  {
    hide ControlToken, Link, T.LengthField;
    DataToken(PID_IN, addr, T.LengthField(length));
  }

  lemma GetFullConfigBytes(addr: bv8, buffer: nat, length: bv16, frame: nat)
    ensures T.SetupBytes(GetFullConfigCommand(addr, buffer, length, frame)) ==
      [0x80, 0x06, 0, 2, 0, 0, (length & 0xFF) as bv8, (length >> 8) as bv8]
  {
  }

  lemma GetFullConfigEncodes(addr: bv8, buffer: nat, length: bv16, frame: nat)
    ensures var cmd := GetFullConfigCommand(addr, buffer, length, frame);
      && cmd.kind == GetFullConfig
      && T.DataTd(cmd, NULL).token == FullDataToken(addr, length)
      && cmd.target == buffer
      && Encodes(cmd, [0x80, 0x06, 0, 2, 0, 0, (length & 0xFF) as bv8, (length >> 8) as bv8],
        0x2D | (addr as bv32 << 8) | (7 << 21),
        0xE1 | (addr as bv32 << 8) | (1 << 19), [frame % 2048 % 1024])
  {
    hide ControlToken, Link, T.SetupBytes, T.DataTd, FullDataToken;
    GetFullConfigData(addr, buffer, length, frame);
    GetFullConfigBytes(addr, buffer, length, frame);
    FirstToken(PID_SETUP, addr, 7);
    LastToken(PID_OUT, addr);
  }

  /** uhci_get_full_configuration_descriptor. It also gives the setup packet back. */
  method GetFullConfiguration(d: D.Driver, addr: bv8, buffer: nat, length: bv16, frame: nat, polls: seq<bv32>)
    returns (r: int, wait: int)
    requires d.Valid() && StateInv(d.View()) && d.pending.None? && |polls| > TIMEOUT
    modifies d`mem, d.heap, d.frames
    ensures d.Valid() && StateInv(T.Begin(old(d.View()), GetFullConfigCommand(addr, buffer, length, frame)))
    ensures Performs(old(d.View()), GetFullConfigCommand(addr, buffer, length, frame), F.Outcome(true, wait, 0),
                     d.View(), r)
    ensures T.Begin(old(d.View()), GetFullConfigCommand(addr, buffer, length, frame)).pending.Some? ==>
      WaitAnswers(polls, wait)
    ensures r == 0 || r == 1
    ensures r == 1 <==>
      T.Begin(old(d.View()), GetFullConfigCommand(addr, buffer, length, frame)).pending.Some? && Completes(polls)
  {
    hide StateInv, T.Begin, F.Finish, OwnersOf, R.ReleaseAll, F.Settled, D.Returnable, T.WriteSlots, Started;
    hide WaitAnswers, Completes, NoDuplicates, GetFullConfigCommand, T.FramesFor, T.SetupBytes, T.StatusTd,
        ControlToken, T.DataTd;
    ghost var s, cmd := d.View(), GetFullConfigCommand(addr, buffer, length, frame);
    GetFullConfigEncodes(addr, buffer, length, frame);
    T.BeginKeepsInv(s, cmd);
    r, wait := 0, 0;
    var ok, sp, tdSetup, tdData, tdStatus, qh := StartThree(d,
      [0x80, 0x06, 0, 2, 0, 0, (length & 0xFF) as bv8, (length >> 8) as bv8],
      0x2D | (addr as bv32 << 8) | (7 << 21), FullDataToken(addr, length),
      0xE1 | (addr as bv32 << 8) | (1 << 19), buffer, frame % 2048, false, cmd);
    ghost var t := ThreeStageTransfer(cmd, sp, tdSetup, tdData, tdStatus, qh);
    ghost var s1 := T.Begin(s, cmd);
    if !ok { return; }
    StartedView(d, s, cmd, t);
    wait := WaitForTransfer(polls);
    WaitCompletes(polls, wait);
    ghost var o := F.Outcome(true, wait, 0);
    Settling(s1, t, o);
    ReleasedSlots(F.Settled(s1, o), F.Given(t));
    assert F.Given(t) == [tdSetup, tdData, tdStatus, qh, sp];
    if wait != 1 {
      d.ReleaseAll([tdSetup, tdData, tdStatus, qh, sp], F.Settled(s1, o));
      return;
    }
    LinkOne(d, frame % 2048, 1);
    d.ReleaseAll([tdSetup, tdData, tdStatus, qh, sp], F.Settled(s1, o));
    r := 1;
  }

  function SetConfigCommand(addr: bv8, value: bv8, frame: nat): T.Command {
    T.Command(SetConfig, addr, value, 0, 0, frame)
  }

  lemma SetConfigEncodes(addr: bv8, value: bv8, frame: nat)
    ensures var cmd := SetConfigCommand(addr, value, frame);
      && cmd.kind == SetConfig
      && Encodes(cmd, [0x00, 0x09, value, 0, 0, 0, 0, 0], 0x2D | (addr as bv32 << 8) | (7 << 21),
        0x69 | (addr as bv32 << 8) | (1 << 19), [(frame % 2048 + 1) % 1024, (frame % 2048 + 1 + 1) % 1024])
  {
    hide ControlToken, Link;
    FirstToken(PID_SETUP, addr, 7);
    LastToken(PID_IN, addr);
  }

  /** uhci_set_configuration. `status` is the status descriptor's. The setup packet is not given back. */
  method SetConfiguration(d: D.Driver, addr: bv8, value: bv8, frame: nat, polls: seq<bv32>, status: bv32)
    returns (r: int, wait: int)
    requires d.Valid() && StateInv(d.View()) && d.pending.None? && |polls| > TIMEOUT
    modifies d`mem, d.heap, d.frames
    ensures d.Valid() && StateInv(T.Begin(old(d.View()), SetConfigCommand(addr, value, frame)))
    ensures Performs(old(d.View()), SetConfigCommand(addr, value, frame), F.Outcome(true, wait, status), d.View(), r)
    ensures T.Begin(old(d.View()), SetConfigCommand(addr, value, frame)).pending.Some? ==>
      WaitAnswers(polls, wait)
    ensures r == 0 || r == 1
    ensures r == 1 <==>
      T.Begin(old(d.View()), SetConfigCommand(addr, value, frame)).pending.Some? && Completes(polls) &&
        status & TD_STALLED == 0
  {
    hide StateInv, T.Begin, F.Finish, OwnersOf, R.ReleaseAll, F.Settled, D.Returnable, T.WriteSlots, Started;
    hide WaitAnswers, Completes, NoDuplicates, SetConfigCommand, T.FramesFor, T.SetupBytes, T.StatusTd, ControlToken;
    ghost var s, cmd := d.View(), SetConfigCommand(addr, value, frame);
    SetConfigEncodes(addr, value, frame);
    T.BeginKeepsInv(s, cmd);
    r, wait := 0, 0;
    var ok, sp, tdSetup, tdStatus, qh := StartTwo(d, [0x00, 0x09, value, 0, 0, 0, 0, 0],
      0x2D | (addr as bv32 << 8) | (7 << 21), 0x69 | (addr as bv32 << 8) | (1 << 19), frame % 2048 + 1, cmd);
    ghost var t := TwoStageTransfer(cmd, sp, tdSetup, tdStatus, qh);
    ghost var s1 := T.Begin(s, cmd);
    if !ok { return; }
    StartedView(d, s, cmd, t);
    wait := WaitForTransfer(polls);
    WaitCompletes(polls, wait);
    ghost var o := F.Outcome(true, wait, status);
    if wait != 1 {
      Abandoned(s1, t, o, d.View());
      return;
    }
    Settling(s1, t, o);
    ReleasedSlots(F.Settled(s1, o), F.Given(t));
    assert F.Given(t) == [tdSetup, tdStatus, qh];
    if status & 0x40_0000 != 0 {
      LinkTwo(d, frame % 2048 + 1, 1);
      d.ReleaseAll([tdSetup, tdStatus, qh], F.Settled(s1, o));
      return;
    }
    LinkTwo(d, frame % 2048 + 1, 1);
    d.ReleaseAll([tdSetup, tdStatus, qh], F.Settled(s1, o));
    r := 1;
  }
}
