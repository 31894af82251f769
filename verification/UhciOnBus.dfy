/**
 What the controller finds in memory: the descriptor of a keyboard pipe over whole runs, and the
 stages of a control transfer when it starts, decoded field by field.
 */
module UhciOnBus {
  import opened Heap
  import opened UhciWords
  import opened Resources
  import opened FrameList
  import opened UhciModel
  import opened UhciPipes
  import opened UhciTransfers
  import opened UhciService
  import opened UhciLeaks
  import opened UhciRuns
  import opened UhciDelivery
  import E = Endpoint

  // ---- Keyboard pipes ----

  const ARMED: bv32 := 0x2180_07FF   // active, interrupt on completion, short packet detect
  const LAST: nat := 1               // the link word that ends a chain

  /** The pipe's queue head and descriptor end their chains; the descriptor asks endpoint `ep` of device
      `addr` for eight bytes and puts them where the buffer pointer says; while it is active the
      queue head leads to it and its completion raises an interrupt. */
  ghost predicate Polls(s: State, i: int, addr: bv8, ep: bv8) {
    && 0 <= i < |s.pipes| && s.pipes[i].inUse
    && var p := s.pipes[i];
    && p.td in s.mem && s.mem[p.td].TdObject? && p.qh in s.mem && s.mem[p.qh].QhObject?
    && Asks(s.mem[p.td].td, s.mem[p.qh].qh, p.td, addr, ep)
    && s.mem[p.td].td.buffer in s.mem && s.mem[s.mem[p.td].td.buffer].Bytes?
  }

  ghost predicate Asks(td: Td, qh: Qh, at: nat, addr: bv8, ep: bv8) {
    && TokenPid(td.token) == 0x69 && TokenAddress(td.token) == addr && TokenEndpoint(td.token) == ep
    && TokenLength(td.token) == 8
    && td.link == LAST && qh.horizontal == LAST
    && (IsActive(td.status) ==> td.status == ARMED && qh.vertical == at)
  }

  /** The same of an endpoint, with the pipe fields that re-arming uses. */
  ghost predicate Aimed(e: E.Endpoint, addr: bv8, ep: bv8) {
    && Asks(e.td, e.qh, e.pipe.td, addr, ep)
    && e.pipe.devAddr == addr && e.pipe.ep == ep && e.td.buffer == e.pipe.buf
  }

  lemma ArmedAsks(td: Td, qh: Qh, p: Pipe)
    requires p.devAddr < 0x80 && p.ep < 0x10 && td.link == LAST && qh.horizontal == LAST && qh.vertical == p.td
    requires td.token == BuildInToken(p.devAddr, p.ep, p.toggle, 8) && td.status == ARMED
    ensures Asks(td, qh, p.td, p.devAddr, p.ep)
  {
    hide BuildInToken, TokenPid, TokenAddress, TokenEndpoint, TokenToggle, TokenLength;
    InTokenRoundTrip(p.devAddr, p.ep, p.toggle, 8);
  }

  lemma RearmAimed(e: E.Endpoint, advance: bool, addr: bv8, ep: bv8)
    requires addr < 0x80 && ep < 0x10 && Aimed(e, addr, ep)
    ensures Aimed(E.Rearm(e, advance), addr, ep)
  {
    hide BuildInToken, TokenPid, TokenAddress, TokenEndpoint, TokenToggle, TokenLength, IsActive;
    var e' := E.Rearm(e, advance);
    ArmedAsks(e'.td, e'.qh, e'.pipe);
  }

  lemma NextAimed(e: E.Endpoint, ev: E.Event, addr: bv8, ep: bv8)
    requires addr < 0x80 && ep < 0x10 && Aimed(e, addr, ep)
    ensures Aimed(E.Next(e, ev), addr, ep)
  {
    hide E.Rearm, IsActive, TokenPid, TokenAddress, TokenEndpoint, TokenLength;
    RearmAimed(e, false, addr, ep);
    RearmAimed(e.(delivered := e.delivered + [e.data]), true, addr, ep);
  }

  lemma {:induction false} RunAimed(e: E.Endpoint, evs: seq<E.Event>, addr: bv8, ep: bv8)
    requires addr < 0x80 && ep < 0x10 && Aimed(e, addr, ep)
    ensures Aimed(E.Run(e, evs), addr, ep)
    decreases |evs|
  {
    hide Aimed, E.Next;
    if evs != [] {
      NextAimed(e, evs[0], addr, ep);
      RunAimed(E.Next(e, evs[0]), evs[1..], addr, ep);
    }
  }

  lemma AimedPolls(s: State, i: nat, addr: bv8, ep: bv8)
    requires StateInv(s) && i < MAX_PIPES && s.pipes[i].inUse
    ensures Aimed(EndpointOf(s, i), addr, ep) ==> Polls(s, i, addr, ep)
  {
    hide CoreInv, OwnersOf, Asks;
    PipeInMem(s, i);
  }

  lemma LowBits(e: bv8)
    ensures e & 0x0F < 0x10
  {
  }

  lemma OpenedAimed(s: State, r: OpenRequest)
    requires StateInv(s) && Open(s, r).1 != -1 && r.devAddr < 0x80
    ensures var (s1, id) := Open(s, r);
      && StateInv(s1) && 0 <= id < MAX_PIPES && s1.pipes[id].inUse
      && Aimed(EndpointOf(s1, id), r.devAddr, r.endpoint & 0x0F)
  {
    hide CoreInv, OwnersOf, Acquire, OpenedState, Shapes, Obtained, Asks, NextSlot;
    OpenedInStep(s, r);
    OpenedBy(s, r);
    var (s1, id) := Open(s, r);
    hide Open;
    var (c, buf, td, qh) := Acquire(CoreOf(s));
    SlotCount(s);
    ObtainedApart(CoreOf(s), c, buf, td, qh);
    OpenedFields(s, r, id, c, buf, td, qh);
  }

  /** Right after an open. */
  lemma OpenedPolls(s: State, r: OpenRequest)
    requires StateInv(s) && Open(s, r).1 != -1 && r.devAddr < 0x80
    ensures Polls(Open(s, r).0, Open(s, r).1, r.devAddr, r.endpoint & 0x0F)
  {
    hide CoreInv, Shapes, OwnersOf, Open, EndpointOf, Aimed, Polls;
    OpenedAimed(s, r);
    AimedPolls(Open(s, r).0, Open(s, r).1, r.devAddr, r.endpoint & 0x0F);
  }

  lemma ObtainedApart(c0: Core, c: Core, buf: nat, td: nat, qh: nat)
    requires Obtained(c0, c, buf, td, qh) && td != NULL
    ensures td != qh
  {
  }

  lemma OpenedFields(s: State, r: OpenRequest, id: nat, c: Core, buf: nat, td: nat, qh: nat)
    requires |s.pipes| == MAX_PIPES && |s.delivered| == MAX_PIPES && id < MAX_PIPES && |c.slots| == FRAMES
    requires td != qh && r.devAddr < 0x80
    requires Shapes(OpenedState(s, id, c, PipeFor(r, buf, td, qh)))
    ensures var s1 := OpenedState(s, id, c, PipeFor(r, buf, td, qh));
      s1.pipes[id].inUse && Aimed(EndpointOf(s1, id), r.devAddr, r.endpoint & 0x0F)
  {
    hide BuildInToken, NextSlot, Asks, Filled;
    LowBits(r.endpoint);
    var e := EndpointOf(OpenedState(s, id, c, PipeFor(r, buf, td, qh)), id);
    ArmedAsks(e.td, e.qh, e.pipe);
  }

  /** From an open on, over every legal run that does not close the pipe: the pipe asks exactly the device
      and endpoint it was opened for, for eight bytes; the bytes behind its buffer pointer are what the next
      service call delivers once they are complete, and what the hardware then replaces. */
  lemma PollsItsDevice(s: State, r: OpenRequest, steps: seq<Step>)
    requires StateInv(s) && Open(s, r).1 != -1 && r.devAddr < 0x80
    requires StateInv(Open(s, r).0) ==> LegalRun(Open(s, r).0, steps) && ClosePipe(Open(s, r).1) !in steps
    ensures var (s1, id) := Open(s, r);
      && StateInv(s1) && LegalRun(s1, steps)
      && var s2 := UhciRuns.Run(s1, steps);
      && Polls(s2, id, r.devAddr, r.endpoint & 0x0F)
      && ReadsAt(s2, id, s2.mem[s2.pipes[id].td].td)
  {
    hide CoreInv, Shapes, OwnersOf, Open, EndpointOf, LegalRun, UhciRuns.Run, Aimed, Polls, ReadsAt;
    OpenedAimed(s, r);
    var (s1, id) := Open(s, r);
    RunEndpoint(s1, steps, id);
    LowBits(r.endpoint);
    RunAimed(EndpointOf(s1, id), RunEvents(steps, id), r.devAddr, r.endpoint & 0x0F);
    var s2 := UhciRuns.Run(s1, steps);
    StateCounts(s2);
    AimedPolls(s2, id, r.devAddr, r.endpoint & 0x0F);
    AimedReads(s2, id, r.devAddr, r.endpoint & 0x0F);
  }

  /** The bytes at the descriptor's buffer pointer: a service call appends them to the log when the
      descriptor completed without error, and a completion of an active descriptor writes there. */
  ghost predicate ReadsAt(s: State, i: int, td: Td) {
    && StateInv(s) && 0 <= i < MAX_PIPES && |s.delivered| == MAX_PIPES
    && td.buffer in s.mem && s.mem[td.buffer].Bytes?
    && var s' := ServiceFrom(s, 0);
    && |s'.delivered| == MAX_PIPES
    && s'.delivered[i] == s.delivered[i] + (if IsGood(td.status) then [s.mem[td.buffer].data] else [])
    && forall status: bv32, element: nat, data: seq<bv8> :: IsActive(td.status) && !IsActive(status) ==>
         td.buffer in Retire(s, i, status, element, data).mem
         && Retire(s, i, status, element, data).mem[td.buffer] == Bytes(data)
  }

  lemma AimedReads(s: State, i: nat, addr: bv8, ep: bv8)
    requires StateInv(s) && i < MAX_PIPES && |s.pipes| == MAX_PIPES && s.pipes[i].inUse
    requires Aimed(EndpointOf(s, i), addr, ep)
    ensures s.pipes[i].td in s.mem && s.mem[s.pipes[i].td].TdObject?
    ensures ReadsAt(s, i, s.mem[s.pipes[i].td].td)
  {
    hide CoreInv, OwnersOf, Asks, E.Service, IsActive, Retire, ServiceFrom;
    PipeInMem(s, i);
    var td := s.mem[s.pipes[i].td].td;
    ServiceOnce(s, 0, i);
    var s' := ServiceFrom(s, 0);
    EndpointLog(s, i);
    EndpointLog(s', i);
    ServiceAppends(EndpointOf(s, i));
    forall status: bv32, element: nat, data: seq<bv8> | IsActive(td.status) && !IsActive(status)
      ensures td.buffer in Retire(s, i, status, element, data).mem
        && Retire(s, i, status, element, data).mem[td.buffer] == Bytes(data)
    {
      RetireWrites(s, i, status, element, data);
    }
  }

  lemma ServiceAppends(e: E.Endpoint)
    ensures E.Service(e).delivered == e.delivered + if IsGood(e.td.status) then [e.data] else []
  {
    hide BuildInToken;
  }

  lemma RetireWrites(s: State, i: nat, status: bv32, element: nat, data: seq<bv8>)
    requires StateInv(s) && i < MAX_PIPES && s.pipes[i].inUse
    requires IsActive(EndpointOf(s, i).td.status) && !IsActive(status)
    ensures s.pipes[i].buf in Retire(s, i, status, element, data).mem
    ensures Retire(s, i, status, element, data).mem[s.pipes[i].buf] == Bytes(data)
  {
    hide CoreInv, OwnersOf, IsActive;
  }

  // ---- Control transfers ----

  /** A standard device request as the device reads it from the eight setup bytes (USB 2.0, section 9.3). */
  datatype Request = Request(toHost: bool, code: bv8, value: bv16, index: bv16, length: bv16)

  /** Two bytes, the low one first. */
  function Word(low: bv8, high: bv8): bv16 {
    low as bv16 | (high as bv16 << 8)
  }

  function Decoded(b: seq<bv8>): Request
    requires |b| == 8
  {
    Request(b[0] & 0x80 != 0, b[1], Word(b[2], b[3]), Word(b[4], b[5]), Word(b[6], b[7]))
  }

  lemma SomeWords()
    ensures Word(0, 0) == 0 && Word(0, 1) == 0x0100 && Word(0, 2) == 0x0200 && Word(18, 0) == 18 && Word(9, 0) == 9
  {
  }

  lemma LowWord(low: bv8)
    ensures Word(low, 0) == low as bv16
  {
  }

  lemma SplitWord(n: bv16)
    ensures Word((n & 0xFF) as bv8, (n >> 8) as bv8) == n
  {
  }

  /** SET_ADDRESS is 5, GET_DESCRIPTOR 6 with the descriptor type in the high byte of the value (1 for the
      device, 2 for the configuration), SET_CONFIGURATION 9 (USB 2.0, tables 9-4 and 9-5). */
  lemma SetupRequest(c: Command)
    ensures |SetupBytes(c)| == 8
    ensures Decoded(SetupBytes(c)) ==
      match c.kind
      case SetAddress => Request(false, 5, c.argument as bv16, 0, 0)
      case GetDevice => Request(true, 6, 0x0100, 0, 18)
      case GetConfig => Request(true, 6, 0x0200, 0, 9)
      case GetFullConfig => Request(true, 6, 0x0200, 0, c.length)
      case SetConfig => Request(false, 9, c.argument as bv16, 0, 0)
  {
    hide Word;
    SomeWords();
    LowWord(c.argument);
    SplitWord(c.length);
  }

  ghost predicate StageAt(mem: map<nat, Object>, q: nat, addr: bv8, pid: bv32, length: nat, buffer: nat) {
    && q in mem && mem[q].TdObject?
    && var td := mem[q].td;
    && IsActive(td.status) && td.buffer == buffer
    && TokenPid(td.token) == pid && TokenAddress(td.token) == addr && TokenEndpoint(td.token) == 0
    && TokenLength(td.token) as nat == length
  }

  lemma StagesApart(c0: Core, c: Core, t: Transfer)
    requires TransferNew(c0, c, t)
    ensures NoDuplicates(t.stages) && t.packet != t.qh
    ensures forall i :: 0 <= i < |t.stages| ==> t.stages[i] != t.qh && t.stages[i] != t.packet
  {
    var all := TransferOwner(t).ptrs;
    assert all[|t.stages|] == t.qh && all[|t.stages| + 1] == t.packet;
    assert forall i :: 0 <= i < |t.stages| ==> all[i] == t.stages[i];
  }

  /** The descriptors as they are written. */
  lemma BuiltStages(mem: map<nat, Object>, cmd: Command, t: Transfer)
    requires |t.stages| == if HasData(cmd.kind) then 3 else 2
    requires NoDuplicates(t.stages) && t.packet != t.qh && t.packet in mem
    requires forall i :: 0 <= i < |t.stages| ==> t.stages[i] != t.qh && t.stages[i] != t.packet
    ensures var m := Built(mem, cmd, t); var n := |t.stages| - 1;
      && t.packet in m && m[t.packet] == mem[t.packet]
      && t.stages[0] in m && m[t.stages[0]] == TdObject(SetupTd(cmd, t.stages[1], t.packet))
      && (HasData(cmd.kind) ==> t.stages[1] in m && m[t.stages[1]] == TdObject(DataTd(cmd, t.stages[2])))
      && t.stages[n] in m && m[t.stages[n]] == TdObject(StatusTd(cmd))
  {
    hide SetupTd, DataTd, StatusTd;
  }

  lemma StagesDecode(mem: map<nat, Object>, cmd: Command, t: Transfer)
    requires cmd.addr < 0x80 && AsIssued(cmd) && (HasData(cmd.kind) ==> 1 <= cmd.length <= 0x800)
    requires |t.stages| == if HasData(cmd.kind) then 3 else 2
    requires NoDuplicates(t.stages) && t.packet != t.qh && t.packet in mem
    requires forall i :: 0 <= i < |t.stages| ==> t.stages[i] != t.qh && t.stages[i] != t.packet
    ensures var m := Built(mem, cmd, t); var data := HasData(cmd.kind);
      && t.packet in m && m[t.packet] == mem[t.packet]
      && StageAt(m, t.stages[0], cmd.addr, 0x2D, 8, t.packet)
      && (data ==> StageAt(m, t.stages[1], cmd.addr, 0x69, cmd.length as nat, cmd.target))
      && StageAt(m, t.stages[|t.stages| - 1], cmd.addr, if data then 0xE1 else 0x69, 1, 0)
  {
    hide Built, ControlToken, TokenPid, TokenAddress, TokenEndpoint, TokenToggle, TokenLength, Link, NoDuplicates;
    hide SetupBytes, LengthField;
    BuiltStages(mem, cmd, t);
    SetupStage(cmd, t.stages[1], t.packet);
    if HasData(cmd.kind) { DataStage(cmd, t.stages[2]); }
    StatusStage(cmd);
  }

  /** The slots of the next two frames lead to the queue head; for a GET_CONFIG that of the current frame. */
  ghost predicate LinkedFrom(slots: seq<nat>, cmd: Command, qh: nat) {
    && |slots| == FRAMES
    && if cmd.kind.GetConfig? || cmd.kind.GetFullConfig? then slots[cmd.frame % FRAMES] == QhLink(qh)
       else slots[(cmd.frame + 1) % FRAMES] == QhLink(qh) && slots[(cmd.frame + 2) % FRAMES] == QhLink(qh)
  }

  lemma StartedSlots(s: State, c: Core, cmd: Command, t: Transfer)
    requires |t.stages| == (if HasData(cmd.kind) then 3 else 2) && |c.slots| == FRAMES
    requires t.frames == FramesFor(cmd.kind, cmd.frame) && forall i :: 0 <= i < |t.frames| ==> t.frames[i] < FRAMES
    ensures LinkedFrom(StartedState(s, c, cmd, t).slots, cmd, t.qh)
  {
    hide Link, Built;
    NextFrame(cmd.frame, 0);
    NextFrame(cmd.frame, 1);
    NextFrame(cmd.frame, 2);
    assert |t.frames| > 0 && t.frames[0] in t.frames && (|t.frames| > 1 ==> t.frames[1] in t.frames);
  }

  lemma NextFrame(frame: nat, k: nat)
    ensures (frame % 2048 + k) % 1024 == (frame + k) % 1024
  {
    var a := frame % 2048 + k;
    RemainderOf(frame + k, a / 1024 + 2 * (frame / 2048), a % 1024);
  }

  lemma RemainderOf(x: nat, q: int, r: nat)
    requires r < 1024 && x == 1024 * q + r
    ensures x % 1024 == r
  {
  }

  /** A started transfer as the controller finds it: a SETUP of the eight request bytes, a data stage into the
      caller's buffer when there is one, and a status stage, all active and in the order of their links, behind
      a queue head that the next two frames lead to; a GET_CONFIG is put into the current frame. */
  lemma BeginOnBus(s: State, cmd: Command)
    requires StateInv(s) && s.pending.None? && Begin(s, cmd).pending.Some?
    requires cmd.addr < 0x80 && AsIssued(cmd) && (HasData(cmd.kind) ==> 1 <= cmd.length <= 0x800)
    ensures var s1 := Begin(s, cmd); var t := s1.pending.value; var data := HasData(cmd.kind);
      && |t.stages| == (if data then 3 else 2) && IsQh(s1.mem, t.qh)
      && HardwareOrder(s1.mem, s1.mem[t.qh].qh.vertical, |t.stages| + 1) == t.stages
      && t.packet in s1.mem && s1.mem[t.packet] == Bytes(SetupBytes(cmd))
      && StageAt(s1.mem, t.stages[0], cmd.addr, 0x2D, 8, t.packet)
      && (data ==> StageAt(s1.mem, t.stages[1], cmd.addr, 0x69, cmd.length as nat, cmd.target))
      && StageAt(s1.mem, t.stages[|t.stages| - 1], cmd.addr, if data then 0xE1 else 0x69, 1, 0)
      && LinkedFrom(s1.slots, cmd, t.qh)
  {
    hide CoreInv, Shapes, AcquireChain, OwnersOf, Complete, Built, Link, StageAt, HardwareOrder, WriteSlots;
    hide SetupBytes, FramesFor, TransferNew, Grown;
    AcquiredChain(CoreOf(s), cmd);
    var (c, packet, ps) := AcquireChain(CoreOf(s), cmd);
    assert packet != NULL && Complete(packet, ps);
    ChainTransfer(CoreOf(s), c, cmd, packet, ps);
    ChainGrown(CoreOf(s), c, cmd, packet, ps);
    GrownInv(CoreOf(s), c);
    var t := TransferFor(cmd, packet, ps);
    FramesInRange(CoreOf(s), c, t);
    assert Begin(s, cmd) == StartedState(s, c, cmd, t);
    hide Begin, LinkedFrom;
    StagesApart(CoreOf(s), c, t);
    StagesInOrder(s, c, cmd, t);
    StagesDecode(c.mem, cmd, t);
    StartedSlots(s, c, cmd, t);
  }

  lemma GrownInv(c0: Core, c: Core)
    requires Grown(c0, c)
    ensures CoreInv(c)
  {
  }
}
