/**
 The five control transfers, each split into what happens before its wait for the hardware
 (`Begin`) and what happens after it (`Finish`).
 */
module UhciTransfers {
  import opened Heap
  import opened UhciWords
  import opened Resources
  import opened FrameList
  import opened UhciModel
  import opened UhciPipes

  /** `addr` is the device address (0 for SET_ADDRESS), `argument` the address or configuration
      value being set, `length` the number of data bytes, `target` where they go, `frame` the
      frame number register. */
  datatype Command = Command(kind: Kind, addr: bv8, argument: bv8, length: bv16, target: nat, frame: nat)

  const PACKET_SIZE: nat := 8

  predicate HasData(kind: Kind) {
    kind.GetDevice? || kind.GetConfig? || kind.GetFullConfig?
  }

  /** GET_CONFIG in both forms uses the current frame only; the others use the next two. */
  function FramesFor(kind: Kind, frame: nat): seq<nat> {
    if kind.GetConfig? || kind.GetFullConfig? then [frame % 2048 % FRAMES]
    else [(frame % 2048 + 1) % FRAMES, (frame % 2048 + 2) % FRAMES]
  }

  function SetupBytes(c: Command): seq<bv8> {
    match c.kind
    case SetAddress => [0x00, 0x05, c.argument, 0, 0, 0, 0, 0]
    case GetDevice => [0x80, 0x06, 0, 1, 0, 0, 18, 0]
    case GetConfig => [0x80, 0x06, 0, 2, 0, 0, 9, 0]
    case GetFullConfig => [0x80, 0x06, 0, 2, 0, 0, (c.length & 0xFF) as bv8, (c.length >> 8) as bv8]
    case SetConfig => [0x00, 0x09, c.argument, 0, 0, 0, 0, 0]
  }

  function PacketWants(c: Command): seq<Want> {
    [Want(PACKET_SIZE, Bytes(SetupBytes(c)))]
  }

  function ChainWants(kind: Kind): seq<Want> {
    if HasData(kind) then [TD_WANT, TD_WANT, TD_WANT, QH_WANT] else [TD_WANT, TD_WANT, QH_WANT]
  }

  // ---- Building the chain ----

  function SetupTd(c: Command, next: nat, packet: nat): Td {
    Td(TdLink(next), TD_ACTIVE, ControlToken(PID_SETUP, c.addr, 0, 7), packet)
  }

  /** The length field of a data token: one less than the length, wrapping for none. */
  function LengthField(n: bv16): bv32 {
    n as bv32 - 1
  }

  function DataTd(c: Command, next: nat): Td {
    Td(TdLink(next), TD_ACTIVE, ControlToken(PID_IN, c.addr, 1, LengthField(c.length)), c.target)
  }

  /** The status stage of SET_ADDRESS is sent with toggle 0, all others with toggle 1. */
  function StatusTd(c: Command): Td {
    Td(UhciWords.TERMINATE, TD_ACTIVE,
       ControlToken(if HasData(c.kind) then PID_OUT else PID_IN, c.addr, if c.kind.SetAddress? then 0 else 1, 0), 0)
  }

  /** The lengths and addresses the five functions pass. */
  predicate AsIssued(c: Command) {
    match c.kind
    case SetAddress => c.addr == 0
    case GetDevice => c.length == 18
    case GetConfig => c.length == 9
    case _ => true
  }

  /** wLength of the setup packet. */
  function SetupLength(c: Command): bv16 {
    SetupBytes(c)[6] as bv16 | (SetupBytes(c)[7] as bv16 << 8)
  }

  /** The controller reads an 8-byte SETUP with toggle 0. */
  lemma SetupStage(c: Command, next: nat, packet: nat)
    requires c.addr < 0x80
    ensures var t := SetupTd(c, next, packet).token;
      && TokenPid(t) == PID_SETUP && TokenAddress(t) == c.addr && TokenEndpoint(t) == 0
      && !TokenToggle(t) && TokenLength(t) == 8
  {
    hide ControlToken, TokenPid, TokenAddress, TokenEndpoint, TokenToggle, TokenLength, TdLink;
    ControlTokenFields(PID_SETUP, c.addr, 0, 7);
  }

  /** Then an IN with toggle 1 that asks for exactly the length the setup packet announces. */
  lemma DataStage(c: Command, next: nat)
    requires c.addr < 0x80 && AsIssued(c) && HasData(c.kind) && 1 <= c.length <= 0x800
    ensures var t := DataTd(c, next).token;
      && TokenPid(t) == PID_IN && TokenAddress(t) == c.addr && TokenEndpoint(t) == 0 && TokenToggle(t)
      && TokenLength(t) == c.length
    ensures SetupLength(c) == c.length
  {
    hide ControlToken, TokenPid, TokenAddress, TokenEndpoint, TokenToggle, TokenLength, TdLink, SetupLength;
    LengthFields(c.length);
    ControlTokenFields(PID_IN, c.addr, 1, c.length as bv32 - 1);
    AnnouncedLength(c);
  }

  lemma AnnouncedLength(c: Command)
    requires AsIssued(c) && HasData(c.kind)
    ensures SetupLength(c) == c.length
  {
    LengthFields(c.length);
  }

  /** Then a status stage in the other direction, with toggle 1 except for SET_ADDRESS; its length
      field says one byte, not none. */
  lemma StatusStage(c: Command)
    requires c.addr < 0x80
    ensures var t := StatusTd(c).token;
      && TokenPid(t) == (if HasData(c.kind) then PID_OUT else PID_IN) && TokenAddress(t) == c.addr
      && TokenEndpoint(t) == 0 && TokenToggle(t) == !c.kind.SetAddress? && TokenLength(t) == 1
  {
    hide ControlToken, TokenPid, TokenAddress, TokenEndpoint, TokenToggle, TokenLength, HasData;
    ControlTokenFields(if HasData(c.kind) then PID_OUT else PID_IN, c.addr, if c.kind.SetAddress? then 0 else 1, 0);
  }

  lemma ControlTokenFields(pid: bv32, addr: bv8, toggle: bv32, m1: bv32)
    requires pid < 0x100 && addr < 0x80 && toggle < 2 && m1 < 0x800
    ensures var t := ControlToken(pid, addr, toggle, m1);
      && TokenPid(t) == pid && TokenAddress(t) == addr && TokenEndpoint(t) == 0
      && TokenToggle(t) == (toggle == 1) && TokenLength(t) == m1 as bv16 + 1
  {
  }

  lemma LengthFields(n: bv16)
    ensures (n & 0xFF) as bv8 as bv16 | ((n >> 8) as bv8 as bv16 << 8) == n
    ensures 1 <= n <= 0x800 ==> n as bv32 - 1 < 0x800 && (n as bv32 - 1) as bv16 + 1 == n
  {
  }

  function Built(mem: map<nat, Object>, c: Command, t: Transfer): map<nat, Object>
    requires |t.stages| == if HasData(c.kind) then 3 else 2
  {
    var head := mem[t.qh := QhObject(Qh(UhciWords.TERMINATE, t.stages[0]))];
    if HasData(c.kind) then
      head[t.stages[0] := TdObject(SetupTd(c, t.stages[1], t.packet))]
          [t.stages[1] := TdObject(DataTd(c, t.stages[2]))]
          [t.stages[2] := TdObject(StatusTd(c))]
    else
      head[t.stages[0] := TdObject(SetupTd(c, t.stages[1], t.packet))]
          [t.stages[1] := TdObject(StatusTd(c))]
  }

  /** Write `word` to each listed slot. */
  function WriteSlots(slots: seq<nat>, frames: seq<nat>, word: nat): (r: seq<nat>)
    requires |slots| == FRAMES && forall i :: 0 <= i < |frames| ==> frames[i] < FRAMES
    ensures |r| == FRAMES
    ensures forall f :: 0 <= f < FRAMES ==> r[f] == if f in frames then word else slots[f]
  {
    seq(FRAMES, f requires 0 <= f < FRAMES => if f in frames then word else slots[f])
  }

  // ---- Begin ----

  /** Allocate the packet, then the descriptors and the queue head. `ps` is empty when the packet
      could not be had; blocks obtained before a failure are not given back. */
  ghost function AcquireChain(c0: Core, cmd: Command): (r: (Core, nat, seq<nat>))
    requires CoreInv(c0)
  {
    hide CoreInv, FreshIn;
    SmallWants(cmd.kind);
    var (c1, packets) := ObtainAll(c0, PacketWants(cmd));
    if packets[0] == NULL then (c1, NULL, [])
    else
      ObtainAllKeepsInv(c0, PacketWants(cmd));
      var (c2, ps) := ObtainAll(c1, ChainWants(cmd.kind));
      (c2, packets[0], ps)
  }

  predicate Complete(packet: nat, ps: seq<nat>) {
    packet != NULL && forall i :: 0 <= i < |ps| ==> ps[i] != NULL
  }

  function TransferFor(cmd: Command, packet: nat, ps: seq<nat>): Transfer
    requires ps != []
  {
    Transfer(cmd.kind, packet, ps[..|ps| - 1], ps[|ps| - 1], FramesFor(cmd.kind, cmd.frame))
  }

  function StartedState(s: State, c: Core, cmd: Command, t: Transfer): State
    requires |t.stages| == (if HasData(cmd.kind) then 3 else 2) && |c.slots| == FRAMES
    requires forall i :: 0 <= i < |t.frames| ==> t.frames[i] < FRAMES
  {
    State(c.heap, WriteSlots(c.slots, t.frames, QhLink(t.qh)), Built(c.mem, cmd, t), s.pipes, Some(t), s.delivered)
  }

  /** Everything a transfer does before it waits. */
  ghost function Begin(s: State, cmd: Command): State
    requires StateInv(s) && s.pending.None?
  {
    var (c, packet, ps) := AcquireChain(CoreOf(s), cmd);
    AcquiredChain(CoreOf(s), cmd);
    if packet == NULL || !Complete(packet, ps) then WithCore(s, c)
    else
      hide CoreInv, Shapes, AcquireChain;
      ChainTransfer(CoreOf(s), c, cmd, packet, ps);
      StartedState(s, c, cmd, TransferFor(cmd, packet, ps))
  }

  /** What the allocations of a transfer leave behind. */
  ghost predicate ChainObtained(c0: Core, c: Core, cmd: Command, packet: nat, ps: seq<nat>) {
    && Grown(c0, c) && |c.slots| == FRAMES
    && (packet != NULL ==> |ps| == |ChainWants(cmd.kind)|)
    && NewObject(c0, c, packet, PacketWants(cmd)[0].obj)
    && (forall i :: 0 <= i < |ps| && i < |ChainWants(cmd.kind)| ==>
          NewObject(c0, c, ps[i], ChainWants(cmd.kind)[i].obj))
    && (forall i, j :: 0 <= i < j < |ps| && ps[i] == ps[j] ==> ps[i] == NULL)
    && (forall i :: 0 <= i < |ps| && ps[i] == packet ==> packet == NULL)
  }

  lemma AcquiredChain(c0: Core, cmd: Command)
    requires CoreInv(c0)
    ensures var (c, packet, ps) := AcquireChain(c0, cmd); ChainObtained(c0, c, cmd, packet, ps)
  {
    hide CoreInv, FreshIn, ObtainAll, ChainObtained, ChainWants;
    ObtainAllKeepsInv(c0, PacketWants(cmd));
    var (c1, packets) := ObtainAll(c0, PacketWants(cmd));
    assert packets == [packets[0]];
    if packets[0] == NULL {
      assert AcquireChain(c0, cmd) == (c1, NULL, []);
      NoChain(c0, c1, cmd);
    } else {
      SmallWants(cmd.kind);
      ObtainAllKeepsInv(c1, ChainWants(cmd.kind));
      var (c2, ps) := ObtainAll(c1, ChainWants(cmd.kind));
      assert AcquireChain(c0, cmd) == (c2, packets[0], ps);
      FullChain(c0, c1, c2, cmd, packets[0], ps);
    }
  }

  lemma SmallWants(kind: Kind)
    ensures forall i :: 0 <= i < |ChainWants(kind)| ==> ChainWants(kind)[i].size <= ALLOCATOR_SIZE
  {
  }

  lemma NoChain(c0: Core, c1: Core, cmd: Command)
    requires CoreInv(c1) && c1.slots == c0.slots && c1.owners == c0.owners
    requires FreshIn(c0.mem, c1.mem, PacketWants(cmd), [NULL])
    ensures ChainObtained(c0, c1, cmd, NULL, [])
  {
  }

  lemma FullChain(c0: Core, c1: Core, c2: Core, cmd: Command, packet: nat, ps: seq<nat>)
    requires CoreInv(c2) && c2.slots == c0.slots && c2.owners == c0.owners && packet != NULL
    requires FreshIn(c0.mem, c1.mem, PacketWants(cmd), [packet]) && FreshIn(c1.mem, c2.mem, ChainWants(cmd.kind), ps)
    ensures ChainObtained(c0, c2, cmd, packet, ps)
  {
    hide CoreInv, FreshIn, ChainWants, SlotsOk, SetupBytes;
    InvSlotsOk(c2);
    SlotsLength(c2);
    ChainFresh(c0.mem, c1.mem, c2.mem, PacketWants(cmd)[0], packet, ChainWants(cmd.kind), ps);
  }

  lemma SlotsLength(c: Core)
    requires CoreInv(c)
    ensures |c.slots| == FRAMES
  {
  }

  lemma ChainFresh(mem: map<nat, Object>, mem1: map<nat, Object>, mem2: map<nat, Object>,
                   want: Want, packet: nat, wants: seq<Want>, ps: seq<nat>)
    requires FreshIn(mem, mem1, [want], [packet]) && packet != NULL && FreshIn(mem1, mem2, wants, ps)
    ensures packet !in mem && packet in mem2 && mem2[packet] == want.obj
    ensures forall q :: q in mem ==> q in mem2 && mem2[q] == mem[q]
    ensures |ps| == |wants| && forall i :: 0 <= i < |ps| && ps[i] != NULL ==>
      ps[i] !in mem && ps[i] in mem2 && mem2[ps[i]] == wants[i].obj && ps[i] != packet
    ensures forall i, j :: 0 <= i < j < |ps| && ps[i] == ps[j] ==> ps[i] == NULL
  {
    assert [packet][0] == packet;
  }

  // ---- Begin keeps the invariant ----

  lemma WantedKinds(kind: Kind)
    ensures |ChainWants(kind)| == if HasData(kind) then 4 else 3
    ensures forall i :: 0 <= i < |ChainWants(kind)| - 1 ==> ChainWants(kind)[i] == TD_WANT
    ensures ChainWants(kind)[|ChainWants(kind)| - 1] == QH_WANT
  {
  }

  /** The objects of a started transfer: new, distinct and of the right kinds. */
  ghost predicate TransferNew(c0: Core, c: Core, t: Transfer) {
    && |t.stages| > 0
    && (forall i :: 0 <= i < |t.stages| ==>
          t.stages[i] !in c0.mem && t.stages[i] in c.mem && c.mem[t.stages[i]].TdObject?)
    && t.qh !in c0.mem && IsQh(c.mem, t.qh)
    && t.packet !in c0.mem && t.packet in c.mem && c.mem[t.packet].Bytes?
    && NoDuplicates(TransferOwner(t).ptrs)
    && 1 <= |t.frames| <= 2 && (forall i :: 0 <= i < |t.frames| ==> t.frames[i] < FRAMES)
  }

  lemma ChainTransfer(c0: Core, c: Core, cmd: Command, packet: nat, ps: seq<nat>)
    requires ChainObtained(c0, c, cmd, packet, ps) && Complete(packet, ps)
    ensures ps != [] && |TransferFor(cmd, packet, ps).stages| == if HasData(cmd.kind) then 3 else 2
    ensures TransferNew(c0, c, TransferFor(cmd, packet, ps))
  {
    hide Grown, ChainWants;
    WantedKinds(cmd.kind);
    var t := TransferFor(cmd, packet, ps);
    var n := |ps| - 1;
    assert NewObject(c0, c, ps[n], ChainWants(cmd.kind)[n].obj);
    forall i | 0 <= i < n ensures t.stages[i] !in c0.mem && t.stages[i] in c.mem && c.mem[t.stages[i]].TdObject? {
      assert NewObject(c0, c, ps[i], ChainWants(cmd.kind)[i].obj);
    }
    var all := TransferOwner(t).ptrs;
    assert forall i :: 0 <= i <= n ==> all[i] == ps[i];
    assert all[n + 1] == packet;
  }

  /** Overwriting objects by objects of the same kinds. */
  ghost predicate SameKinds(mem: map<nat, Object>, mem': map<nat, Object>) {
    && (forall q :: q in mem' <==> q in mem)
    && (forall q :: q in mem ==> (mem'[q].QhObject? <==> mem[q].QhObject?) && (mem'[q].TdObject? <==> mem[q].TdObject?))
  }

  lemma SameKindsKeepsInv(c: Core, mem': map<nat, Object>)
    requires CoreInv(c) && SameKinds(c.mem, mem')
    ensures CoreInv(c.(mem := mem'))
  {
  }

  lemma BuiltSameKinds(mem: map<nat, Object>, cmd: Command, t: Transfer)
    requires |t.stages| == if HasData(cmd.kind) then 3 else 2
    requires IsQh(mem, t.qh) && forall i :: 0 <= i < |t.stages| ==> t.stages[i] in mem && mem[t.stages[i]].TdObject?
    ensures SameKinds(mem, Built(mem, cmd, t))
    ensures forall q :: q in mem && q != t.qh && q !in t.stages ==> Built(mem, cmd, t)[q] == mem[q]
  {
  }

  lemma NewPointers(c0: Core, c: Core, t: Transfer)
    requires TransferNew(c0, c, t)
    ensures var ps := TransferOwner(t).ptrs;
      && NoDuplicates(ps) && t.qh in ps && IsQh(c.mem, t.qh)
      && forall i :: 0 <= i < |ps| ==> ps[i] in c.mem && ps[i] !in c0.mem
  {
    hide NoDuplicates;
    var ps := TransferOwner(t).ptrs;
    var n := |t.stages|;
    assert ps[n] == t.qh && ps[n + 1] == t.packet && forall i :: 0 <= i < n ==> ps[i] == t.stages[i];
  }

  /** Linking a queue head that no slot links to yet. */
  lemma WriteRelinks(slots: seq<nat>, t: Transfer)
    requires |slots| == FRAMES && forall i :: 0 <= i < |t.frames| ==> t.frames[i] < FRAMES
    ensures var slots' := WriteSlots(slots, t.frames, QhLink(t.qh));
      && Relinked(slots, slots', t.qh, TransferOwner(t).region)
      && (Unlinked(slots, t.qh) ==> Confined(slots', t.qh, TransferOwner(t).region))
  {
    hide QhLink;
  }

  lemma NewUnowned(c0: Core, c: Core, ps: seq<nat>)
    requires CoreInv(c0) && Grown(c0, c) && forall i :: 0 <= i < |ps| ==> ps[i] !in c0.mem
    ensures forall i :: 0 <= i < |ps| ==> Unowned(c.owners, ps[i])
  {
    hide CoreInv, Unowned;
    forall i | 0 <= i < |ps| ensures Unowned(c.owners, ps[i]) {
      FreshUnowned(c0, ps[i]);
    }
  }

  lemma OwnerParts(slots: seq<nat>, mem: map<nat, Object>, o: Owner)
    requires NoDuplicates(o.ptrs) && (forall i :: 0 <= i < |o.ptrs| ==> o.ptrs[i] in mem)
    requires o.qh in o.ptrs && IsQh(mem, o.qh) && Confined(slots, o.qh, o.region)
    ensures OwnerOk(slots, mem, o)
  {
    hide NoDuplicates, Confined;
  }

  /** A new queue head linked from the given slots and installed as owner. */
  lemma LinkNewOwner(c0: Core, c: Core, t: Transfer)
    requires CoreInv(c0) && Grown(c0, c) && TransferNew(c0, c, t) && MAX_PIPES !in c.owners
    ensures |c.slots| == FRAMES
    ensures CoreInv(c.(slots := WriteSlots(c.slots, t.frames, QhLink(t.qh)),
                       owners := c.owners[MAX_PIPES := TransferOwner(t)]))
  {
    hide CoreInv, NoDuplicates, Unowned, Unlinked, Relinked, Confined, OwnerOk, QhLink, TransferOwner;
    SlotsLength(c);
    NewPointers(c0, c, t);
    NewDisposable(c0, c, t.qh);
    WriteRelinks(c.slots, t);
    var slots' := WriteSlots(c.slots, t.frames, QhLink(t.qh));
    var o := TransferOwner(t);
    OwnerFields(t);
    hide TransferNew, WriteSlots;
    UnownedNotHead(c, t.qh);
    RelinkKeepsInv(c, slots', t.qh, o.region);
    NewUnowned(c0, c, o.ptrs);
    OwnerParts(slots', c.mem, o);
    InstallKeepsInv(c.(slots := slots'), MAX_PIPES, o);
  }

  lemma OwnerFields(t: Transfer)
    ensures TransferOwner(t).qh == t.qh
  {
  }

  lemma StartedKeepsInv(s: State, c: Core, cmd: Command, t: Transfer)
    requires Shapes(s) && CoreInv(CoreOf(s)) && s.pending.None? && Grown(CoreOf(s), c) && TransferNew(CoreOf(s), c, t)
    requires |t.stages| == if HasData(cmd.kind) then 3 else 2
    ensures |c.slots| == FRAMES && StateInv(StartedState(s, c, cmd, t))
  {
    NoTransferOwner(s);
    hide CoreInv, OwnersOf;
    LinkNewOwner(CoreOf(s), c, t);
    var c1 := c.(slots := WriteSlots(c.slots, t.frames, QhLink(t.qh)),
                 owners := c.owners[MAX_PIPES := TransferOwner(t)]);
    BuiltSameKinds(c.mem, cmd, t);
    SameKindsKeepsInv(c1, Built(c.mem, cmd, t));
    var s' := StartedState(s, c, cmd, t);
    PendingSet(s, Some(t));
    OwnersFrame(s.(pending := Some(t)), s');
    assert CoreOf(s') == c1.(mem := Built(c.mem, cmd, t));
    StartedShapes(s, c, cmd, t);
  }

  lemma NoTransferOwner(s: State)
    requires |s.pipes| == MAX_PIPES && s.pending.None?
    ensures MAX_PIPES !in OwnersOf(s)
  {
  }

  lemma StartedShapes(s: State, c: Core, cmd: Command, t: Transfer)
    requires Shapes(s) && Grown(CoreOf(s), c) && TransferNew(CoreOf(s), c, t) && |c.slots| == FRAMES
    requires |t.stages| == if HasData(cmd.kind) then 3 else 2
    ensures Shapes(StartedState(s, c, cmd, t))
  {
    hide CoreInv, OwnersOf, Built;
    BuiltSameKinds(c.mem, cmd, t);
    var mem' := Built(c.mem, cmd, t);
    forall i | 0 <= i < MAX_PIPES ensures PipeShape(mem', s.pipes[i]) {
      assert PipeShape(s.mem, s.pipes[i]);
    }
    forall i | 0 <= i < |t.stages| ensures t.stages[i] in mem' && mem'[t.stages[i]].TdObject? {
      assert t.stages[i] in c.mem && c.mem[t.stages[i]].TdObject?;
    }
    hide PipeShape;
    assert NoDuplicates(TransferOwner(t).ptrs);
  }

  /** Starting a transfer keeps the invariant, also while the hardware works on it. */
  lemma BeginKeepsInv(s: State, cmd: Command)
    requires StateInv(s) && s.pending.None?
    ensures StateInv(Begin(s, cmd))
  {
    hide CoreInv, Shapes, AcquireChain, ChainObtained, OwnersOf, StartedState, Complete;
    AcquiredChain(CoreOf(s), cmd);
    var (c, packet, ps) := AcquireChain(CoreOf(s), cmd);
    ChainGrown(CoreOf(s), c, cmd, packet, ps);
    if packet == NULL || !Complete(packet, ps) {
      LeakKeepsInv(s, c);
    } else {
      ChainTransfer(CoreOf(s), c, cmd, packet, ps);
      StartedKeepsInv(s, c, cmd, TransferFor(cmd, packet, ps));
    }
  }

  lemma BeginFields(s: State, cmd: Command)
    requires StateInv(s) && s.pending.None?
    ensures Begin(s, cmd).pipes == s.pipes && Begin(s, cmd).delivered == s.delivered
  {
    hide CoreInv, Shapes, AcquireChain, ChainObtained, OwnersOf, Built, WriteSlots, TransferNew;
    AcquiredChain(CoreOf(s), cmd);
    var (c, packet, ps) := AcquireChain(CoreOf(s), cmd);
    if Complete(packet, ps) {
      ChainTransfer(CoreOf(s), c, cmd, packet, ps);
    }
  }

  lemma ChainGrown(c0: Core, c: Core, cmd: Command, packet: nat, ps: seq<nat>)
    requires ChainObtained(c0, c, cmd, packet, ps)
    ensures Grown(c0, c)
  {
  }

  lemma LeakKeepsInv(s: State, c: Core)
    requires StateInv(s) && Grown(CoreOf(s), c)
    ensures StateInv(WithCore(s, c))
  {
    hide CoreInv, OwnersOf;
    ShapesGrow(s, c.mem);
    OwnersFrame(s, WithCore(s, c));
  }

  // ---- The chain as the hardware sees it ----

  /** The descriptors reached from a link word, in the order in which the controller runs them. */
  function HardwareOrder(mem: map<nat, Object>, w: nat, fuel: nat): seq<nat>
    decreases fuel
  {
    if fuel == 0 || IsTerminate(w) || Pointer(w) !in mem || !mem[Pointer(w)].TdObject? then []
    else [Pointer(w)] + HardwareOrder(mem, mem[Pointer(w)].td.link, fuel - 1)
  }

  lemma TdLinkFollows(p: nat)
    requires Linkable(p)
    ensures Pointer(TdLink(p)) == p && !IsTerminate(TdLink(p)) && Pointer(p) == p && !IsTerminate(p)
  {
    hide TdLink, Pointer, IsTerminate;
    TdLinkOfLinkable(p);
    WordParts(p, DEPTH_FIRST);
    WordParts(p, 0);
  }

  /** The queue head of a started transfer leads through its stages in order and ends there. */
  lemma StagesInOrder(s: State, c: Core, cmd: Command, t: Transfer)
    requires CoreInv(c) && TransferNew(CoreOf(s), c, t) && |c.slots| == FRAMES
    requires |t.stages| == if HasData(cmd.kind) then 3 else 2
    ensures var s' := StartedState(s, c, cmd, t);
      IsQh(s'.mem, t.qh) && HardwareOrder(s'.mem, s'.mem[t.qh].qh.vertical, |t.stages| + 1) == t.stages
  {
    hide CoreInv, TransferNew, OwnersOf, HardwareOrder, Linkable, IsQh;
    StagesDistinct(CoreOf(s), c, t);
    forall i | 0 <= i < |t.stages| ensures Linkable(t.stages[i]) {
      ObjectLinkable(c, t.stages[i]);
    }
    StagesWalk(c.mem, cmd, t);
  }

  lemma StagesDistinct(c0: Core, c: Core, t: Transfer)
    requires TransferNew(c0, c, t)
    ensures NoDuplicates(t.stages) && forall i :: 0 <= i < |t.stages| ==> t.stages[i] in c.mem && t.stages[i] != t.qh
  {
    var all := TransferOwner(t).ptrs;
    assert all[|t.stages|] == t.qh && forall i :: 0 <= i < |t.stages| ==> all[i] == t.stages[i];
  }

  lemma StagesWalk(mem: map<nat, Object>, cmd: Command, t: Transfer)
    requires |t.stages| == if HasData(cmd.kind) then 3 else 2
    requires forall i :: 0 <= i < |t.stages| ==> Linkable(t.stages[i]) && t.stages[i] != t.qh
    requires NoDuplicates(t.stages)
    ensures var mem' := Built(mem, cmd, t);
      IsQh(mem', t.qh) && HardwareOrder(mem', mem'[t.qh].qh.vertical, |t.stages| + 1) == t.stages
  {
    var mem' := Built(mem, cmd, t);
    TdLinkFollows(t.stages[0]);
    TdLinkFollows(t.stages[1]);
    var w0 := mem'[t.stages[0]].td.link;
    var w1 := mem'[t.stages[1]].td.link;
    assert w0 == TdLink(t.stages[1]);
    hide Link, Pointer, ControlToken;
    if HasData(cmd.kind) {
      TdLinkFollows(t.stages[2]);
      assert w1 == TdLink(t.stages[2]) && mem'[t.stages[2]].td.link == UhciWords.TERMINATE;
      assert HardwareOrder(mem', UhciWords.TERMINATE, 1) == [];
      assert HardwareOrder(mem', w1, 2) == [t.stages[2]];
      assert HardwareOrder(mem', w0, 3) == [t.stages[1], t.stages[2]];
      assert t.stages == [t.stages[0], t.stages[1], t.stages[2]];
    } else {
      assert w1 == UhciWords.TERMINATE;
      assert HardwareOrder(mem', UhciWords.TERMINATE, 1) == [];
      assert HardwareOrder(mem', w0, 2) == [t.stages[1]];
      assert t.stages == [t.stages[0], t.stages[1]];
    }
  }
}
