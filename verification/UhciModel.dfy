/**
 The UHCI driver as a state machine: the frame list, the heap objects, four keyboard pipes
 and at most one control transfer in progress, which is split at its wait for the hardware.
 */
module UhciModel {
  import opened Heap
  import opened UhciWords
  import opened Resources
  import opened FrameList
  import Stride

  const MAX_PIPES: nat := 4

  datatype Option<T> = None | Some(value: T)

  datatype Pipe = Pipe(inUse: bool, devAddr: bv8, ep: bv8, interval: nat, devIndex: nat, toggle: bv8,
                       firstSlot: nat, buf: nat, td: nat, qh: nat)

  const NO_PIPE: Pipe := Pipe(false, 0, 0, 0, 0, 0, 0, NULL, NULL, NULL)

  datatype Kind = SetAddress | GetDevice | GetConfig | GetFullConfig | SetConfig

  /** A control transfer in progress: its setup packet, its descriptors in hardware order, its
      queue head and the slots that link to it. */
  datatype Transfer = Transfer(kind: Kind, packet: nat, stages: seq<nat>, qh: nat, frames: seq<nat>)

  /** `delivered[i]` are the reports handed to the keyboard layer since pipe `i` was opened. */
  datatype State = State(heap: Heap, slots: seq<nat>, mem: map<nat, Object>, pipes: seq<Pipe>,
                         pending: Option<Transfer>, delivered: seq<seq<seq<bv8>>>)

  // ---- Owners ----

  function Region(first: nat, interval: nat): set<nat> {
    set f | 0 <= f < FRAMES && Stride.Owns(first, interval, FRAMES, f)
  }

  function PipeOwner(p: Pipe): Owner {
    Owner([p.td, p.qh, p.buf], p.qh, Region(p.firstSlot, p.interval))
  }

  function TransferOwner(t: Transfer): Owner {
    Owner(t.stages + [t.qh, t.packet], t.qh, set f | f in t.frames)
  }

  predicate HasOwner(s: State, k: nat) {
    if k < |s.pipes| then s.pipes[k].inUse else k == MAX_PIPES && s.pending.Some?
  }

  function OwnerOf(s: State, k: nat): Owner
    requires HasOwner(s, k)
  {
    if k < |s.pipes| then PipeOwner(s.pipes[k]) else TransferOwner(s.pending.value)
  }

  function OwnersOf(s: State): map<nat, Owner> {
    map k: nat | 0 <= k <= MAX_PIPES && HasOwner(s, k) :: OwnerOf(s, k)
  }

  function CoreOf(s: State): Core {
    Core(s.heap, s.slots, s.mem, OwnersOf(s))
  }

  function WithCore(s: State, c: Core): State {
    s.(heap := c.heap, slots := c.slots, mem := c.mem)
  }

  // ---- The invariant ----

  ghost predicate PipeShape(mem: map<nat, Object>, p: Pipe) {
    p.inUse ==>
      && 0 < p.interval && p.firstSlot < FRAMES
      && p.td in mem && mem[p.td].TdObject?
      && p.qh in mem && mem[p.qh].QhObject?
      && p.buf in mem && mem[p.buf].Bytes?
  }

  ghost predicate TransferShape(mem: map<nat, Object>, t: Transfer) {
    && 1 <= |t.frames| <= 2 && (forall i :: 0 <= i < |t.frames| ==> t.frames[i] < FRAMES)
    && (forall i :: 0 <= i < |t.stages| ==> t.stages[i] in mem && mem[t.stages[i]].TdObject?)
    && t.packet in mem && mem[t.packet].Bytes?
  }

  ghost predicate Shapes(s: State) {
    && |s.pipes| == MAX_PIPES && |s.delivered| == MAX_PIPES
    && (forall i :: 0 <= i < MAX_PIPES ==> PipeShape(s.mem, s.pipes[i]))
    && (s.pending.Some? ==> TransferShape(s.mem, s.pending.value))
  }

  ghost predicate StateInv(s: State) {
    Shapes(s) && CoreInv(CoreOf(s))
  }

  /** The safety property: every slot is terminated or links to a live queue head. */
  ghost predicate SlotsSafe(s: State) {
    forall f :: 0 <= f < |s.slots| ==>
      s.slots[f] == UhciWords.TERMINATE ||
      exists q :: q in s.mem && s.mem[q].QhObject? && Live(s.heap, q) && s.slots[f] == QhLink(q)
  }

  lemma StateCounts(s: State)
    requires StateInv(s)
    ensures |s.pipes| == MAX_PIPES && |s.delivered| == MAX_PIPES
  {
  }

  lemma InvSlotsSafe(s: State)
    requires StateInv(s)
    ensures SlotsSafe(s)
  {
  }

  // ---- Owners after a change of one pipe or of the transfer ----

  lemma PipeSet(s: State, i: nat, p: Pipe)
    requires |s.pipes| == MAX_PIPES && i < MAX_PIPES
    ensures OwnersOf(s.(pipes := s.pipes[i := p])) ==
      if p.inUse then OwnersOf(s)[i := PipeOwner(p)] else OwnersOf(s) - {i}
  {
  }

  lemma PendingSet(s: State, t: Option<Transfer>)
    requires |s.pipes| == MAX_PIPES
    ensures OwnersOf(s.(pending := t)) ==
      if t.Some? then OwnersOf(s)[MAX_PIPES := TransferOwner(t.value)] else OwnersOf(s) - {MAX_PIPES}
  {
  }

  /** Fields the owners do not depend on. */
  lemma OwnersFrame(s: State, s': State)
    requires s'.pipes == s.pipes && s'.pending == s.pending
    ensures OwnersOf(s') == OwnersOf(s)
  {
  }
}
