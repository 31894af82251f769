/**
 What a whole control transfer leaves behind: which blocks are still allocated after it, exactly,
 and when it restores the frame list.
 */
module UhciLeaks {
  import opened Heap
  import opened UhciWords
  import opened Resources
  import opened FrameList
  import opened UhciModel
  import opened UhciPipes
  import opened UhciTransfers
  import opened UhciFinish

  lemma ElementsSplit(ps: seq<nat>)
    requires ps != []
    ensures Elements(ps) == {ps[0]} + Elements(ps[1..])
  {
  }

  /** Releasing removes exactly the objects named. */
  lemma {:induction false} ReleaseAllObjects(c: Core, ps: seq<nat>)
    requires forall i :: 0 <= i < |ps| ==> ps[i] == NULL || ps[i] > HEADER
    ensures ReleaseAll(c, ps).mem == c.mem - Elements(ps) && ReleaseAll(c, ps).slots == c.slots
    decreases |ps|
  {
    if ps == [] {
      assert c.mem - Elements(ps) == c.mem;
    } else {
      ReleaseAllObjects(Release(c, ps[0]), ps[1..]);
      ElementsSplit(ps);
      assert c.mem - {ps[0]} - Elements(ps[1..]) == c.mem - ({ps[0]} + Elements(ps[1..]));
    }
  }

  /** `mem'` is `mem` and new objects at exactly the addresses `ps`. */
  ghost predicate Extends(mem: map<nat, Object>, mem': map<nat, Object>, ps: set<nat>) {
    && mem'.Keys == mem.Keys + ps && mem.Keys !! ps
    && forall q :: q in mem ==> mem'[q] == mem[q]
  }

  /** The blocks among `ps` that were obtained. */
  function NonNull(ps: seq<nat>): set<nat> {
    Elements(ps) - {NULL}
  }

  lemma FreshExtends(mem: map<nat, Object>, mem': map<nat, Object>, wants: seq<Want>, ps: seq<nat>)
    requires FreshIn(mem, mem', wants, ps)
    ensures Extends(mem, mem', NonNull(ps))
  {
  }

  lemma ExtendsTwice(mem: map<nat, Object>, mem1: map<nat, Object>, mem2: map<nat, Object>, a: set<nat>, b: set<nat>)
    requires Extends(mem, mem1, a) && Extends(mem1, mem2, b)
    ensures Extends(mem, mem2, a + b)
  {
  }

  /** The allocations of a transfer add exactly the blocks obtained, whether or not some fail. */
  lemma AcquireExtends(c0: Core, cmd: Command)
    requires CoreInv(c0)
    ensures var (c, packet, ps) := AcquireChain(c0, cmd);
      Extends(c0.mem, c.mem, NonNull([packet]) + NonNull(ps))
  {
    hide CoreInv, FreshIn, ObtainAll, ChainWants, Extends, NonNull;
    SmallWants(cmd.kind);
    ObtainAllKeepsInv(c0, PacketWants(cmd));
    var (c1, packets) := ObtainAll(c0, PacketWants(cmd));
    assert packets == [packets[0]];
    FreshExtends(c0.mem, c1.mem, PacketWants(cmd), packets);
    if packets[0] == NULL {
      assert AcquireChain(c0, cmd) == (c1, NULL, []);
      NothingObtained();
      assert NonNull(packets) + {} == NonNull(packets);
    } else {
      ObtainAllKeepsInv(c1, ChainWants(cmd.kind));
      var (c2, ps) := ObtainAll(c1, ChainWants(cmd.kind));
      assert AcquireChain(c0, cmd) == (c2, packets[0], ps);
      FreshExtends(c1.mem, c2.mem, ChainWants(cmd.kind), ps);
      ExtendsTwice(c0.mem, c1.mem, c2.mem, NonNull(packets), NonNull(ps));
    }
  }

  lemma NothingObtained()
    ensures NonNull([]) == {}
  {
  }

  lemma AllObtained(packet: nat, ps: seq<nat>)
    requires Complete(packet, ps)
    ensures NonNull([packet]) == Elements([packet]) && NonNull(ps) == Elements(ps)
  {
  }

  lemma OwnedElements(cmd: Command, packet: nat, ps: seq<nat>)
    requires ps != []
    ensures Elements(TransferOwner(TransferFor(cmd, packet, ps)).ptrs) == Elements([packet]) + Elements(ps)
  {
  }

  lemma BuiltExtends(mem0: map<nat, Object>, mem: map<nat, Object>, cmd: Command, t: Transfer, ps: set<nat>)
    requires |t.stages| == if HasData(cmd.kind) then 3 else 2
    requires Extends(mem0, mem, ps) && t.qh in ps && Elements(t.stages) <= ps
    ensures Extends(mem0, Built(mem, cmd, t), ps)
  {
  }

  /** A started transfer adds exactly its own objects and touches no other. */
  lemma BeginExtends(s: State, cmd: Command)
    requires StateInv(s) && s.pending.None? && Begin(s, cmd).pending.Some?
    ensures var s1 := Begin(s, cmd); var t := s1.pending.value;
      && Extends(s.mem, s1.mem, Elements(TransferOwner(t).ptrs))
      && t.kind == cmd.kind && t.frames == FramesFor(cmd.kind, cmd.frame)
      && |s.slots| == FRAMES && (forall i :: 0 <= i < |t.frames| ==> t.frames[i] < FRAMES)
      && s1.slots == WriteSlots(s.slots, t.frames, QhLink(t.qh))
  {
    hide CoreInv, Shapes, AcquireChain, ChainObtained, OwnersOf, Built, Link, Extends, Elements, Grown;
    hide TransferNew, NonNull;
    AcquiredChain(CoreOf(s), cmd);
    AcquireExtends(CoreOf(s), cmd);
    var (c, packet, ps) := AcquireChain(CoreOf(s), cmd);
    assert packet != NULL && Complete(packet, ps);
    AllObtained(packet, ps);
    ChainTransfer(CoreOf(s), c, cmd, packet, ps);
    ChainGrown(CoreOf(s), c, cmd, packet, ps);
    GrownSlots(CoreOf(s), c);
    var t := TransferFor(cmd, packet, ps);
    FramesInRange(CoreOf(s), c, t);
    OwnedElements(cmd, packet, ps);
    OwnPointers(t);
    BuiltExtends(s.mem, c.mem, cmd, t, Elements(TransferOwner(t).ptrs));
    assert Begin(s, cmd) == StartedState(s, c, cmd, t);
  }

  /** A transfer that fails in its allocations leaves exactly the blocks obtained before the failure
      behind, touches no other object and no slot. */
  lemma FailedBeginLeavesExactly(s: State, cmd: Command)
    requires StateInv(s) && s.pending.None? && Begin(s, cmd).pending.None?
    ensures var (c, packet, ps) := AcquireChain(CoreOf(s), cmd); var s1 := Begin(s, cmd);
      && (packet == NULL || NULL in ps)
      && Extends(s.mem, s1.mem, NonNull([packet]) + NonNull(ps))
      && s1 == s.(heap := s1.heap, mem := s1.mem)
  {
    hide CoreInv, Shapes, AcquireChain, ChainObtained, OwnersOf, Extends, NonNull, Grown;
    AcquireExtends(CoreOf(s), cmd);
    AcquiredChain(CoreOf(s), cmd);
    var (c, packet, ps) := AcquireChain(CoreOf(s), cmd);
    ChainGrown(CoreOf(s), c, cmd, packet, ps);
    GrownSlots(CoreOf(s), c);
  }

  lemma GrownSlots(c0: Core, c: Core)
    requires Grown(c0, c)
    ensures c.slots == c0.slots && |c.slots| == FRAMES
  {
  }

  lemma FramesInRange(c0: Core, c: Core, t: Transfer)
    requires TransferNew(c0, c, t)
    ensures forall i :: 0 <= i < |t.frames| ==> t.frames[i] < FRAMES
  {
  }

  lemma OwnPointers(t: Transfer)
    ensures t.qh in Elements(TransferOwner(t).ptrs) && Elements(t.stages) <= Elements(TransferOwner(t).ptrs)
    ensures Elements(Given(t)) == Elements(TransferOwner(t).ptrs)
      - (if ReturnsPacket(t.kind) then {} else {t.packet} - Elements(t.stages + [t.qh]))
  {
  }

  predicate ReturnsPacket(kind: Kind) {
    kind.SetAddress? || kind.GetFullConfig?
  }

  /** The blocks a transfer never gives back: all of them when it returns early, otherwise the
      setup packet of the three kinds that forget it. */
  function Leaked(t: Transfer, o: Outcome): set<nat> {
    if Abandons(t.kind, o) then Elements(TransferOwner(t).ptrs)
    else if ReturnsPacket(t.kind) then {}
    else {t.packet}
  }

  lemma PacketApart(s: State, t: Transfer)
    requires StateInv(s) && s.pending == Some(t)
    ensures t.packet !in Elements(t.stages + [t.qh])
  {
    hide StateInv;
    TransferOwned(s);
    var all := TransferOwner(t).ptrs;
    var n := |all| - 1;
    assert all[n] == t.packet && forall i :: 0 <= i < n ==> all[i] == (t.stages + [t.qh])[i];
  }

  lemma PendingFrames(s: State)
    requires StateInv(s) && s.pending.Some?
    ensures |s.slots| == FRAMES && forall i :: 0 <= i < |s.pending.value.frames| ==> s.pending.value.frames[i] < FRAMES
  {
  }

  lemma FinishObjects(s: State, o: Outcome)
    requires StateInv(s) && s.pending.Some?
    ensures Finish(s, o).0.mem == s.mem - (Elements(TransferOwner(s.pending.value).ptrs) - Leaked(s.pending.value, o))
    ensures |s.slots| == FRAMES && forall i :: 0 <= i < |s.pending.value.frames| ==> s.pending.value.frames[i] < FRAMES
    ensures var t := s.pending.value;
      Finish(s, o).0.slots ==
        if Terminates(t.kind, o) then WriteSlots(s.slots, t.frames, UhciWords.TERMINATE) else s.slots
  {
    hide StateInv, CoreInv, OwnersOf, Elements, ReleaseAll, OwnerOk, WriteSlots;
    var t := s.pending.value;
    PendingFrames(s);
    GivenAddresses(s);
    PacketApart(s, t);
    OwnPointers(t);
    if Abandons(t.kind, o) {
      assert s.mem - (Elements(TransferOwner(t).ptrs) - Elements(TransferOwner(t).ptrs)) == s.mem;
    } else {
      ReleaseAllObjects(Settled(s, o), Given(t));
    }
  }

  ghost predicate TerminatedAt(slots: seq<nat>, frames: seq<nat>) {
    forall i :: 0 <= i < |frames| && frames[i] < |slots| ==> slots[frames[i]] == UhciWords.TERMINATE
  }

  lemma WriteTwice(slots: seq<nat>, frames: seq<nat>, word: nat)
    requires |slots| == FRAMES && (forall i :: 0 <= i < |frames| ==> frames[i] < FRAMES) && TerminatedAt(slots, frames)
    ensures WriteSlots(WriteSlots(slots, frames, word), frames, UhciWords.TERMINATE) == slots
  {
  }

  lemma ShrinkExtends(mem: map<nat, Object>, mem1: map<nat, Object>, ps: set<nat>, keep: set<nat>)
    requires Extends(mem, mem1, ps) && keep <= ps
    ensures Extends(mem, mem1 - (ps - keep), keep)
  {
  }

  /** A whole transfer, for every kind and every outcome: what was there before is untouched, and
      the only additional blocks are the leaked ones. When the slots it uses were terminated before
      and it terminates them, the frame list is restored. */
  lemma TransferLeavesExactly(s: State, cmd: Command, o: Outcome)
    requires StateInv(s) && s.pending.None? && Begin(s, cmd).pending.Some?
    ensures StateInv(Begin(s, cmd))
    ensures var t := Begin(s, cmd).pending.value; var s2 := Finish(Begin(s, cmd), o).0;
      && Extends(s.mem, s2.mem, Leaked(t, o))
      && |s.slots| == FRAMES && (forall i :: 0 <= i < |t.frames| ==> t.frames[i] < FRAMES)
      && (Terminates(t.kind, o) && TerminatedAt(s.slots, t.frames) ==> s2.slots == s.slots)
  {
    hide StateInv, CoreInv, Begin, Finish, Extends, Elements, Link;
    BeginKeepsInv(s, cmd);
    BeginExtends(s, cmd);
    var s1 := Begin(s, cmd);
    var t := s1.pending.value;
    FinishObjects(s1, o);
    LeakedOwned(t, o);
    ShrinkExtends(s.mem, s1.mem, Elements(TransferOwner(t).ptrs), Leaked(t, o));
    if TerminatedAt(s.slots, t.frames) {
      WriteTwice(s.slots, t.frames, QhLink(t.qh));
    }
  }

  /** In particular: a success leaves the setup packet of GET_DEVICE, short GET_CONFIG and SET_CONFIGURATION; a
      failure leaves that of the short GET_CONFIG, nothing of the full one, and everything of the others. */
  lemma LeftOver(s: State, cmd: Command, o: Outcome)
    requires StateInv(s) && s.pending.None? && Begin(s, cmd).pending.Some?
    ensures StateInv(Begin(s, cmd))
    ensures var t := Begin(s, cmd).pending.value; var left := Finish(Begin(s, cmd), o).0.mem.Keys - s.mem.Keys;
      && s.mem.Keys <= Finish(Begin(s, cmd), o).0.mem.Keys
      && (o.wait == 1 && o.running ==>
            left == if cmd.kind.SetAddress? || cmd.kind.GetFullConfig? then {} else {t.packet})
      && (o.wait != 1 ==>
            left == if cmd.kind.GetConfig? then {t.packet} else if cmd.kind.GetFullConfig? then {}
                    else Elements(t.stages + [t.qh, t.packet]))
  {
    hide StateInv, Begin, Finish, TerminatedAt, WriteSlots, Elements;
    TransferLeavesExactly(s, cmd, o);
    BeginExtends(s, cmd);
  }

  lemma LeakedOwned(t: Transfer, o: Outcome)
    ensures Leaked(t, o) <= Elements(TransferOwner(t).ptrs)
  {
  }
}
