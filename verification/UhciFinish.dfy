/**
 What each control transfer does after its wait. A GET_CONFIG that fails gives its queue head
 back without terminating the slot that links to it; that is the only step of the driver
 that can break the frame list, and it does so exactly when the slot still holds the link.
 */
module UhciFinish {
  import opened Heap
  import opened UhciWords
  import opened Resources
  import opened FrameList
  import opened UhciModel
  import opened UhciPipes
  import opened UhciTransfers

  /** What the driver learns from the hardware: whether the controller runs, the result of the
      wait, and the status word it inspects afterwards. */
  datatype Outcome = Outcome(running: bool, wait: int, status: bv32)

  predicate IsConfigRead(kind: Kind) {
    kind.GetConfig? || kind.GetFullConfig?
  }

  /** The transfer returns early and keeps everything it allocated. */
  predicate Abandons(kind: Kind, o: Outcome) {
    !IsConfigRead(kind) && (o.wait != 1 || (kind.SetAddress? && !o.running))
  }

  /** The slots are terminated before the blocks are given back. */
  predicate Terminates(kind: Kind, o: Outcome) {
    !Abandons(kind, o) && (IsConfigRead(kind) ==> o.wait == 1)
  }

  /** Only SET_ADDRESS and the full GET_CONFIG give their setup packet back. */
  function Given(t: Transfer): seq<nat> {
    if t.kind.SetAddress? || t.kind.GetFullConfig? then t.stages + [t.qh, t.packet] else t.stages + [t.qh]
  }

  function ResultOf(kind: Kind, o: Outcome): int {
    if Abandons(kind, o) || !Terminates(kind, o) then 0
    else if IsConfigRead(kind) then 1
    else if o.status & TD_STALLED != 0 then 0 else 1
  }

  /** Slots of the transfer terminated when this outcome does so; the transfer no longer an owner. */
  ghost function Settled(s: State, o: Outcome): Core
    requires StateInv(s) && s.pending.Some?
  {
    var t := s.pending.value;
    SlotsLength(CoreOf(s));
    Core(s.heap, if Terminates(t.kind, o) then WriteSlots(s.slots, t.frames, UhciWords.TERMINATE) else s.slots,
         s.mem, OwnersOf(s) - {MAX_PIPES})
  }

  lemma GivenAddresses(s: State)
    requires StateInv(s) && s.pending.Some?
    ensures forall i :: 0 <= i < |Given(s.pending.value)| ==> Given(s.pending.value)[i] > HEADER
  {
    hide CoreInv, OwnersOf, Shapes;
    var t := s.pending.value;
    TransferOwned(s);
    hide Confined, TransferShape;
    forall i | 0 <= i < |Given(t)| ensures Given(t)[i] > HEADER {
      assert Given(t)[i] == TransferOwner(t).ptrs[i];
      ObjectLinkable(CoreOf(s), Given(t)[i]);
    }
  }

  lemma TransferOwned(s: State)
    requires StateInv(s) && s.pending.Some?
    ensures MAX_PIPES in OwnersOf(s) && OwnersOf(s)[MAX_PIPES] == TransferOwner(s.pending.value)
    ensures OwnerOk(s.slots, s.mem, TransferOwner(s.pending.value)) && TransferShape(s.mem, s.pending.value)
  {
  }

  /** Everything a transfer does after it waited: new state and return value. */
  ghost function Finish(s: State, o: Outcome): (State, int)
    requires StateInv(s) && s.pending.Some?
  {
    var t := s.pending.value;
    GivenAddresses(s);
    ((if Abandons(t.kind, o) then s else WithCore(s, ReleaseAll(Settled(s, o), Given(t)))).(pending := None),
     ResultOf(t.kind, o))
  }

  // ---- When the frame list survives ----

  /** A failed GET_CONFIG whose slot still links to the queue head it is about to free. */
  ghost predicate Dangles(s: State, o: Outcome)
    requires s.pending.Some?
  {
    var t := s.pending.value;
    IsConfigRead(t.kind) && o.wait != 1 && !Unlinked(s.slots, t.qh)
  }

  lemma SettledDisposable(s: State, o: Outcome)
    requires StateInv(s) && s.pending.Some? && !Abandons(s.pending.value.kind, o) && !Dangles(s, o)
    ensures CoreInv(Settled(s, o)) && AllDisposable(Settled(s, o), Given(s.pending.value))
  {
    hide CoreInv, OwnersOf, Shapes, AllDisposable, OwnerOk, TransferOwner, WriteSlots;
    TransferOwned(s);
    SlotsLength(CoreOf(s));
    var t := s.pending.value;
    SettledLinks(CoreOf(s), t, Settled(s, o).slots);
    SettledCore(CoreOf(s).(slots := Settled(s, o).slots), t);
  }

  lemma SettledLinks(c: Core, t: Transfer, slots': seq<nat>)
    requires CoreInv(c) && MAX_PIPES in c.owners && c.owners[MAX_PIPES] == TransferOwner(t) && |c.slots| == FRAMES
    requires TransferShape(c.mem, t) && OwnerOk(c.slots, c.mem, TransferOwner(t))
    requires || slots' == WriteSlots(c.slots, t.frames, UhciWords.TERMINATE)
             || (slots' == c.slots && Unlinked(slots', t.qh))
    ensures CoreInv(c.(slots := slots')) && Unlinked(slots', t.qh)
  {
    hide CoreInv, QhLink, Relinked, Unlinked, Confined, Linkable, WriteSlots;
    assert t.qh in c.mem && IsQh(c.mem, t.qh);
    ObjectLinkable(c, t.qh);
    TerminatedRelinks(c.slots, t);
    SameRelinks(c.slots, t.qh);
    RelinkKeepsInv(c, slots', t.qh, {});
  }

  /** Terminating the slots of a transfer unlinks its queue head. */
  lemma TerminatedRelinks(slots: seq<nat>, t: Transfer)
    requires |slots| == FRAMES && (forall i :: 0 <= i < |t.frames| ==> t.frames[i] < FRAMES) && Linkable(t.qh)
    requires Confined(slots, t.qh, TransferOwner(t).region)
    ensures var slots' := WriteSlots(slots, t.frames, UhciWords.TERMINATE);
      Relinked(slots, slots', t.qh, {}) && Unlinked(slots', t.qh)
  {
    hide QhLink, Linkable;
    QhLinksDiffer(t.qh, t.qh);
  }

  lemma SameRelinks(slots: seq<nat>, q: nat)
    ensures Relinked(slots, slots, q, {})
  {
    hide QhLink;
  }

  lemma SettledCore(c: Core, t: Transfer)
    requires CoreInv(c) && MAX_PIPES in c.owners && c.owners[MAX_PIPES] == TransferOwner(t)
    requires TransferShape(c.mem, t) && Unlinked(c.slots, t.qh)
    ensures CoreInv(c.(owners := c.owners - {MAX_PIPES}))
    ensures AllDisposable(c.(owners := c.owners - {MAX_PIPES}), Given(t))
  {
    hide CoreInv, Unowned, Unlinked, TransferShape;
    DropKeepsInv(c, MAX_PIPES);
    var c' := c.(owners := c.owners - {MAX_PIPES});
    var ps := TransferOwner(t).ptrs;
    OwnerDistinct(c, MAX_PIPES);
    assert forall i :: 0 <= i < |Given(t)| ==> Given(t)[i] == ps[i];
    forall i | 0 <= i < |Given(t)| ensures Disposable(c', Given(t)[i]) {
      assert ps[i] in c.mem && Unowned(c'.owners, ps[i]);
      StageUnlinked(c', t, i);
    }
  }

  lemma OwnerDistinct(c: Core, k: nat)
    requires CoreInv(c) && k in c.owners
    ensures NoDuplicates(c.owners[k].ptrs) && AllIn(c.mem, c.owners[k].ptrs)
  {
  }

  lemma StageUnlinked(c: Core, t: Transfer, i: nat)
    requires CoreInv(c) && TransferShape(c.mem, t) && Unlinked(c.slots, t.qh) && i < |TransferOwner(t).ptrs|
    ensures Unlinked(c.slots, TransferOwner(t).ptrs[i])
  {
    var p := TransferOwner(t).ptrs[i];
    if p != t.qh {
      assert p in c.mem && !IsQh(c.mem, p);
      ObjectLinkable(c, p);
      InvSlotsOk(c);
      hide CoreInv;
      FreshUnlinked(c.mem, c.slots, p);
    }
  }

  /** Other owners keep their shapes when the transfer's objects go. */
  lemma PipesSurvive(s: State, c: Core)
    requires Shapes(s) && CoreInv(c) && c.owners == OwnersOf(s) - {MAX_PIPES}
    requires forall q :: q in c.mem ==> q in s.mem && c.mem[q] == s.mem[q]
    ensures forall i :: 0 <= i < MAX_PIPES ==> PipeShape(c.mem, s.pipes[i])
  {
    hide HeapInv, Typed, SlotsOk, Apart, Confined;
    forall i | 0 <= i < MAX_PIPES && s.pipes[i].inUse ensures PipeShape(c.mem, s.pipes[i]) {
      assert PipeShape(s.mem, s.pipes[i]);
      assert OwnerOk(c.slots, c.mem, c.owners[i]);
      assert c.owners[i].ptrs == PipePtrs(s.pipes[i]);
      assert PipePtrs(s.pipes[i])[0] in c.mem && PipePtrs(s.pipes[i])[1] in c.mem && PipePtrs(s.pipes[i])[2] in c.mem;
    }
  }

  lemma DoneKeepsInv(s: State, c: Core)
    requires StateInv(s) && CoreInv(c) && c.owners == OwnersOf(s) - {MAX_PIPES}
    requires forall q :: q in c.mem ==> q in s.mem && c.mem[q] == s.mem[q]
    ensures StateInv(WithCore(s, c).(pending := None))
  {
    hide CoreInv, OwnersOf, PipeShape;
    PipesSurvive(s, c);
    PendingSet(s, None);
    OwnersFrame(s.(pending := None), WithCore(s, c).(pending := None));
  }

  lemma AbandonKeepsInv(s: State)
    requires StateInv(s) && s.pending.Some?
    ensures StateInv(s.(pending := None))
  {
    TransferOwned(s);
    var c := CoreOf(s);
    hide CoreInv, OwnersOf, TransferShape, OwnerOk;
    DropKeepsInv(c, MAX_PIPES);
    DoneKeepsInv(s, c.(owners := c.owners - {MAX_PIPES}));
  }

  /** Finishing a transfer keeps the invariant unless its queue head dangles. */
  lemma FinishKeepsInv(s: State, o: Outcome)
    requires StateInv(s) && s.pending.Some? && !Dangles(s, o)
    ensures StateInv(Finish(s, o).0)
  {
    var t := s.pending.value;
    GivenAddresses(s);
    if Abandons(t.kind, o) {
      AbandonKeepsInv(s);
    } else {
      hide StateInv, AllDisposable, ReleaseAll, OwnersOf, WithCore, CoreInv;
      SettledDisposable(s, o);
      ReleaseAllKeepsInv(Settled(s, o), Given(t));
      DoneKeepsInv(s, ReleaseAll(Settled(s, o), Given(t)));
    }
  }

  /** A dangling queue head leaves an unsafe slot, from every state. */
  lemma DanglingIsUnsafe(s: State, o: Outcome)
    requires StateInv(s) && s.pending.Some? && Dangles(s, o)
    ensures !SlotsSafe(Finish(s, o).0)
  {
    hide CoreInv, Shapes, ReleaseAll, OwnersOf, Link, Linkable, SlotsSafe, Settled;
    var t := s.pending.value;
    HeadFreed(s, o);
    HeadLinkable(s);
    var f :| 0 <= f < |s.slots| && s.slots[f] == QhLink(t.qh);
    OnlyOneHead(s, o, f);
  }

  lemma HeadLinkable(s: State)
    requires StateInv(s) && s.pending.Some?
    ensures Linkable(s.pending.value.qh)
  {
    hide CoreInv, Shapes, OwnersOf, Linkable;
    TransferOwned(s);
    ObjectLinkable(CoreOf(s), s.pending.value.qh);
  }

  /** The failed transfer frees its queue head and leaves the slots alone. */
  lemma HeadFreed(s: State, o: Outcome)
    requires StateInv(s) && s.pending.Some? && Dangles(s, o)
    ensures s.pending.value.qh !in Finish(s, o).0.mem && Finish(s, o).0.slots == s.slots
  {
    hide CoreInv, Shapes, ReleaseAll, OwnersOf, Link, Unlinked;
    var t := s.pending.value;
    GivenAddresses(s);
    assert Given(t)[|t.stages|] == t.qh;
    ReleasedGone(Settled(s, o), Given(t), t.qh);
  }

  lemma OnlyOneHead(s: State, o: Outcome, f: nat)
    requires StateInv(s) && s.pending.Some? && f < |s.slots| && s.slots[f] == QhLink(s.pending.value.qh)
    requires Linkable(s.pending.value.qh)
    requires s.pending.value.qh !in Finish(s, o).0.mem && Finish(s, o).0.slots == s.slots
    ensures !SlotsSafe(Finish(s, o).0)
  {
    var q0 := s.pending.value.qh;
    var s' := Finish(s, o).0;
    GivenAddresses(s);
    forall q | q in s'.mem ensures s'.slots[f] != QhLink(q) {
      ReleaseShrinks(Settled(s, o), Given(s.pending.value), q);
      assert q in s.mem;
      ObjectLinkable(CoreOf(s), q);
      QhLinksDiffer(q0, q);
    }
    hide Finish;
    QhLinksDiffer(q0, q0);
  }

  lemma {:induction false} ReleaseShrinks(c: Core, ps: seq<nat>, q: nat)
    requires forall i :: 0 <= i < |ps| ==> ps[i] == NULL || ps[i] > HEADER
    ensures q in ReleaseAll(c, ps).mem ==> q in c.mem
    ensures ReleaseAll(c, ps).slots == c.slots
    decreases |ps|
  {
    if ps != [] { ReleaseShrinks(Release(c, ps[0]), ps[1..], q); }
  }

  lemma {:induction false} ReleasedGone(c: Core, ps: seq<nat>, q: nat)
    requires forall i :: 0 <= i < |ps| ==> ps[i] == NULL || ps[i] > HEADER
    requires q in ps
    ensures q !in ReleaseAll(c, ps).mem && ReleaseAll(c, ps).slots == c.slots
    decreases |ps|
  {
    ReleaseShrinks(Release(c, ps[0]), ps[1..], q);
    if q != ps[0] { ReleasedGone(Release(c, ps[0]), ps[1..], q); }
  }

  /** Exactly when the frame list stays safe across the end of a transfer. */
  lemma FinishSafeExactly(s: State, o: Outcome)
    requires StateInv(s) && s.pending.Some?
    ensures SlotsSafe(Finish(s, o).0) <==> !Dangles(s, o)
  {
    if Dangles(s, o) {
      DanglingIsUnsafe(s, o);
    } else {
      FinishKeepsInv(s, o);
      InvSlotsSafe(Finish(s, o).0);
    }
  }
}
