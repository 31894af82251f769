/**
 The configuration blob of the enumeration code: a block of the same heap, borrowed between two
 control transfers, filled by the hardware, parsed and given back.
 */
module UhciBlobs {
  import opened Heap
  import opened Resources
  import opened UhciModel
  import opened UhciPipes
  import opened UhciTransfers

  const MAX_BLOB: nat := 0x1_0000   // total lengths have 16 bits

  /** Allocate a blob; null when out of memory. */
  function Borrow(s: State, size: nat): (State, nat)
    requires Keyed(s.heap)
  {
    var (c, p) := Obtain(CoreOf(s), size, Bytes([]));
    (WithCore(s, c), p)
  }

  /** A blob: bytes that belong to no pipe and no transfer. */
  ghost predicate Loose(s: State, p: nat) {
    p in s.mem && s.mem[p].Bytes? && Unowned(OwnersOf(s), p)
  }

  /** Free a blob; null is ignored. */
  function Return(s: State, p: nat): State
    requires p == NULL || p > HEADER
  {
    WithCore(s, Release(CoreOf(s), p))
  }

  /** The hardware writes into a blob. */
  function Fill(s: State, p: nat, data: seq<bv8>): State {
    s.(mem := s.mem[p := Bytes(data)])
  }

  /** What a borrow does. */
  ghost predicate Borrowed(s: State, s': State, p: nat) {
    && (p == NULL ==> s' == s)
    && (p != NULL ==> p !in s.mem && s'.mem == s.mem[p := Bytes([])] && Loose(s', p))
    && s'.slots == s.slots && s'.pipes == s.pipes && s'.pending == s.pending && s'.delivered == s.delivered
  }

  lemma BorrowKeepsInv(s: State, size: nat)
    requires StateInv(s) && size <= ALLOCATOR_SIZE
    ensures Keyed(s.heap) && StateInv(Borrow(s, size).0) && Borrowed(s, Borrow(s, size).0, Borrow(s, size).1)
  {
    hide CoreInv, Shapes, Obtain, OwnersOf, Unowned;
    ObtainKeepsInv(CoreOf(s), size, Bytes([]));
    var (c, p) := Obtain(CoreOf(s), size, Bytes([]));
    GrownHere(CoreOf(s), c, p);
    LeakKeepsInv(s, c);
    OwnersFrame(s, WithCore(s, c));
    if p != NULL {
      FreshUnowned(CoreOf(s), p);
    }
  }

  lemma GrownHere(c0: Core, c: Core, p: nat)
    requires CoreInv(c) && c.slots == c0.slots && c.owners == c0.owners
    requires c == c0 || (p !in c0.mem && c.mem == c0.mem[p := Bytes([])])
    ensures Grown(c0, c)
  {
    hide CoreInv;
  }

  lemma LooseFreeable(s: State, p: nat)
    requires StateInv(s) && Loose(s, p)
    ensures p > HEADER && Unlinked(s.slots, p)
  {
    hide Unowned, Unlinked, OwnersOf;
    ObjectLinkable(CoreOf(s), p);
    InvSlotsOk(CoreOf(s));
    FreshUnlinked(s.mem, s.slots, p);
  }

  /** Pipes and the transfer keep their shapes when an unowned object goes. */
  lemma LooseShapes(s: State, p: nat)
    requires Shapes(s) && Unowned(OwnersOf(s), p)
    ensures Shapes(s.(mem := s.mem - {p}))
  {
    forall i | 0 <= i < MAX_PIPES ensures PipeShape(s.mem - {p}, s.pipes[i]) {
      assert PipeShape(s.mem, s.pipes[i]);
      if s.pipes[i].inUse { PipeNotLoose(s, i, p); }
    }
    TransferNotLoose(s, p);
  }

  lemma PipeNotLoose(s: State, i: nat, p: nat)
    requires |s.pipes| == MAX_PIPES && i < MAX_PIPES && Unowned(OwnersOf(s), p) && s.pipes[i].inUse
    ensures p !in PipePtrs(s.pipes[i])
  {
    assert i in OwnersOf(s) && OwnersOf(s)[i] == PipeOwner(s.pipes[i]);
  }

  lemma TransferNotLoose(s: State, p: nat)
    requires |s.pipes| == MAX_PIPES && Unowned(OwnersOf(s), p)
    ensures s.pending.Some? ==> p !in s.pending.value.stages && p != s.pending.value.packet && p != s.pending.value.qh
  {
    if s.pending.Some? {
      var t := s.pending.value;
      assert MAX_PIPES in OwnersOf(s) && OwnersOf(s)[MAX_PIPES] == TransferOwner(t);
      var ps := TransferOwner(t).ptrs;
      assert ps[|t.stages|] == t.qh && ps[|t.stages| + 1] == t.packet;
      assert forall i :: 0 <= i < |t.stages| ==> ps[i] == t.stages[i];
    }
  }

  lemma ReturnKeepsInv(s: State, p: nat)
    requires StateInv(s) && (p == NULL || Loose(s, p))
    ensures p == NULL || p > HEADER
    ensures StateInv(Return(s, p)) && Return(s, p).mem == s.mem - {p}
    ensures p == NULL ==> Return(s, p) == s
  {
    hide CoreInv, Shapes, OwnersOf, Unowned, Unlinked;
    if p == NULL {
      NullNotObject(CoreOf(s));
      assert s.mem - {NULL} == s.mem;
    } else {
      LooseFreeable(s, p);
      ReleaseKeepsInv(CoreOf(s), p);
      LooseShapes(s, p);
      ReturnedInv(s, Return(s, p));
    }
  }

  lemma ReturnedInv(s: State, s': State)
    requires s' == s.(heap := s'.heap, mem := s'.mem)
    requires Shapes(s.(mem := s'.mem)) && CoreInv(CoreOf(s).(heap := s'.heap, mem := s'.mem))
    ensures StateInv(s')
  {
    hide CoreInv, OwnersOf, PipeShape, TransferShape;
    OwnersFrame(s, s');
  }

  lemma FillKeepsInv(s: State, p: nat, data: seq<bv8>)
    requires StateInv(s) && Loose(s, p)
    ensures StateInv(Fill(s, p, data))
  {
    hide CoreInv, OwnersOf, PipeShape, TransferShape, Unowned;
    var s' := Fill(s, p, data);
    assert SameKinds(s.mem, s'.mem);
    SameKindsKeepsInv(CoreOf(s), s'.mem);
    OwnersFrame(s, s');
    FillShapes(s, p, data);
  }

  lemma FillShapes(s: State, p: nat, data: seq<bv8>)
    requires Shapes(s) && p in s.mem && s.mem[p].Bytes?
    ensures Shapes(Fill(s, p, data))
  {
    forall i | 0 <= i < MAX_PIPES ensures PipeShape(Fill(s, p, data).mem, s.pipes[i]) {
      assert PipeShape(s.mem, s.pipes[i]);
    }
  }

  /** Borrowing and giving back leaves objects and slots as they were. */
  lemma BorrowThenReturn(s: State, size: nat)
    requires StateInv(s) && size <= ALLOCATOR_SIZE
    ensures Keyed(s.heap) && StateInv(Borrow(s, size).0)
    ensures var (s1, p) := Borrow(s, size);
      && (p == NULL || p > HEADER) && StateInv(Return(s1, p))
      && Return(s1, p).mem == s.mem && Return(s1, p).slots == s.slots
  {
    hide StateInv, Loose, Borrow;
    BorrowKeepsInv(s, size);
    var (s1, p) := Borrow(s, size);
    ReturnKeepsInv(s1, p);
    assert p != NULL ==> s.mem[p := Bytes([])] - {p} == s.mem;
  }
}
