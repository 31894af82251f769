/**
 When the allocations of the driver succeed: enough room left in the buffer is enough for a pipe,
 a transfer or a blob, and each uses up a bounded part of it.
 */
module UhciRoom {
  import opened Heap
  import opened UhciWords
  import opened Resources
  import opened FrameList
  import opened UhciModel
  import opened UhciPipes
  import opened UhciTransfers
  import opened UhciFinish
  import opened UhciBlobs

  /** The most a fresh block takes from the buffer besides its user area. */
  const OVERHEAD: nat := 48
  /** The most a fresh block of a descriptor, queue head, packet or report takes. */
  const SMALL_BLOCK: nat := 64

  // ---- Single blocks ----

  lemma AllocGrants(h: Heap, size: nat)
    requires HeapInv(h) && h.offset + OVERHEAD + size <= ALLOCATOR_SIZE
    ensures Keyed(h) && Alloc(h, 16, size).1 != NULL && Alloc(h, 16, size).0.offset <= h.offset + OVERHEAD + size
  {
    hide HeapInv, Granted;
    InvHeapBounds(h);
    CarveAddress(h.base + h.offset);
    AllocKeepsInv(h, size);
    AllocOffset(h, size);
  }

  lemma InvHeapBounds(h: Heap)
    requires HeapInv(h)
    ensures h.offset <= ALLOCATOR_SIZE && Keyed(h)
  {
    hide Tiling, Roomy, NoDuplicates;
    InvKeyed(h);
  }

  lemma AllocOffset(h: Heap, size: nat)
    requires Keyed(h) && h.offset + CarvePadding(h.base + h.offset, 16) + HEADER + size < WORD
    ensures Alloc(h, 16, size).0.offset <= h.offset + CarvePadding(h.base + h.offset, 16) + HEADER + size
  {
    hide CarvePadding, RoundUp, FirstFit, IsPowerOfTwo;
    BelowWord(size + HEADER);
    BelowWord(h.offset + CarvePadding(h.base + h.offset, 16) + HEADER + size);
  }

  lemma ObtainGrants(c: Core, size: nat, obj: Object)
    requires CoreInv(c) && c.heap.offset + OVERHEAD + size <= ALLOCATOR_SIZE
    ensures Keyed(c.heap) && Obtain(c, size, obj).1 != NULL
    ensures Obtain(c, size, obj).0.heap.offset <= c.heap.offset + OVERHEAD + size
  {
    hide HeapInv, Typed, SlotsOk, OwnersOk, Apart, Alloc, Keyed;
    AllocGrants(c.heap, size);
  }

  // ---- Several blocks ----

  ghost predicate Small(wants: seq<Want>) {
    forall i :: 0 <= i < |wants| ==> wants[i].size <= 16
  }

  ghost predicate AllGranted(ps: seq<nat>) {
    forall i :: 0 <= i < |ps| ==> ps[i] != NULL
  }

  lemma {:induction false} ObtainAllGrants(c: Core, wants: seq<Want>)
    requires CoreInv(c) && Small(wants) && c.heap.offset + SMALL_BLOCK * |wants| <= ALLOCATOR_SIZE
    ensures AllGranted(ObtainAll(c, wants).1)
    ensures ObtainAll(c, wants).0.heap.offset <= c.heap.offset + SMALL_BLOCK * |wants|
    decreases |wants|
  {
    hide CoreInv, Obtain;
    if wants != [] {
      ObtainKeepsInv(c, wants[0].size, wants[0].obj);
      ObtainGrants(c, wants[0].size, wants[0].obj);
      ObtainAllGrants(Obtain(c, wants[0].size, wants[0].obj).0, wants[1..]);
    }
  }

  lemma {:induction false} ReleaseAllOffset(c: Core, ps: seq<nat>)
    requires forall i :: 0 <= i < |ps| ==> ps[i] == NULL || ps[i] > HEADER
    ensures ReleaseAll(c, ps).heap.offset == c.heap.offset
    decreases |ps|
  {
    if ps != [] { ReleaseAllOffset(Release(c, ps[0]), ps[1..]); }
  }

  // ---- Transfers ----

  const TRANSFER_ROOM: nat := 320   // a packet, up to three descriptors and a queue head

  lemma ChainSmall(cmd: Command)
    ensures Small(PacketWants(cmd)) && Small(ChainWants(cmd.kind))
    ensures |PacketWants(cmd)| == 1 && 3 <= |ChainWants(cmd.kind)| <= 4
  {
  }

  lemma AcquireGrants(c0: Core, cmd: Command)
    requires CoreInv(c0) && c0.heap.offset + TRANSFER_ROOM <= ALLOCATOR_SIZE
    ensures var (c, packet, ps) := AcquireChain(c0, cmd);
      Complete(packet, ps) && c.heap.offset <= c0.heap.offset + TRANSFER_ROOM
  {
    hide CoreInv, FreshIn, ObtainAll, ChainWants, PacketWants, Small;
    ChainSmall(cmd);
    SmallWants(cmd.kind);
    PacketFits(cmd);
    ObtainAllGrants(c0, PacketWants(cmd));
    ObtainAllKeepsInv(c0, PacketWants(cmd));
    var (c1, packets) := ObtainAll(c0, PacketWants(cmd));
    ObtainAllGrants(c1, ChainWants(cmd.kind));
  }

  lemma PacketFits(cmd: Command)
    ensures forall i :: 0 <= i < |PacketWants(cmd)| ==> PacketWants(cmd)[i].size <= ALLOCATOR_SIZE
  {
  }

  /** With room in the buffer every transfer gets its blocks and starts. */
  lemma BeginGrants(s: State, cmd: Command)
    requires StateInv(s) && s.pending.None? && s.heap.offset + TRANSFER_ROOM <= ALLOCATOR_SIZE
    ensures Begin(s, cmd).pending.Some? && Begin(s, cmd).pending.value.kind == cmd.kind
    ensures Begin(s, cmd).heap.offset <= s.heap.offset + TRANSFER_ROOM
  {
    hide CoreInv, Shapes, AcquireChain, ChainObtained, OwnersOf, Complete, Built, Link, WriteSlots, TransferNew;
    AcquireGrants(CoreOf(s), cmd);
    AcquiredChain(CoreOf(s), cmd);
    var (c, packet, ps) := AcquireChain(CoreOf(s), cmd);
    CompletePacket(packet, ps);
    ChainTransfer(CoreOf(s), c, cmd, packet, ps);
  }

  lemma CompletePacket(packet: nat, ps: seq<nat>)
    requires Complete(packet, ps)
    ensures packet != NULL
  {
  }

  lemma FinishOffset(s: State, o: Outcome)
    requires StateInv(s) && s.pending.Some?
    ensures Finish(s, o).0.heap.offset == s.heap.offset && Finish(s, o).0.pending.None?
    ensures Finish(s, o).0.pipes == s.pipes
  {
    hide CoreInv, Shapes, OwnersOf, ReleaseAll, WriteSlots;
    GivenAddresses(s);
    ReleaseAllOffset(Settled(s, o), Given(s.pending.value));
  }

  // ---- Pipes ----

  const PIPE_ROOM: nat := 192

  lemma AcquirePipeGrants(c0: Core)
    requires CoreInv(c0) && c0.heap.offset + PIPE_ROOM <= ALLOCATOR_SIZE
    ensures var (c, buf, td, qh) := Acquire(c0);
      buf != NULL && td != NULL && qh != NULL && c.heap.offset <= c0.heap.offset + PIPE_ROOM
  {
    hide CoreInv, FreshIn, ObtainAll;
    ObtainAllGrants(c0, BUFFER_WANTS);
    ObtainAllKeepsInv(c0, BUFFER_WANTS);
    var (c1, bufs) := ObtainAll(c0, BUFFER_WANTS);
    ObtainAllGrants(c1, SCHEDULE_WANTS);
    var (c2, ps) := ObtainAll(c1, SCHEDULE_WANTS);
    assert bufs[0] != NULL && ps[0] != NULL && ps[1] != NULL;
  }

  /** With room in the buffer and a free table entry, an open succeeds. */
  lemma OpenGrants(s: State, r: OpenRequest)
    requires StateInv(s) && FreePipe(s.pipes) < |s.pipes| && s.heap.offset + PIPE_ROOM <= ALLOCATOR_SIZE
    ensures Open(s, r).1 == FreePipe(s.pipes) && Open(s, r).0.heap.offset <= s.heap.offset + PIPE_ROOM
    ensures Open(s, r).0.pending == s.pending
  {
    hide CoreInv, Shapes, OwnersOf, AllDisposable, Acquire, ReleaseAll, Filled, Link, FreePipe;
    AcquirePipeGrants(CoreOf(s));
    AcquireObtained(CoreOf(s));
  }

  // ---- Blobs ----

  lemma BorrowGrants(s: State, size: nat)
    requires StateInv(s) && s.heap.offset + OVERHEAD + size <= ALLOCATOR_SIZE
    ensures Keyed(s.heap) && Borrow(s, size).1 != NULL
    ensures Borrow(s, size).0.heap.offset <= s.heap.offset + OVERHEAD + size
  {
    hide CoreInv, Shapes, OwnersOf, Obtain, Keyed;
    ObtainGrants(CoreOf(s), size, Bytes([]));
  }
}
