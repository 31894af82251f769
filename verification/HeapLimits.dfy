/**
 Where the allocator stops keeping its promises, and exactly when: alignments above 16,
 reuse of a block that needs alignment padding, and requests whose size wraps 2^64.
 */
module HeapLimits {
  import opened Heap
  import Stride

  // ---- Alignment of fresh blocks ----

  lemma CarveHeaderAligned(address: nat, a: nat)
    requires a > 0
    ensures (address + CarvePadding(address, a)) % a == 0
  {
    var r := address % a;
    var p := (a - r) % a;
    assert address == a * (address / a) + r;
    if r == 0 {
      Stride.RemainderOfSelf(a);
      assert p == 0;
    } else {
      Stride.SmallRemainder(a - r, a);
      assert p == a - r;
    }
    var up := if r == 0 then 0 else 1;
    var more := if p < HEADER then 1 else 0;
    assert address + CarvePadding(address, a) - 0 == a * (address / a) + a * up + a * more;
    assert a * (address / a + up + more) == a * (address / a) + a * up + a * more;
    Stride.GapRemainder(address + CarvePadding(address, a), 0, a, address / a + up + more);
  }

  lemma SmallPowersOfTwo(a: nat)
    requires IsPowerOfTwo(a) && 8 <= a <= 16
    ensures a == 8 || a == 16
  {
    assert !IsPowerOfTwo(3);
    assert !IsPowerOfTwo(5) && !IsPowerOfTwo(6) && !IsPowerOfTwo(7);
  }

  /** The pointer to a fresh block is one header past the aligned address, so it has the
      requested alignment exactly when that is at most 16. */
  lemma FreshAlignedExactly(h: Heap, a: nat, size: nat)
    requires IsPowerOfTwo(a) && a >= MIN_ALIGNMENT
    requires Carve(h, a, size).1 != NULL
    ensures Carve(h, a, size).1 % a == 0 <==> a <= 16
  {
    hide CarvePadding, IsPowerOfTwo;
    var x := h.base + h.offset + CarvePadding(h.base + h.offset, a);
    CarveHeaderAligned(h.base + h.offset, a);
    Stride.SmallRemainder(0, a);
    var t := Stride.RemainderGap(x, 0, a);
    Stride.GapRemainder(x + HEADER, HEADER, a, t);
    if a <= 16 {
      SmallPowersOfTwo(a);
    } else {
      Stride.SmallRemainder(HEADER, a);
    }
  }

  // ---- Padding on reuse ----

  function ReusePadding(header: nat, a: nat): nat
    requires a > 0
  {
    RoundUp(header + HEADER, a) - (header + HEADER)
  }

  lemma RoundUpReaches(x: nat, a: nat)
    requires a > 0
    ensures RoundUp(x, a) >= x
  {
  }

  /** The free block that answers a request, if one passes the size test. */
  function Candidate(h: Heap, size: nat): nat
    requires Keyed(h) && FirstFit(h.size, h.free, size + HEADER) < |h.free|
  {
    h.free[FirstFit(h.size, h.free, size + HEADER)]
  }

  /** A request answered from the free list stays inside the block it is given exactly when that
      block, the first to pass the size test, also has room for the padding the test ignores. */
  lemma ReuseRoomyExactly(h: Heap, alignment: nat, size: nat)
    requires Keyed(h) && IsPowerOfTwo(EffectiveAlignment(alignment)) && size + HEADER < WORD
    requires FirstFit(h.size, h.free, size + HEADER) < |h.free|
    ensures var x := Candidate(h, size);
      Alloc(h, alignment, size).1 + size <= x + h.size[x] <==>
      size + HEADER + ReusePadding(x, EffectiveAlignment(alignment)) <= h.size[x]
  {
    BelowWord(size + HEADER);
    RoundUpReaches(Candidate(h, size) + HEADER, EffectiveAlignment(alignment));
    hide RoundUp, IsPowerOfTwo, FirstFit;
  }

  /** The heap after 8 bytes were allocated with alignment 8 and freed again. */
  const MIXED: Heap := Heap(4096, 32, map[4104 := 24], [4104], map[])

  lemma MixedReachable()
    ensures Keyed(Empty(4096)) && Alloc(Empty(4096), 8, 8).1 == 4120
    ensures Free(Alloc(Empty(4096), 8, 8).0, 4120) == MIXED
  {
  }

  /** Mixing alignments 8 and 16 reaches the bad case: on that heap a request for 8 bytes with
      alignment 16 is granted an area that ends past the block. */
  lemma MixedAlignmentsFail()
    ensures Keyed(MIXED) && FirstFit(MIXED.size, MIXED.free, 8 + HEADER) == 0
    ensures Alloc(MIXED, 16, 8).1 + 8 > Candidate(MIXED, 8) + MIXED.size[Candidate(MIXED, 8)]
  {
  }

  // ---- Requests near 2^64 ----

  /** The condition a caller can test before asking. */
  predicate SafeRequest(h: Heap, size: nat) {
    || TrueEnd(h, size) < WORD
    || ((h.free == [] || size + HEADER < WORD) && TrueEnd(h, size) - WORD > ALLOCATOR_SIZE)
  }

  lemma OverWord(n: nat)
    requires WORD <= n < 2 * WORD
    ensures n % WORD == n - WORD
  {
  }

  lemma FreeBlocksSmall(h: Heap, i: nat)
    requires HeapInv(h) && i < |h.free|
    ensures h.free[i] in h.size && HEADER <= h.size[h.free[i]] <= ALLOCATOR_SIZE
  {
  }

  lemma NotRoomy(h: Heap, x: nat)
    requires x in h.live && (x !in h.size || h.live[x] + HEADER > h.size[x])
    ensures !HeapInv(h)
  {
  }

  lemma NotInside(h: Heap, x: nat)
    requires x in h.size && x + h.size[x] > h.base + ALLOCATOR_SIZE
    ensures !HeapInv(h)
  {
  }

  lemma InvOffset(h: Heap)
    requires HeapInv(h)
    ensures h.offset <= ALLOCATOR_SIZE
  {
  }

  /** The wrapped carve: what happens when the end of the block passes 2^64. */
  lemma CarveWrapped(h: Heap, size: nat)
    requires HeapInv(h) && size < WORD && TrueEnd(h, size) >= WORD
    ensures TrueEnd(h, size) - WORD > ALLOCATOR_SIZE ==> Carve(h, 16, size) == (h, NULL)
    ensures TrueEnd(h, size) - WORD <= ALLOCATOR_SIZE ==> !HeapInv(Carve(h, 16, size).0)
  {
    hide HeapInv, CarvePadding;
    CarveAddress(h.base + h.offset);
    InvOffset(h);
    var x := CarveHeader(h);
    var (h', p) := Carve(h, 16, size);
    if size + HEADER >= WORD {
      OverWord(size + HEADER);
      BelowWord(TrueEnd(h, size) - WORD);
      if p != NULL { NotRoomy(h', x); }
    } else {
      BelowWord(size + HEADER);
      OverWord(TrueEnd(h, size));
      if p != NULL { NotInside(h', x); }
    }
  }

  /** A 16-aligned request of any 64-bit size keeps the heap good exactly when it is safe. */
  lemma AllocSoundExactly(h: Heap, size: nat)
    requires HeapInv(h) && size < WORD
    ensures Keyed(h)
    ensures HeapInv(Alloc(h, 16, size).0) <==> SafeRequest(h, size)
  {
    InvKeyed(h);
    SixteenIsPowerOfTwo();
    CarveAddress(h.base + h.offset);
    if TrueEnd(h, size) < WORD {
      AllocKeepsInv(h, size);
    } else if size + HEADER < WORD {
      AllocHuge(h, size);
    } else {
      AllocOver(h, size);
    }
  }

  /** For instance the size 2^64 - 32 on an empty heap: the sum wraps to 0, and the request is
      granted a block that reaches past the buffer. */
  lemma WrappingRequestFails()
    ensures HeapInv(Empty(4096)) && Keyed(Empty(4096)) && !HeapInv(Alloc(Empty(4096), 16, WORD - 32).0)
  {
    hide Alloc;
    assert CarvePadding(4096, 16) == 16;
    AllocSoundExactly(Empty(4096), WORD - 32);
  }

  lemma AllocHuge(h: Heap, size: nat)
    requires HeapInv(h) && Keyed(h) && size + HEADER < WORD <= TrueEnd(h, size)
    ensures HeapInv(Alloc(h, 16, size).0) <==> TrueEnd(h, size) - WORD > ALLOCATOR_SIZE
  {
    hide HeapInv, Carve, IsPowerOfTwo, TrueEnd;
    SixteenIsPowerOfTwo();
    BelowWord(size + HEADER);
    CarveWrapped(h, size);
    TooLargeForFree(h, size);
  }

  lemma TooLargeForFree(h: Heap, size: nat)
    requires HeapInv(h) && Keyed(h) && TrueEnd(h, size) >= WORD
    ensures FirstFit(h.size, h.free, size + HEADER) == |h.free|
  {
    CarveAddress(h.base + h.offset);
    var i := FirstFit(h.size, h.free, size + HEADER);
    if i < |h.free| {
      FreeBlocksSmall(h, i);
      assert false;
    }
  }

  lemma AllocOver(h: Heap, size: nat)
    requires HeapInv(h) && Keyed(h) && size < WORD <= size + HEADER
    ensures HeapInv(Alloc(h, 16, size).0) <==> h.free == [] && TrueEnd(h, size) - WORD > ALLOCATOR_SIZE
  {
    hide HeapInv, IsPowerOfTwo, Carve, Reuse, TrueEnd;
    SixteenIsPowerOfTwo();
    OverWord(size + HEADER);
    if h.free != [] {
      FreeBlocksSmall(h, 0);
      TinyTotal(h, size);
    } else {
      OverIsLong(h, size);
      CarveWrapped(h, size);
    }
  }

  lemma OverIsLong(h: Heap, size: nat)
    requires WORD <= size + HEADER
    ensures TrueEnd(h, size) >= WORD
  {
    hide CarvePadding;
  }

  /** The first free block answers a request whose total has wrapped. */
  lemma TinyTotal(h: Heap, size: nat)
    requires HeapInv(h) && Keyed(h) && h.free != [] && size < WORD <= size + HEADER
    ensures FirstFit(h.size, h.free, TotalSize(size)) == 0 && !HeapInv(Reuse(h, 0, 16, size).0)
  {
    hide HeapInv, RoundUp;
    OverWord(size + HEADER);
    FreeBlocksSmall(h, 0);
    FreeBlock(h, 0);
    ReuseValue(h, 0, size);
    NotRoomy(Reuse(h, 0, 16, size).0, h.free[0]);
  }
}
