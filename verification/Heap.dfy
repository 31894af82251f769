/**
 The kernel allocator as a value: a bump offset into a fixed buffer, a list of freed
 headers in list order, and the blocks handed out. All sizes are 64-bit unsigned.
 */
module Heap {

  const WORD: nat := 0x1_0000_0000_0000_0000
  const ALLOCATOR_SIZE: nat := 524288
  const HEADER: nat := 16
  const MIN_ALIGNMENT: nat := 8
  const NULL: nat := 0

  /** `size` is the size field of every header ever written, keyed by header address;
      `live` maps the header of each block in use to the size its owner asked for. */
  datatype Heap = Heap(base: nat, offset: nat, size: map<nat, nat>, free: seq<nat>, live: map<nat, nat>)

  /** The free list only holds written headers, none of them at the null address. */
  ghost predicate Written(size: map<nat, nat>, free: seq<nat>) {
    forall i :: 0 <= i < |free| ==> free[i] in size && free[i] != NULL
  }

  ghost predicate Keyed(h: Heap) {
    Written(h.size, h.free)
  }

  // ---- The allocation algorithm ----

  predicate IsPowerOfTwo(a: nat) {
    a == 1 || (a > 1 && a % 2 == 0 && IsPowerOfTwo(a / 2))
  }

  function EffectiveAlignment(a: nat): nat {
    if a < MIN_ALIGNMENT then MIN_ALIGNMENT else a
  }

  /** The least multiple of `a` that is at least `x`. */
  function RoundUp(x: nat, a: nat): nat
    requires a > 0
  {
    (x + (a - 1)) / a * a
  }

  function TotalSize(size: nat): nat {
    (size + HEADER) % WORD
  }

  /** Position of the first free block of at least `total` bytes, or |free|. */
  function FirstFit(size: map<nat, nat>, free: seq<nat>, total: nat): (i: nat)
    requires forall k :: 0 <= k < |free| ==> free[k] in size
    ensures i <= |free|
    ensures forall k :: 0 <= k < i ==> size[free[k]] < total
    ensures i < |free| ==> size[free[i]] >= total
  {
    if free == [] then 0
    else if size[free[0]] >= total then 0
    else 1 + FirstFit(size, free[1..], total)
  }

  /** Padding in front of a fresh header. */
  function CarvePadding(address: nat, a: nat): nat
    requires a > 0
  {
    var p := (a - address % a) % a;
    if p < HEADER then p + a else p
  }

  /** Take free block `i` out of the list and hand it out, moved up to the alignment. */
  function Reuse(h: Heap, i: nat, a: nat, size: nat): (Heap, nat)
    requires Keyed(h) && i < |h.free| && a > 0
  {
    var header := h.free[i];
    var aligned := RoundUp(header + HEADER, a);
    var padding := aligned - (header + HEADER);
    var free' := h.free[..i] + h.free[i + 1..];
    if padding > 0 then
      var moved := header + padding;
      (h.(size := h.size[moved := (h.size[header] - padding) % WORD],
          free := free', live := h.live[moved := size]), moved + HEADER)
    else
      (h.(free := free', live := h.live[header := size]), header + HEADER)
  }

  /** Carve a new block off the buffer, or fail with the null pointer. */
  function Carve(h: Heap, a: nat, size: nat): (Heap, nat)
    requires a > 0
  {
    var total := TotalSize(size);
    var padding := CarvePadding(h.base + h.offset, a);
    var end := (h.offset + padding + total) % WORD;
    if end > ALLOCATOR_SIZE then (h, NULL)
    else
      var header := h.base + h.offset + padding;
      (h.(offset := end, size := h.size[header := total], live := h.live[header := size]), header + HEADER)
  }

  function Alloc(h: Heap, alignment: nat, size: nat): (Heap, nat)
    requires Keyed(h)
  {
    var a := EffectiveAlignment(alignment);
    if !IsPowerOfTwo(a) then (h, NULL)
    else
      var i := FirstFit(h.size, h.free, TotalSize(size));
      if i < |h.free| then Reuse(h, i, a, size) else Carve(h, a, size)
  }

  /** Push a block back on the front of the free list. */
  function Free(h: Heap, p: nat): Heap
    requires p == NULL || p > HEADER
  {
    if p == NULL then h
    else h.(free := [p - HEADER] + h.free, live := h.live - {p - HEADER})
  }

  // ---- The invariant ----

  ghost predicate NoDuplicates(s: seq<nat>) {
    forall i, j :: 0 <= i < j < |s| ==> s[i] != s[j]
  }

  function Elements(s: seq<nat>): set<nat> {
    set x | x in s
  }

  ghost predicate Live(h: Heap, p: nat) {
    p > HEADER && p - HEADER in h.live
  }

  /** A header is a multiple of `e` and its block lies inside the first `offset` bytes of the buffer. */
  predicate Inside(base: nat, offset: nat, e: nat, x: nat, size: nat)
    requires e > 0
  {
    x % e == 0 && 0 < base <= x && size >= HEADER && x + size <= base + offset
  }

  /** Blocks occupy pairwise disjoint parts of the first `offset` bytes of the buffer. */
  ghost predicate Tiling(base: nat, offset: nat, e: nat, size: map<nat, nat>)
    requires e > 0
  {
    && (forall x :: x in size ==> Inside(base, offset, e, x, size[x]))
    && (forall x, y :: x in size && y in size && x < y ==> x + size[x] <= y)
  }

  /** The free list holds exactly the blocks that are not live, each once. */
  ghost predicate Partition(size: map<nat, nat>, free: seq<nat>, live: map<nat, nat>) {
    && NoDuplicates(free)
    && (forall x :: x in size <==> x in free || x in live)
    && (forall x :: x in free ==> x !in live)
  }

  /** Every live block has room for what its owner asked for. */
  ghost predicate Roomy(size: map<nat, nat>, live: map<nat, nat>) {
    forall x :: x in live ==> x in size && live[x] + HEADER <= size[x]
  }

  /** The heap with headers at multiples of 8, or of 16. */
  ghost predicate InvAt(h: Heap, e: nat) {
    && (e == 8 || e == 16)
    && 0 < h.base && h.offset <= ALLOCATOR_SIZE
    && Tiling(h.base, h.offset, e, h.size)
    && Partition(h.size, h.free, h.live)
    && Roomy(h.size, h.live)
  }

  /** The heap of the kernel, whose callers all ask for alignment 16. */
  ghost predicate HeapInv(h: Heap) {
    InvAt(h, 16) && h.base + ALLOCATOR_SIZE < 0x1_0000_0000
  }

  function Empty(base: nat): Heap {
    Heap(base, 0, map[], [], map[])
  }

  /** The end of a fresh 16-aligned block, as an offset, in unbounded arithmetic. */
  function TrueEnd(h: Heap, size: nat): nat {
    h.offset + CarvePadding(h.base + h.offset, 16) + HEADER + size
  }

  /** The request does not make a 64-bit sum wrap. */
  predicate NoWrap(h: Heap, size: nat) {
    TrueEnd(h, size) < WORD
  }

  lemma InvKeyed(h: Heap)
    requires HeapInv(h)
    ensures Keyed(h)
  {
    hide NoDuplicates;
    forall i | 0 <= i < |h.free| ensures h.free[i] in h.size && h.free[i] != NULL {
      assert h.free[i] in h.free;
      assert Inside(h.base, h.offset, 16, h.free[i], h.size[h.free[i]]);
    }
  }

  lemma SixteenIsPowerOfTwo()
    ensures IsPowerOfTwo(16)
  {
  }

  // ---- Each operation keeps each part of the invariant ----

  lemma TakePartition(size: map<nat, nat>, free: seq<nat>, live: map<nat, nat>, i: nat, n: nat)
    requires Partition(size, free, live) && i < |free|
    ensures Partition(size, free[..i] + free[i + 1..], live[free[i] := n])
  {
  }

  /** Where a fresh 16-aligned header goes: at least a header's width beyond the old offset. */
  lemma CarveAddress(address: nat)
    ensures var p := CarvePadding(address, 16); 16 <= p < 32 && (address + p) % 16 == 0
  {
  }

  lemma FreeBlock(h: Heap, i: nat)
    requires HeapInv(h) && i < |h.free|
    ensures h.free[i] in h.size && h.free[i] > 0 && h.free[i] % 16 == 0 && h.free[i] !in h.live
  {
  }

  lemma TakeRoomy(size: map<nat, nat>, live: map<nat, nat>, x: nat, n: nat)
    requires Roomy(size, live) && x in size && n + HEADER <= size[x]
    ensures Roomy(size, live[x := n])
  {
  }

  lemma ReuseValue(h: Heap, i: nat, size: nat)
    requires Keyed(h) && i < |h.free| && h.free[i] % 16 == 0
    ensures Reuse(h, i, 16, size) ==
      (h.(free := h.free[..i] + h.free[i + 1..], live := h.live[h.free[i] := size]), h.free[i] + HEADER)
  {
  }

  lemma ReuseKeepsInv(h: Heap, i: nat, size: nat)
    requires HeapInv(h) && Keyed(h) && i < |h.free|
    requires size + HEADER <= h.size[h.free[i]]
    ensures Reuse(h, i, 16, size) ==
      (h.(free := h.free[..i] + h.free[i + 1..], live := h.live[h.free[i] := size]), h.free[i] + HEADER)
    ensures Granted(h, Reuse(h, i, 16, size).0, h.free[i] + HEADER, size)
  {
    hide Tiling, Partition, Roomy, Reuse;
    FreeBlock(h, i);
    ReuseValue(h, i, size);
    TakePartition(h.size, h.free, h.live, i, size);
    TakeRoomy(h.size, h.live, h.free[i], size);
  }

  /** The buffer has room for a fresh block of `size` user bytes. */
  predicate Fits(h: Heap, size: nat) {
    TrueEnd(h, size) <= ALLOCATOR_SIZE
  }

  /** The header of the next fresh block. */
  function CarveHeader(h: Heap): nat {
    h.base + h.offset + CarvePadding(h.base + h.offset, 16)
  }

  /** The heap after a fresh block of `size` user bytes, in unbounded arithmetic. */
  function Carved(h: Heap, size: nat): Heap {
    var x := CarveHeader(h);
    Heap(h.base, x - h.base + HEADER + size, h.size[x := size + HEADER], h.free, h.live[x := size])
  }

  lemma BelowWord(n: nat)
    requires n < WORD
    ensures n % WORD == n
  {
  }

  lemma CarveValue(h: Heap, size: nat)
    requires HeapInv(h) && NoWrap(h, size)
    ensures TotalSize(size) == size + HEADER
    ensures Carve(h, 16, size) == if Fits(h, size) then (Carved(h, size), CarveHeader(h) + HEADER) else (h, NULL)
  {
  }

  lemma CarvedKeepsInv(h: Heap, size: nat)
    requires HeapInv(h) && Fits(h, size)
    ensures HeapInv(Carved(h, size))
    ensures CarveHeader(h) !in h.size && CarveHeader(h) !in h.live && CarveHeader(h) % 16 == 0 < CarveHeader(h)
  {
    var x := CarveHeader(h);
    assert h.base + h.offset <= x && x % 16 == 0 by { CarveAddress(h.base + h.offset); }
    GrownKeepsInv(h, 16, x, size);
  }

  lemma GrownKeepsInv(h: Heap, e: nat, x: nat, size: nat)
    requires InvAt(h, e) && h.base + h.offset <= x && x % e == 0
    requires x - h.base + HEADER + size <= ALLOCATOR_SIZE
    ensures x !in h.size && x !in h.live
    ensures InvAt(Heap(h.base, x - h.base + HEADER + size, h.size[x := size + HEADER], h.free, h.live[x := size]), e)
  {
    hide NoDuplicates;
    assert x !in h.size && x !in h.live && x !in h.free;
  }

  /** Every request that a 512 KB buffer could ever meet is free of wrap-around. */
  lemma SmallRequests(h: Heap, size: nat)
    requires HeapInv(h) && size <= ALLOCATOR_SIZE
    ensures NoWrap(h, size)
  {
  }

  /** What a grant does to a good heap. */
  ghost predicate Granted(h: Heap, h': Heap, p: nat, size: nat) {
    && HeapInv(h') && h'.base == h.base
    && Live(h', p) && !Live(h, p) && p % 16 == 0 && h'.live == h.live[p - HEADER := size]
  }

  lemma AllocFresh(h: Heap, size: nat)
    requires HeapInv(h) && NoWrap(h, size)
    ensures Fits(h, size) ==> Granted(h, Carve(h, 16, size).0, Carve(h, 16, size).1, size)
    ensures !Fits(h, size) ==> Carve(h, 16, size) == (h, NULL)
  {
    hide CarvePadding, HeapInv, Carve, Fits, NoWrap;
    CarveValue(h, size);
    if Fits(h, size) { CarvedKeepsInv(h, size); }
  }

  /** A 16-aligned request on a good heap: the first fitting free block is
      taken and the others keep their order; otherwise a fresh block is carved when it fits;
      otherwise the request fails and nothing changes. The granted pointer is 16-aligned. */
  lemma AllocKeepsInv(h: Heap, size: nat)
    requires HeapInv(h) && NoWrap(h, size)
    ensures Keyed(h)
    ensures var (h', p) := Alloc(h, 16, size);
      && (p == NULL ==> h' == h && !Fits(h, size) && forall x :: x in h.free ==> h.size[x] < size + HEADER)
      && (p != NULL ==> Granted(h, h', p, size))
  {
    hide HeapInv, Reuse, Carve, Fits, Granted, Keyed, IsPowerOfTwo, NoWrap, TotalSize;
    InvKeyed(h);
    KeyedFree(h);
    SixteenIsPowerOfTwo();
    CarveValue(h, size);
    var i := FirstFit(h.size, h.free, size + HEADER);
    if i < |h.free| {
      ReuseKeepsInv(h, i, size);
      GrantedPointer(h, Reuse(h, i, 16, size).0, h.free[i] + HEADER, size);
    } else {
      AllocFresh(h, size);
      if Fits(h, size) {
        GrantedPointer(h, Carve(h, 16, size).0, Carve(h, 16, size).1, size);
      }
    }
  }

  lemma KeyedFree(h: Heap)
    requires Keyed(h)
    ensures forall i :: 0 <= i < |h.free| ==> h.free[i] in h.size
  {
  }

  lemma GrantedPointer(h: Heap, h': Heap, p: nat, size: nat)
    requires Granted(h, h', p, size)
    ensures p != NULL
  {
    hide HeapInv;
  }

  lemma FreeKeepsInvAt(h: Heap, e: nat, p: nat)
    requires InvAt(h, e) && (p == NULL || Live(h, p))
    ensures InvAt(Free(h, p), e)
  {
  }

  lemma FreeKeepsInv(h: Heap, p: nat)
    requires HeapInv(h) && (p == NULL || Live(h, p))
    ensures HeapInv(Free(h, p))
    ensures p != NULL ==> Free(h, p).live == h.live - {p - HEADER}
  {
    hide InvAt;
    FreeKeepsInvAt(h, 16, p);
  }
}
