/**
 Whole runs of the allocator: the invariant over every legal run, and the number of
 blocks carved by runs of equal-sized requests.
 */
module HeapRuns {
  import opened Heap

  /** What a caller asks of the allocator; every caller in the kernel asks for alignment 16. */
  datatype Request = Get(size: nat) | Put(ptr: nat)

  ghost predicate Legal(h: Heap, r: Request) {
    match r
    case Get(size) => NoWrap(h, size)
    case Put(p) => p == NULL || Live(h, p)
  }

  ghost function Step(h: Heap, r: Request): (h': Heap)
    requires HeapInv(h) && Legal(h, r)
    ensures HeapInv(h') && h'.base == h.base
  {
    match r
    case Get(size) => AllocKeepsInv(h, size); Alloc(h, 16, size).0
    case Put(p) => FreeKeepsInv(h, p); Free(h, p)
  }

  ghost predicate LegalRun(h: Heap, rs: seq<Request>)
    requires HeapInv(h)
    decreases |rs|
  {
    rs == [] || (Legal(h, rs[0]) && LegalRun(Step(h, rs[0]), rs[1..]))
  }

  ghost function Run(h: Heap, rs: seq<Request>): (h': Heap)
    requires HeapInv(h) && LegalRun(h, rs)
    ensures HeapInv(h') && h'.base == h.base
    decreases |rs|
  {
    if rs == [] then h else Run(Step(h, rs[0]), rs[1..])
  }

  lemma AreasApart(h: Heap, p: nat, q: nat)
    requires HeapInv(h) && Live(h, p) && Live(h, q) && p != q
    ensures p % 16 == 0 && h.base < p && p + h.live[p - HEADER] <= h.base + ALLOCATOR_SIZE
    ensures p + h.live[p - HEADER] <= q || q + h.live[q - HEADER] <= p
  {
    hide Tiling, Partition, Roomy;
    BlocksApart(h.base, h.offset, h.size, h.live, p - HEADER, q - HEADER);
  }

  lemma BlocksApart(base: nat, offset: nat, size: map<nat, nat>, live: map<nat, nat>, x: nat, y: nat)
    requires Tiling(base, offset, 16, size) && Roomy(size, live) && x in live && y in live && x != y
    ensures x % 16 == 0 && base <= x && x + HEADER + live[x] <= base + offset
    ensures x + HEADER + live[x] <= y || y + HEADER + live[y] <= x
  {
    assert x in size && y in size;
    assert Inside(base, offset, 16, x, size[x]);
  }

  /** What the invariant means for owners: after any legal run, two live user areas never
      overlap, and each lies inside the buffer at a 16-aligned address. */
  lemma UserAreasDisjoint(base: nat, rs: seq<Request>, p: nat, q: nat)
    requires HeapInv(Empty(base)) && LegalRun(Empty(base), rs)
    requires Live(Run(Empty(base), rs), p) && Live(Run(Empty(base), rs), q) && p != q
    ensures var live := Run(Empty(base), rs).live;
      && p % 16 == 0 && base < p && p + live[p - HEADER] <= base + ALLOCATOR_SIZE
      && (p + live[p - HEADER] <= q || q + live[q - HEADER] <= p)
  {
    hide HeapInv;
    AreasApart(Run(Empty(base), rs), p, q);
  }

  lemma EmptyInv(base: nat)
    requires 0 < base && base + ALLOCATOR_SIZE < 0x1_0000_0000
    ensures HeapInv(Empty(base))
  {
  }

  /** Last freed, first used: a request that fits what the owner had is granted the very block again. */
  lemma FreedFirst(h: Heap, p: nat, size: nat)
    requires HeapInv(h) && Live(h, p) && size <= h.live[p - HEADER]
    ensures HeapInv(Free(h, p)) && Keyed(Free(h, p))
    ensures var (h', q) := Alloc(Free(h, p), 16, size); q == p && h'.free == h.free
  {
    hide HeapInv, Reuse, IsPowerOfTwo, Free, FirstFit, Keyed, TotalSize;
    var f := Free(h, p);
    FreeKeepsInv(h, p);
    InvKeyed(f);
    KeyedFree(f);
    SixteenIsPowerOfTwo();
    FreedFits(h, p, size);
    ReuseKeepsInv(f, 0, size);
    assert f.free[..0] + f.free[1..] == h.free;
  }

  lemma FreedFits(h: Heap, p: nat, size: nat)
    requires HeapInv(h) && Live(h, p) && size <= h.live[p - HEADER] && Keyed(Free(h, p))
    ensures TotalSize(size) == size + HEADER
    ensures var f := Free(h, p); FirstFit(f.size, f.free, size + HEADER) == 0 && f.free[0] == p - HEADER
    ensures var f := Free(h, p);
      && f.free == [p - HEADER] + h.free && p - HEADER in f.size && size + HEADER <= f.size[p - HEADER]
  {
    assert Inside(h.base, h.offset, 16, p - HEADER, h.size[p - HEADER]);
    BelowWord(size + HEADER);
    hide NoDuplicates;
  }

  // ---- Carved blocks and peak use ----

  /** All requests of the run ask for `s` bytes and are granted. */
  ghost predicate Uniform(h: Heap, rs: seq<Request>, s: nat)
    requires HeapInv(h) && LegalRun(h, rs)
    decreases |rs|
  {
    rs == [] ||
    (&& (rs[0].Get? ==> Keyed(h) && rs[0].size == s && Alloc(h, 16, s).1 != NULL)
     && Uniform(Step(h, rs[0]), rs[1..], s))
  }

  function Max(a: nat, b: nat): nat {
    if a < b then b else a
  }

  /** The largest number of blocks live at the same time during the run. */
  ghost function Peak(h: Heap, rs: seq<Request>): nat
    requires HeapInv(h) && LegalRun(h, rs)
    decreases |rs|
  {
    if rs == [] then |h.live| else Max(|h.live|, Peak(Step(h, rs[0]), rs[1..]))
  }

  ghost predicate AllOfSize(h: Heap, s: nat) {
    forall x :: x in h.size ==> h.size[x] == s + HEADER
  }

  lemma {:induction false} DistinctCount(s: seq<nat>)
    requires NoDuplicates(s)
    ensures |Elements(s)| == |s|
  {
    if s == [] {
      assert Elements(s) == {};
    } else {
      DistinctCount(s[1..]);
      assert s == [s[0]] + s[1..];
      assert Elements(s) == {s[0]} + Elements(s[1..]);
      assert s[0] !in Elements(s[1..]);
    }
  }

  lemma PartitionCount(size: map<nat, nat>, free: seq<nat>, live: map<nat, nat>)
    requires Partition(size, free, live)
    ensures |size| == |live| + |free|
  {
    DistinctCount(free);
    var f := Elements(free);
    assert size.Keys == live.Keys + f;
    assert live.Keys !! f;
    assert |size.Keys| == |live.Keys| + |f|;
  }

  /** Conservation: every block ever carved is either live or on the free list. */
  lemma CarvedIsLivePlusFree(h: Heap)
    requires HeapInv(h)
    ensures |h.size| == |h.live| + |h.free|
  {
    hide Tiling, Roomy, Partition;
    PartitionCount(h.size, h.free, h.live);
  }

  /** Granting a request of the common size uses a free block whenever there is one. */
  ghost predicate GetCounts(h: Heap, h': Heap, s: nat) {
    && AllOfSize(h', s) && |h'.live| == |h.live| + 1
    && |h'.size| == if h.free == [] then |h.size| + 1 else |h.size|
  }

  lemma AddKey(m: map<nat, nat>, x: nat, v: nat)
    requires x !in m
    ensures |m[x := v]| == |m| + 1
  {
  }

  lemma CarvedCounts(h: Heap, s: nat)
    requires HeapInv(h) && AllOfSize(h, s) && Fits(h, s) && h.free == []
    ensures GetCounts(h, Carved(h, s), s)
  {
    hide HeapInv, CarveHeader, Fits;
    CarvedKeepsInv(h, s);
    AddKey(h.size, CarveHeader(h), s + HEADER);
    AddKey(h.live, CarveHeader(h), s);
  }

  lemma ReuseCounts(h: Heap, s: nat)
    requires HeapInv(h) && AllOfSize(h, s) && Keyed(h) && h.free != []
    ensures GetCounts(h, Reuse(h, 0, 16, s).0, s)
  {
    hide HeapInv, Reuse;
    ReuseKeepsInv(h, 0, s);
    AddKey(h.live, h.free[0], s);
  }

  lemma UniformGet(h: Heap, s: nat)
    requires HeapInv(h) && NoWrap(h, s) && AllOfSize(h, s) && Keyed(h)
    requires Alloc(h, 16, s).1 != NULL
    ensures GetCounts(h, Alloc(h, 16, s).0, s)
  {
    hide HeapInv, Reuse, Carve, Fits, CarvePadding, GetCounts;
    SixteenIsPowerOfTwo();
    CarveValue(h, s);
    if h.free == [] {
      CarvedCounts(h, s);
    } else {
      ReuseCounts(h, s);
    }
  }

  lemma PutCounts(h: Heap, p: nat)
    requires HeapInv(h) && (p == NULL || Live(h, p))
    ensures |Free(h, p).live| <= |h.live| && Free(h, p).size == h.size
  {
  }

  /** A run that starts with some blocks already carved ends with the larger of their number and
      its own peak. */
  lemma {:induction false} CarvedTracksPeak(h: Heap, rs: seq<Request>, s: nat)
    requires HeapInv(h) && LegalRun(h, rs) && AllOfSize(h, s) && Uniform(h, rs, s)
    ensures |Run(h, rs).size| == Max(|h.size|, Peak(h, rs))
    decreases |rs|
  {
    hide HeapInv, Alloc, Free, Carve, Reuse;
    CarvedIsLivePlusFree(h);
    if rs != [] {
      match rs[0] {
        case Get(size) => UniformGet(h, s);
        case Put(p) => PutCounts(h, p);
      }
      var h' := Step(h, rs[0]);
      CarvedIsLivePlusFree(h');
      CarvedTracksPeak(h', rs[1..], s);
      PeakAtLeastNow(h', rs[1..]);
    }
  }

  lemma PeakAtLeastNow(h: Heap, rs: seq<Request>)
    requires HeapInv(h) && LegalRun(h, rs)
    ensures Peak(h, rs) >= |h.live|
  {
  }

  /** From an empty heap, a run of equal-sized granted requests carves exactly as many blocks as
      were ever live at once. */
  lemma CarvedEqualsPeak(base: nat, rs: seq<Request>, s: nat)
    requires HeapInv(Empty(base)) && LegalRun(Empty(base), rs) && Uniform(Empty(base), rs, s)
    ensures |Run(Empty(base), rs).size| == Peak(Empty(base), rs)
  {
    CarvedTracksPeak(Empty(base), rs, s);
  }
}
