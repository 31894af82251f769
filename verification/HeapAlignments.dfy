/**
 Runs of requests at any mixture of alignments: exactly for which sets of alignments every granted
 area stays inside its block and apart from the others, and exactly when a granted pointer has the
 alignment asked for.
 */
module HeapAlignments {
  import opened Heap
  import HeapLimits
  import Stride

  const ADDRESSES: nat := 0x1_0000_0000   // the buffer lies below this

  // ---- Runs ----

  datatype Call = Want(alignment: nat, size: nat) | Drop(ptr: nat)

  /** The headers a heap refers to have been written and are not at the null address. */
  ghost predicate Linked(h: Heap) {
    Keyed(h) && forall x :: x in h.live ==> x in h.size && x != NULL
  }

  /** Requests whose sums do not wrap, and frees of live pointers. */
  ghost predicate Legal(h: Heap, c: Call) {
    match c
    case Want(a, size) =>
      h.offset + CarvePadding(h.base + h.offset, EffectiveAlignment(a)) + HEADER + size < WORD
    case Drop(p) => p == NULL || Live(h, p)
  }

  lemma AllocLinked(h: Heap, a: nat, size: nat)
    requires Linked(h)
    ensures Linked(Alloc(h, a, size).0) && Alloc(h, a, size).0.base == h.base
  {
    hide IsPowerOfTwo, RoundUp, FirstFit;
    var e := EffectiveAlignment(a);
    var i := FirstFit(h.size, h.free, TotalSize(size));
    if i < |h.free| {
      ReuseLinked(h, i, e, size);
    } else {
      CarveLinked(h, e, size);
    }
  }

  lemma ReuseLinked(h: Heap, i: nat, e: nat, size: nat)
    requires Linked(h) && i < |h.free| && e > 0
    ensures Linked(Reuse(h, i, e, size).0) && Reuse(h, i, e, size).0.base == h.base
  {
    HeapLimits.RoundUpReaches(h.free[i] + HEADER, e);
    hide RoundUp;
  }

  lemma CarveLinked(h: Heap, e: nat, size: nat)
    requires Linked(h) && e >= MIN_ALIGNMENT
    ensures Linked(Carve(h, e, size).0) && Carve(h, e, size).0.base == h.base
  {
  }

  ghost function Step(h: Heap, c: Call): (h': Heap)
    requires Linked(h) && Legal(h, c)
    ensures Linked(h') && h'.base == h.base
  {
    match c
    case Want(a, size) => AllocLinked(h, a, size); Alloc(h, a, size).0
    case Drop(p) => Free(h, p)
  }

  ghost predicate LegalRun(h: Heap, cs: seq<Call>)
    requires Linked(h)
    decreases |cs|
  {
    cs == [] || (Legal(h, cs[0]) && LegalRun(Step(h, cs[0]), cs[1..]))
  }

  ghost function Run(h: Heap, cs: seq<Call>): (h': Heap)
    requires Linked(h) && LegalRun(h, cs)
    ensures Linked(h') && h'.base == h.base
    decreases |cs|
  {
    if cs == [] then h else Run(Step(h, cs[0]), cs[1..])
  }

  /** Every live area lies inside its block and the buffer, and ends before the next header. */
  ghost predicate Sound(h: Heap) {
    && (forall x :: x in h.live ==>
          x in h.size && HEADER + h.live[x] <= h.size[x] && x + h.size[x] <= h.base + h.offset)
    && (forall x, y :: x in h.live && y in h.live && x < y ==> x + HEADER + h.live[x] <= y)
  }

  ghost predicate SoundRun(base: nat, cs: seq<Call>) {
    0 < base && base + ALLOCATOR_SIZE < ADDRESSES && LegalRun(Empty(base), cs) ==>
      Sound(Run(Empty(base), cs))
  }

  ghost predicate AsksFrom(cs: seq<Call>, A: iset<nat>) {
    forall i :: 0 <= i < |cs| && cs[i].Want? ==> cs[i].alignment in A
  }

  /** Every run whose requests use alignments of the set is sound, whatever the buffer address. */
  ghost predicate AlwaysSound(A: iset<nat>) {
    forall base: nat, cs: seq<Call> :: AsksFrom(cs, A) ==> SoundRun(base, cs)
  }

  /** An alignment that is not a power of two, once raised to 8, is refused at once. */
  predicate Serves(a: nat) {
    IsPowerOfTwo(EffectiveAlignment(a))
  }

  /** The alignments that are not refused are all 8, or all 16, or all beyond the buffer. */
  ghost predicate Compatible(A: iset<nat>) {
    || (forall a :: a in A && Serves(a) ==> EffectiveAlignment(a) == 8)
    || (forall a :: a in A && Serves(a) ==> EffectiveAlignment(a) == 16)
    || (forall a :: a in A && Serves(a) ==> EffectiveAlignment(a) >= ADDRESSES)
  }

  // ---- All 8 or all 16 ----

  lemma InvAtSound(h: Heap, e: nat)
    requires InvAt(h, e)
    ensures Linked(h) && Sound(h)
  {
    hide NoDuplicates;
    forall i | 0 <= i < |h.free| ensures h.free[i] in h.size && h.free[i] != NULL {
      assert h.free[i] in h.free;
    }
  }

  lemma NoPaddingAt(x: nat, e: nat)
    requires (e == 8 || e == 16) && x % e == 0
    ensures RoundUp(x + HEADER, e) == x + HEADER
  {
  }

  lemma CarveAddressAt(address: nat, e: nat)
    requires e == 8 || e == 16
    ensures var p := CarvePadding(address, e); 8 <= p < 32 && (address + p) % e == 0
  {
    if e == 8 {
      CarveAddressAt8(address);
    } else {
      CarveAddress(address);
    }
  }

  lemma CarveAddressAt8(address: nat)
    ensures var p := CarvePadding(address, 8); 8 <= p < 32 && (address + p) % 8 == 0
  {
  }

  lemma TakeAt(h: Heap, e: nat, i: nat, size: nat)
    requires InvAt(h, e) && i < |h.free| && h.free[i] in h.size && size + HEADER <= h.size[h.free[i]]
    ensures InvAt(h.(free := h.free[..i] + h.free[i + 1..], live := h.live[h.free[i] := size]), e)
  {
    hide Tiling, Partition, Roomy;
    TakePartition(h.size, h.free, h.live, i, size);
    TakeRoomy(h.size, h.live, h.free[i], size);
  }

  lemma ReuseAt(h: Heap, e: nat, i: nat, size: nat)
    requires InvAt(h, e) && Keyed(h) && i < |h.free| && size + HEADER <= h.size[h.free[i]]
    ensures InvAt(Reuse(h, i, e, size).0, e)
  {
    hide Partition, Roomy, RoundUp;
    assert Inside(h.base, h.offset, e, h.free[i], h.size[h.free[i]]);
    NoPaddingAt(h.free[i], e);
    hide Tiling, InvAt;
    TakeAt(h, e, i, size);
  }

  lemma CarveAt(h: Heap, e: nat, size: nat)
    requires InvAt(h, e) && h.offset + CarvePadding(h.base + h.offset, e) + HEADER + size < WORD
    ensures InvAt(Carve(h, e, size).0, e)
  {
    hide InvAt, CarvePadding;
    AlignmentOf(h, e);
    CarveAddressAt(h.base + h.offset, e);
    var x := h.base + h.offset + CarvePadding(h.base + h.offset, e);
    BelowWord(size + HEADER);
    BelowWord(x - h.base + HEADER + size);
    if x - h.base + HEADER + size <= ALLOCATOR_SIZE {
      GrownKeepsInv(h, e, x, size);
    }
  }

  lemma AlignmentOf(h: Heap, e: nat)
    requires InvAt(h, e)
    ensures e == 8 || e == 16
  {
  }

  /** Every request that is not refused has effective alignment `e`. */
  ghost predicate OnlyAt(cs: seq<Call>, e: nat) {
    forall i :: 0 <= i < |cs| && cs[i].Want? && Serves(cs[i].alignment) ==>
      EffectiveAlignment(cs[i].alignment) == e
  }

  lemma StepKeepsInvAt(h: Heap, e: nat, c: Call)
    requires InvAt(h, e) && Linked(h) && Legal(h, c)
    requires c.Want? && Serves(c.alignment) ==> EffectiveAlignment(c.alignment) == e
    ensures InvAt(Step(h, c), e)
  {
    hide InvAt, Reuse, Carve, IsPowerOfTwo, CarvePadding;
    match c {
      case Want(a, size) =>
        BelowWord(size + HEADER);
        var i := FirstFit(h.size, h.free, TotalSize(size));
        if Serves(a) {
          if i < |h.free| {
            ReuseAt(h, e, i, size);
          } else {
            CarveAt(h, e, size);
          }
        }
      case Drop(p) => FreeKeepsInvAt(h, e, p);
    }
  }

  lemma {:induction false} RunKeepsInvAt(h: Heap, e: nat, cs: seq<Call>)
    requires InvAt(h, e) && Linked(h) && LegalRun(h, cs) && OnlyAt(cs, e)
    ensures InvAt(Run(h, cs), e)
    decreases |cs|
  {
    hide InvAt, Step, Linked, Legal, Serves;
    if cs != [] {
      StepKeepsInvAt(h, e, cs[0]);
      RunKeepsInvAt(Step(h, cs[0]), e, cs[1..]);
    }
  }

  lemma OneAlignmentSound(base: nat, e: nat, cs: seq<Call>)
    requires (e == 8 || e == 16) && OnlyAt(cs, e)
    ensures SoundRun(base, cs)
  {
    hide LegalRun, Run, Sound, OnlyAt;
    if 0 < base && LegalRun(Empty(base), cs) {
      assert InvAt(Empty(base), e);
      RunKeepsInvAt(Empty(base), e, cs);
      InvAtSound(Run(Empty(base), cs), e);
    }
  }

  // ---- All beyond the buffer ----

  /** The request is refused, or no header fits below the end of the buffer. */
  predicate Hopeless(a: nat) {
    Serves(a) ==> EffectiveAlignment(a) >= ADDRESSES
  }

  ghost predicate Untouched(h: Heap) {
    h.free == [] && h.live == map[] && h.offset == 0 && 0 < h.base && h.base + ALLOCATOR_SIZE < ADDRESSES
  }

  lemma HopelessAlloc(h: Heap, a: nat, size: nat)
    requires Linked(h) && Untouched(h) && Hopeless(a) && Legal(h, Want(a, size))
    ensures Alloc(h, a, size) == (h, NULL)
  {
    hide IsPowerOfTwo;
    var e := EffectiveAlignment(a);
    if e >= ADDRESSES {
      Stride.SmallRemainder(h.base, e);
      Stride.SmallRemainder(e - h.base, e);
      BelowWord(size + HEADER);
      BelowWord(CarvePadding(h.base, e) + HEADER + size);
    }
  }

  lemma {:induction false} HopelessRun(h: Heap, cs: seq<Call>)
    requires Linked(h) && Untouched(h) && LegalRun(h, cs)
    requires forall i :: 0 <= i < |cs| && cs[i].Want? ==> Hopeless(cs[i].alignment)
    ensures Run(h, cs) == h
    decreases |cs|
  {
    hide Hopeless, Alloc, Linked, CarvePadding;
    if cs != [] {
      if cs[0].Want? {
        HopelessAlloc(h, cs[0].alignment, cs[0].size);
      }
      HopelessRun(h, cs[1..]);
    }
  }

  lemma HopelessSound(base: nat, cs: seq<Call>)
    requires forall i :: 0 <= i < |cs| && cs[i].Want? ==> Hopeless(cs[i].alignment)
    ensures SoundRun(base, cs)
  {
    hide Hopeless, LegalRun, Run;
    if 0 < base && base + ALLOCATOR_SIZE < ADDRESSES && LegalRun(Empty(base), cs) {
      HopelessRun(Empty(base), cs);
    }
  }

  // ---- Two alignments that do not go together ----

  /** Where the first block of an empty heap gets its header. */
  function FirstHeader(base: nat, d: nat): nat
    requires d > 0
  {
    base + CarvePadding(base, d)
  }

  /** Eight bytes at one alignment, freed, and eight bytes at another. */
  function PairRun(base: nat, a: nat, b: nat): seq<Call> {
    [Want(a, 8), Drop(FirstHeader(base, EffectiveAlignment(a)) + HEADER), Want(b, 8)]
  }

  /** The first block fits and its user area does not have the second alignment. */
  predicate Clash(base: nat, a: nat, b: nat) {
    var d, e := EffectiveAlignment(a), EffectiveAlignment(b);
    && Serves(a) && Serves(b) && 0 < base && base + ALLOCATOR_SIZE < ADDRESSES
    && CarvePadding(base, d) + 24 <= ALLOCATOR_SIZE && (FirstHeader(base, d) + HEADER) % e != 0
  }

  /** The three heaps of that run, with the block at `x` and the second area at `t`. */
  function Held(base: nat, x: nat): Heap
    requires base <= x
  {
    Heap(base, x - base + 24, map[x := 24], [], map[x := 8])
  }

  function Freed(base: nat, x: nat): Heap
    requires base <= x
  {
    Heap(base, x - base + 24, map[x := 24], [x], map[])
  }

  function Moved(base: nat, x: nat, t: nat): Heap
    requires base <= x && x + HEADER <= t
  {
    Heap(base, x - base + 24, map[x := 24][t - HEADER := (24 - (t - HEADER - x)) % WORD], [], map[t - HEADER := 8])
  }

  lemma FirstWant(base: nat, a: nat)
    requires Serves(a) && CarvePadding(base, EffectiveAlignment(a)) + 24 <= ALLOCATOR_SIZE
    ensures var x := FirstHeader(base, EffectiveAlignment(a));
      Keyed(Empty(base)) && Alloc(Empty(base), a, 8) == (Held(base, x), x + HEADER)
  {
    hide IsPowerOfTwo, CarvePadding;
    var x := FirstHeader(base, EffectiveAlignment(a));
    assert map[][x := 24] == map[x := 24];
  }

  lemma FreeHeld(base: nat, x: nat)
    requires base <= x && 0 < x
    ensures Free(Held(base, x), x + HEADER) == Freed(base, x)
  {
    assert map[x := 8] - {x} == map[];
  }

  lemma Rounding(y: nat, e: nat)
    requires e > 0 && y % e != 0
    ensures y < RoundUp(y, e) < y + e
  {
    HeapLimits.RoundUpReaches(y, e);
    RoundUpAligned(y, e);
    Stride.SmallRemainder(0, e);
  }

  lemma ReuseFreed(base: nat, x: nat, e: nat)
    requires e > 0 && 0 < base <= x && x + HEADER < RoundUp(x + HEADER, e)
    ensures Keyed(Freed(base, x)) && Reuse(Freed(base, x), 0, e, 8).0 == Moved(base, x, RoundUp(x + HEADER, e))
  {
    hide RoundUp;
    assert [x][..0] + [x][1..] == [];
    var m := RoundUp(x + HEADER, e) - HEADER;
    assert map[][m := 8] == map[m := 8];
  }

  lemma FitsFreed(base: nat, x: nat)
    requires 0 < base <= x
    ensures Keyed(Freed(base, x)) && FirstFit(Freed(base, x).size, Freed(base, x).free, TotalSize(8)) == 0
    ensures |Freed(base, x).free| == 1
  {
  }

  lemma SecondWant(base: nat, x: nat, b: nat)
    requires Serves(b) && 0 < base <= x && (x + HEADER) % EffectiveAlignment(b) != 0
    ensures var t := RoundUp(x + HEADER, EffectiveAlignment(b));
      Keyed(Freed(base, x)) && x + HEADER < t && Alloc(Freed(base, x), b, 8).0 == Moved(base, x, t)
  {
    hide IsPowerOfTwo, RoundUp, Reuse, Moved, Freed, FirstFit;
    Rounding(x + HEADER, EffectiveAlignment(b));
    FitsFreed(base, x);
    ReuseFreed(base, x, EffectiveAlignment(b));
  }

  /** The area of the moved block ends past its block, or its block past the buffer. */
  lemma MovedUnsound(base: nat, x: nat, t: nat)
    requires base <= x && x + HEADER < t < x + WORD
    ensures !Sound(Moved(base, x, t))
  {
    var m := Moved(base, x, t);
    assert t - HEADER in m.live && m.live[t - HEADER] == 8;
    var pad := t - HEADER - x;
    if pad > 24 {
      assert (24 - pad) % WORD == WORD + 24 - pad;
    }
  }

  /** A legal run of three calls. */
  lemma ThreeCalls(h0: Heap, h1: Heap, h2: Heap, h3: Heap, c0: Call, c1: Call, c2: Call)
    requires Linked(h0) && Legal(h0, c0) && Step(h0, c0) == h1 && Legal(h1, c1) && Step(h1, c1) == h2
    requires Legal(h2, c2) && Step(h2, c2) == h3
    ensures LegalRun(h0, [c0, c1, c2]) && Run(h0, [c0, c1, c2]) == h3
  {
    hide Step, Legal, Linked;
    var cs := [c0, c1, c2];
    assert cs[1..] == [c1, c2] && cs[1..][1..] == [c2] && cs[1..][1..][1..] == [];
    assert LegalRun(h2, [c2]) && Run(h2, [c2]) == h3;
    assert LegalRun(h1, cs[1..]) && Run(h1, cs[1..]) == h3;
  }

  lemma PaddingBound(address: nat, e: nat)
    requires e > 0
    ensures CarvePadding(address, e) < e + HEADER
  {
  }

  lemma WantIsLegal(h: Heap, a: nat)
    requires a < WORD && Serves(a) && h.offset <= ALLOCATOR_SIZE
    ensures Legal(h, Want(a, 8)) && EffectiveAlignment(a) < WORD
  {
    hide IsPowerOfTwo, CarvePadding;
    HalfWord(EffectiveAlignment(a));
    PaddingBound(h.base + h.offset, EffectiveAlignment(a));
  }

  /** The run of three calls and the heap it ends in. */
  lemma PairRunEnds(base: nat, x: nat, a: nat, b: nat)
    requires a < WORD && b < WORD && Clash(base, a, b) && x == FirstHeader(base, EffectiveAlignment(a))
    ensures var t := RoundUp(x + HEADER, EffectiveAlignment(b));
      && Linked(Empty(base)) && base <= x && x + HEADER < t < x + WORD && LegalRun(Empty(base), PairRun(base, a, b))
      && Run(Empty(base), PairRun(base, a, b)) == Moved(base, x, t)
  {
    hide Serves, Alloc, CarvePadding, RoundUp, LegalRun, Run, Legal, Moved, Free, Freed, Held, Empty;
    var t := RoundUp(x + HEADER, EffectiveAlignment(b));
    FirstWant(base, a);
    FreeHeld(base, x);
    SecondWant(base, x, b);
    RoundingInWord(x + HEADER, b);
    EmptyLinked(base);
    WantIsLegal(Empty(base), a);
    FreedOffset(base, x, a);
    WantIsLegal(Freed(base, x), b);
    DropIsLegal(base, x);
    ThreeCalls(Empty(base), Held(base, x), Freed(base, x), Moved(base, x, t), Want(a, 8), Drop(x + HEADER), Want(b, 8));
  }

  lemma RoundingInWord(y: nat, b: nat)
    requires b < WORD && Serves(b) && y % EffectiveAlignment(b) != 0
    ensures RoundUp(y, EffectiveAlignment(b)) < y + WORD - HEADER
  {
    hide IsPowerOfTwo, RoundUp;
    HalfWord(EffectiveAlignment(b));
    Rounding(y, EffectiveAlignment(b));
  }

  lemma EmptyLinked(base: nat)
    ensures Linked(Empty(base)) && Empty(base).offset == 0
  {
  }

  lemma FreedOffset(base: nat, x: nat, a: nat)
    requires x == FirstHeader(base, EffectiveAlignment(a))
    requires CarvePadding(base, EffectiveAlignment(a)) + 24 <= ALLOCATOR_SIZE
    ensures Freed(base, x).offset <= ALLOCATOR_SIZE
  {
    hide CarvePadding;
  }

  /** Whenever the first block's area lacks the second alignment, the run of three calls is unsound. */
  lemma ClashUnsound(base: nat, a: nat, b: nat)
    requires a < WORD && b < WORD && Clash(base, a, b)
    ensures !SoundRun(base, PairRun(base, a, b))
  {
    hide Clash, Sound, RoundUp, LegalRun, Run, Linked, Moved, Empty, PairRun, FirstHeader;
    ClashBase(base, a, b);
    var x := FirstHeader(base, EffectiveAlignment(a));
    PairRunEnds(base, x, a, b);
    MovedUnsound(base, x, RoundUp(x + HEADER, EffectiveAlignment(b)));
  }

  lemma ClashBase(base: nat, a: nat, b: nat)
    requires Clash(base, a, b)
    ensures 0 < base && base + ALLOCATOR_SIZE < ADDRESSES
  {
    hide IsPowerOfTwo, CarvePadding;
  }

  lemma DropIsLegal(base: nat, x: nat)
    requires base <= x && 0 < x
    ensures Legal(Held(base, x), Drop(x + HEADER))
  {
  }

  // ---- Powers of two ----

  function Pow2(k: nat): nat {
    if k == 0 then 1 else 2 * Pow2(k - 1)
  }

  lemma {:induction false} Pow2IsPower(k: nat)
    ensures IsPowerOfTwo(Pow2(k))
  {
    if k > 0 {
      Pow2IsPower(k - 1);
      DoubleIsPower(Pow2(k - 1));
    }
  }

  lemma DoubleIsPower(p: nat)
    requires IsPowerOfTwo(p)
    ensures IsPowerOfTwo(2 * p)
  {
    var q := 2 * p;
    assert q % 2 == 0 && q / 2 == p;
  }

  /** The next power of two is the double. */
  lemma {:induction false} NextPower(a: nat, b: nat)
    requires IsPowerOfTwo(a) && IsPowerOfTwo(b) && a > b
    ensures a >= 2 * b
    decreases b
  {
    if b > 1 { NextPower(a / 2, b / 2); }
  }

  lemma FourMore(k: nat)
    ensures Pow2(k + 4) == 16 * Pow2(k)
  {
    assert Pow2(k + 2) == 4 * Pow2(k);
  }

  lemma SixteenMore(k: nat)
    ensures Pow2(k + 16) == 0x1_0000 * Pow2(k)
  {
    hide Pow2;
    FourMore(k);
    FourMore(k + 4);
    FourMore(k + 8);
    FourMore(k + 12);
  }

  lemma SomePowers()
    ensures Pow2(31) == 0x8000_0000 && Pow2(32) == 0x1_0000_0000 && Pow2(63) == 0x8000_0000_0000_0000
  {
    hide Pow2;
    PowersOfTwo();
    SixteenMore(0);
    SixteenMore(16);
    SixteenMore(31);
    SixteenMore(47);
    assert Pow2(31 + 1) == 2 * Pow2(31);
  }

  lemma PowersOfTwo()
    ensures Pow2(0) == 1 && forall k: nat :: Pow2(k + 1) == 2 * Pow2(k)
  {
  }

  lemma HalfWord(e: nat)
    requires IsPowerOfTwo(e) && e < WORD
    ensures e <= 0x8000_0000_0000_0000
  {
    SomePowers();
    Pow2IsPower(63);
    hide IsPowerOfTwo, Pow2;
    if e > 0x8000_0000_0000_0000 {
      NextPower(e, 0x8000_0000_0000_0000);
    }
  }

  lemma HalfAddresses(e: nat)
    requires IsPowerOfTwo(e) && e < ADDRESSES
    ensures e <= 0x8000_0000
  {
    SomePowers();
    Pow2IsPower(31);
    hide IsPowerOfTwo, Pow2;
    if e > 0x8000_0000 {
      NextPower(e, 0x8000_0000);
    }
  }

  /** The alignments that are not refused: 8, 16, or at least 32. */
  lemma Served(a: nat)
    requires Serves(a)
    ensures var e := EffectiveAlignment(a); e == 8 || e == 16 || e >= 32
  {
    var e := EffectiveAlignment(a);
    SixteenIsPowerOfTwo();
    hide IsPowerOfTwo;
    if e <= 16 {
      HeapLimits.SmallPowersOfTwo(e);
    } else {
      NextPower(e, 16);
    }
  }

  // ---- The clashes ----

  lemma ClashAlone(a: nat)
    requires Serves(a) && 32 <= a < ADDRESSES
    ensures Clash(a - 16, a, a)
  {
    HalfAddresses(a);
    Stride.SmallRemainder(a - 16, a);
    Stride.SmallRemainder(16, a);
    Stride.GapRemainder(a + HEADER, HEADER, a, 1);
    hide IsPowerOfTwo;
  }

  /** Every power of two from 32 to 2^31 fails alone: on a buffer 16 bytes below a multiple of it,
      eight bytes allocated, freed and allocated again. */
  lemma LargeAlignmentsUnsound(a: nat)
    requires Serves(a) && 32 <= a < ADDRESSES
    ensures !SoundRun(a - 16, [Want(a, 8), Drop(a + 16), Want(a, 8)])
  {
    hide Serves, SoundRun, Clash;
    ClashAlone(a);
    AloneHeader(a);
    ClashUnsound(a - 16, a, a);
  }

  lemma AloneHeader(a: nat)
    requires 32 <= a
    ensures FirstHeader(a - 16, a) == a
  {
    Stride.SmallRemainder(a - 16, a);
    Stride.SmallRemainder(16, a);
  }

  lemma FirstHeaders()
    ensures FirstHeader(4096, 8) == 4104 && FirstHeader(4096, 16) == 4112
  {
  }

  /** 8 clashes with everything larger; 16 with everything beyond the buffer. */
  lemma ClashSmall(a: nat, b: nat)
    requires Serves(a) && Serves(b)
    requires var d, e := EffectiveAlignment(a), EffectiveAlignment(b);
      (d == 8 && e == 16) || ((d == 8 || d == 16) && e >= ADDRESSES)
    ensures Clash(4096, a, b)
  {
    FirstHeaders();
    hide IsPowerOfTwo, CarvePadding;
    var e := EffectiveAlignment(b);
    if e >= ADDRESSES {
      Stride.SmallRemainder(FirstHeader(4096, EffectiveAlignment(a)) + HEADER, e);
    }
  }

  /** For instance: alignment 32 alone, 8 with 16, and 16 with 2^32. */
  lemma MixturesFail()
    ensures !SoundRun(16, [Want(32, 8), Drop(48), Want(32, 8)])
    ensures !SoundRun(4096, [Want(8, 8), Drop(4120), Want(16, 8)])
    ensures !SoundRun(4096, [Want(16, 8), Drop(4128), Want(0x1_0000_0000, 8)])
  {
    assert Serves(8) && Serves(16) && Serves(32);
    SomePowers();
    Pow2IsPower(32);
    hide IsPowerOfTwo, SoundRun, Clash, Pow2;
    LargeAlignmentsUnsound(32);
    FirstHeaders();
    ClashSmall(8, 16);
    ClashUnsound(4096, 8, 16);
    ClashSmall(16, 0x1_0000_0000);
    ClashUnsound(4096, 16, 0x1_0000_0000);
  }

  lemma Refuted(A: iset<nat>, base: nat, a: nat, b: nat)
    requires a in A && b in A && a < WORD && b < WORD && Clash(base, a, b)
    ensures !AlwaysSound(A)
  {
    hide Clash, SoundRun;
    ClashUnsound(base, a, b);
    assert AsksFrom(PairRun(base, a, b), A);
  }

  // ---- The exact conditions ----

  lemma CompatibleSound(A: iset<nat>)
    requires Compatible(A)
    ensures AlwaysSound(A)
  {
    hide SoundRun, Serves;
    forall base: nat, cs: seq<Call> | AsksFrom(cs, A) ensures SoundRun(base, cs) {
      if forall a :: a in A && Serves(a) ==> EffectiveAlignment(a) == 8 {
        OneAlignmentSound(base, 8, cs);
      } else if forall a :: a in A && Serves(a) ==> EffectiveAlignment(a) == 16 {
        OneAlignmentSound(base, 16, cs);
      } else {
        HopelessSound(base, cs);
      }
    }
  }

  lemma SoundCompatible(A: iset<nat>)
    requires (forall a :: a in A ==> a < WORD) && !Compatible(A)
    ensures !AlwaysSound(A)
  {
    hide AlwaysSound, Serves, Clash;
    var a1 :| a1 in A && Serves(a1) && EffectiveAlignment(a1) != 8;
    var a2 :| a2 in A && Serves(a2) && EffectiveAlignment(a2) != 16;
    var a3 :| a3 in A && Serves(a3) && EffectiveAlignment(a3) < ADDRESSES;
    Served(a1);
    Served(a2);
    Served(a3);
    if 32 <= EffectiveAlignment(a1) < ADDRESSES {
      ClashAlone(a1);
      Refuted(A, a1 - 16, a1, a1);
    } else if 32 <= EffectiveAlignment(a2) < ADDRESSES {
      ClashAlone(a2);
      Refuted(A, a2 - 16, a2, a2);
    } else if 32 <= EffectiveAlignment(a3) {
      ClashAlone(a3);
      Refuted(A, a3 - 16, a3, a3);
    } else if EffectiveAlignment(a3) == 8 {
      ClashSmall(a3, a1);
      Refuted(A, 4096, a3, a1);
    } else if EffectiveAlignment(a2) == 8 {
      ClashSmall(a2, a3);
      Refuted(A, 4096, a2, a3);
    } else {
      ClashSmall(a3, a2);
      Refuted(A, 4096, a3, a2);
    }
  }

  /** Runs that use any alignments of a set keep every granted area inside its block and apart from
      the others, for every buffer address and every run, if and only if those of its alignments
      that are not refused are all 8, all 16, or all beyond the buffer. */
  lemma SoundExactly(A: iset<nat>)
    requires forall a :: a in A ==> a < WORD
    ensures AlwaysSound(A) <==> Compatible(A)
  {
    hide AlwaysSound, Compatible;
    if Compatible(A) {
      CompatibleSound(A);
    } else {
      SoundCompatible(A);
    }
  }

  lemma RoundUpAligned(x: nat, e: nat)
    requires e > 0
    ensures RoundUp(x, e) % e == 0
  {
    Stride.GapRemainder(RoundUp(x, e), 0, e, (x + (e - 1)) / e);
    Stride.SmallRemainder(0, e);
  }

  /** A granted pointer has the alignment asked for if and only if it was served from the free list
      or the alignment is at most 16. */
  lemma GrantedAlignedExactly(h: Heap, a: nat, size: nat)
    requires Keyed(h) && Alloc(h, a, size).1 != NULL
    ensures Alloc(h, a, size).1 % EffectiveAlignment(a) == 0 <==>
      FirstFit(h.size, h.free, TotalSize(size)) < |h.free| || EffectiveAlignment(a) <= 16
  {
    hide RoundUp, IsPowerOfTwo, CarvePadding;
    var e := EffectiveAlignment(a);
    var i := FirstFit(h.size, h.free, TotalSize(size));
    if i < |h.free| {
      HeapLimits.RoundUpReaches(h.free[i] + HEADER, e);
      RoundUpAligned(h.free[i] + HEADER, e);
    } else {
      hide Carve;
      HeapLimits.FreshAlignedExactly(h, e, size);
    }
  }
}
