/**
 Who may point at what. Every live heap block is a typed object; a frame-list slot is either
 terminated or links to a live queue head; owners (open pipes and the transfer in progress)
 hold disjoint sets of objects, and an owner's queue head is linked only from its own region
 of the frame list.
 */
module Resources {
  import opened Heap
  import opened UhciWords
  import FrameList

  datatype Td = Td(link: nat, status: bv32, token: bv32, buffer: nat)
  datatype Qh = Qh(horizontal: nat, vertical: nat)
  datatype Object = TdObject(td: Td) | QhObject(qh: Qh) | Bytes(data: seq<bv8>)

  datatype Owner = Owner(ptrs: seq<nat>, qh: nat, region: set<nat>)

  datatype Core = Core(heap: Heap, slots: seq<nat>, mem: map<nat, Object>, owners: map<nat, Owner>)

  // ---- The discipline ----

  predicate IsQh(mem: map<nat, Object>, q: nat) {
    q in mem && mem[q].QhObject?
  }

  /** A slot is terminated or links to a live queue head. */
  predicate SlotOk(mem: map<nat, Object>, w: nat) {
    w == TERMINATE || (IsQh(mem, Pointer(w)) && w == QhLink(Pointer(w)))
  }

  ghost predicate SlotsOk(mem: map<nat, Object>, slots: seq<nat>) {
    |slots| == FrameList.FRAMES && forall f :: 0 <= f < |slots| ==> SlotOk(mem, slots[f])
  }

  /** The queue head is linked only from slots of the region. */
  ghost predicate Confined(slots: seq<nat>, q: nat, region: set<nat>) {
    forall f :: 0 <= f < |slots| && slots[f] == QhLink(q) ==> f in region
  }

  ghost predicate AllIn(mem: map<nat, Object>, ptrs: seq<nat>) {
    forall i :: 0 <= i < |ptrs| ==> ptrs[i] in mem
  }

  ghost predicate OwnerOk(slots: seq<nat>, mem: map<nat, Object>, o: Owner) {
    && NoDuplicates(o.ptrs) && AllIn(mem, o.ptrs)
    && o.qh in o.ptrs && IsQh(mem, o.qh)
    && Confined(slots, o.qh, o.region)
  }

  ghost predicate OwnersOk(slots: seq<nat>, mem: map<nat, Object>, owners: map<nat, Owner>) {
    forall k :: k in owners ==> OwnerOk(slots, mem, owners[k])
  }

  ghost predicate Apart(owners: map<nat, Owner>) {
    forall k, l, p :: k in owners && l in owners && p in owners[k].ptrs && p in owners[l].ptrs ==> k == l
  }

  /** The objects are exactly the live blocks. */
  ghost predicate Typed(h: Heap, mem: map<nat, Object>) {
    forall p :: p in mem <==> Live(h, p)
  }

  ghost predicate CoreInv(c: Core) {
    && HeapInv(c.heap)
    && Typed(c.heap, c.mem)
    && SlotsOk(c.mem, c.slots)
    && OwnersOk(c.slots, c.mem, c.owners)
    && Apart(c.owners)
  }

  ghost predicate Unowned(owners: map<nat, Owner>, p: nat) {
    forall k :: k in owners ==> p !in owners[k].ptrs
  }

  lemma LiveLinkable(h: Heap, p: nat)
    requires HeapInv(h) && Live(h, p)
    ensures Linkable(p)
  {
    hide Tiling, Partition, NoDuplicates;
    LiveInside(h.base, h.offset, h.size, h.live, h.free, p - HEADER);
  }

  lemma LiveInside(base: nat, offset: nat, size: map<nat, nat>, live: map<nat, nat>, free: seq<nat>, x: nat)
    requires Tiling(base, offset, 16, size) && Partition(size, free, live) && x in live
    ensures x in size && Inside(base, offset, 16, x, size[x])
  {
  }

  lemma ObjectLinkable(c: Core, p: nat)
    requires CoreInv(c) && p in c.mem
    ensures Linkable(p) && p > HEADER
  {
    hide HeapInv, SlotsOk, OwnersOk, Apart, Linkable;
    LiveLinkable(c.heap, p);
  }

  // ---- Obtaining objects ----

  /** Allocate `size` bytes at alignment 16 and place `obj` there; null when out of memory. */
  function Obtain(c: Core, size: nat, obj: Object): (Core, nat)
    requires Keyed(c.heap)
  {
    var (h, p) := Alloc(c.heap, 16, size);
    if p == NULL then (c.(heap := h), NULL) else (c.(heap := h, mem := c.mem[p := obj]), p)
  }

  lemma GrowMem(slots: seq<nat>, mem: map<nat, Object>, owners: map<nat, Owner>, p: nat, obj: Object)
    requires SlotsOk(mem, slots) && OwnersOk(slots, mem, owners) && p !in mem
    ensures SlotsOk(mem[p := obj], slots) && OwnersOk(slots, mem[p := obj], owners)
  {
  }

  lemma TypedGrows(h: Heap, h': Heap, mem: map<nat, Object>, p: nat, size: nat, obj: Object)
    requires Typed(h, mem) && Granted(h, h', p, size)
    ensures p !in mem && p != NULL && Typed(h', mem[p := obj])
  {
    hide HeapInv, InvAt;
  }

  lemma ObtainKeepsInv(c: Core, size: nat, obj: Object)
    requires CoreInv(c) && size <= ALLOCATOR_SIZE
    ensures Keyed(c.heap)
    ensures var (c', p) := Obtain(c, size, obj);
      && CoreInv(c') && c'.slots == c.slots && c'.owners == c.owners
      && (p == NULL ==> c' == c)
      && (p != NULL ==> p !in c.mem && c'.mem == c.mem[p := obj])
  {
    hide HeapInv, Typed, SlotsOk, OwnersOk, Apart, Alloc, NoWrap, Granted;
    SmallRequests(c.heap, size);
    AllocKeepsInv(c.heap, size);
    var (h, p) := Alloc(c.heap, 16, size);
    if p != NULL {
      GrantedInv(c.heap, h, p, size);
      TypedGrows(c.heap, h, c.mem, p, size, obj);
      GrowMem(c.slots, c.mem, c.owners, p, obj);
    }
  }

  lemma GrantedInv(h: Heap, h': Heap, p: nat, size: nat)
    requires Granted(h, h', p, size)
    ensures HeapInv(h')
  {
  }

  // ---- Releasing objects ----

  function Release(c: Core, p: nat): Core
    requires p == NULL || p > HEADER
  {
    c.(heap := Free(c.heap, p), mem := c.mem - {p})
  }

  /** No slot links to the object. */
  ghost predicate Unlinked(slots: seq<nat>, p: nat) {
    forall f :: 0 <= f < |slots| ==> slots[f] != QhLink(p)
  }

  lemma ShrinkMem(slots: seq<nat>, mem: map<nat, Object>, owners: map<nat, Owner>, p: nat)
    requires SlotsOk(mem, slots) && OwnersOk(slots, mem, owners)
    requires Unowned(owners, p) && Unlinked(slots, p)
    ensures SlotsOk(mem - {p}, slots) && OwnersOk(slots, mem - {p}, owners)
  {
  }

  lemma TypedShrinks(h: Heap, mem: map<nat, Object>, p: nat)
    requires Typed(h, mem) && Live(h, p)
    ensures Typed(Free(h, p), mem - {p})
  {
  }

  lemma ReleaseKeepsInv(c: Core, p: nat)
    requires CoreInv(c) && p in c.mem && Unowned(c.owners, p) && Unlinked(c.slots, p)
    ensures p > HEADER && CoreInv(Release(c, p))
  {
    hide HeapInv, Typed, SlotsOk, OwnersOk, Apart, Unowned, Unlinked;
    TypedAt(c.heap, c.mem, p);
    FreeKeepsInv(c.heap, p);
    TypedShrinks(c.heap, c.mem, p);
    ShrinkMem(c.slots, c.mem, c.owners, p);
  }

  lemma TypedAt(h: Heap, mem: map<nat, Object>, p: nat)
    requires Typed(h, mem) && p in mem
    ensures Live(h, p)
  {
  }

  // ---- Several objects at a time ----

  datatype Want = Want(size: nat, obj: Object)

  /** Allocate in order; a failed allocation leaves null and does not stop the others. */
  ghost function ObtainAll(c: Core, wants: seq<Want>): (r: (Core, seq<nat>))
    requires CoreInv(c) && forall i :: 0 <= i < |wants| ==> wants[i].size <= ALLOCATOR_SIZE
    ensures |r.1| == |wants|
    decreases |wants|
  {
    if wants == [] then (c, [])
    else
      ObtainKeepsInv(c, wants[0].size, wants[0].obj);
      var (c1, p) := Obtain(c, wants[0].size, wants[0].obj);
      var (c2, ps) := ObtainAll(c1, wants[1..]);
      (c2, [p] + ps)
  }

  /** `ps` are distinct new objects, placed as wanted; nothing else in memory differs. */
  ghost predicate FreshIn(mem: map<nat, Object>, mem': map<nat, Object>, wants: seq<Want>, ps: seq<nat>) {
    && |ps| == |wants|
    && (forall i :: 0 <= i < |ps| && ps[i] != NULL ==> ps[i] !in mem && ps[i] in mem' && mem'[ps[i]] == wants[i].obj)
    && (forall i, j :: 0 <= i < j < |ps| && ps[i] == ps[j] ==> ps[i] == NULL)
    && (forall q :: q in mem ==> q in mem' && mem'[q] == mem[q])
    && (forall q :: q in mem' ==> q in mem || (q in ps && q != NULL))
  }

  lemma FreshStep(mem: map<nat, Object>, mem1: map<nat, Object>, mem': map<nat, Object>,
                  wants: seq<Want>, p: nat, ps: seq<nat>)
    requires wants != [] && FreshIn(mem1, mem', wants[1..], ps)
    requires p == NULL ==> mem1 == mem
    requires p != NULL ==> p !in mem && mem1 == mem[p := wants[0].obj]
    ensures FreshIn(mem, mem', wants, [p] + ps)
  {
    var all := [p] + ps;
    assert forall q :: q in all <==> q == p || q in ps;
    forall i | 0 <= i < |all| && all[i] != NULL
      ensures all[i] !in mem && all[i] in mem' && mem'[all[i]] == wants[i].obj
    {
      FreshAt(mem, mem1, mem', wants, p, ps, i);
    }
    forall i, j | 0 <= i < j < |all| && all[i] == all[j] ensures all[i] == NULL {
      FreshApart(mem1, mem', wants, p, ps, i, j);
    }
  }

  lemma FreshAt(mem: map<nat, Object>, mem1: map<nat, Object>, mem': map<nat, Object>,
                wants: seq<Want>, p: nat, ps: seq<nat>, i: nat)
    requires wants != [] && FreshIn(mem1, mem', wants[1..], ps)
    requires p == NULL ==> mem1 == mem
    requires p != NULL ==> p !in mem && mem1 == mem[p := wants[0].obj]
    requires i < |[p] + ps| && ([p] + ps)[i] != NULL
    ensures var q := ([p] + ps)[i]; q !in mem && q in mem' && mem'[q] == wants[i].obj
  {
    if i > 0 {
      assert ([p] + ps)[i] == ps[i - 1] && wants[i] == wants[1..][i - 1];
    } else {
      assert p in mem1;
    }
  }

  lemma FreshApart(mem1: map<nat, Object>, mem': map<nat, Object>,
                   wants: seq<Want>, p: nat, ps: seq<nat>, i: nat, j: nat)
    requires wants != [] && FreshIn(mem1, mem', wants[1..], ps) && (p != NULL ==> p in mem1)
    requires i < j < |[p] + ps| && ([p] + ps)[i] == ([p] + ps)[j]
    ensures ([p] + ps)[i] == NULL
  {
    assert ([p] + ps)[j] == ps[j - 1] && (i > 0 ==> ([p] + ps)[i] == ps[i - 1]);
  }

  lemma {:induction false} ObtainAllKeepsInv(c: Core, wants: seq<Want>)
    requires CoreInv(c) && forall i :: 0 <= i < |wants| ==> wants[i].size <= ALLOCATOR_SIZE
    ensures var (c', ps) := ObtainAll(c, wants);
      CoreInv(c') && c'.slots == c.slots && c'.owners == c.owners && FreshIn(c.mem, c'.mem, wants, ps)
    decreases |wants|
  {
    if wants != [] {
      hide CoreInv, FreshIn, Obtain, Keyed;
      ObtainKeepsInv(c, wants[0].size, wants[0].obj);
      var (c1, p) := Obtain(c, wants[0].size, wants[0].obj);
      ObtainAllKeepsInv(c1, wants[1..]);
      var (c2, ps) := ObtainAll(c1, wants[1..]);
      FreshStep(c.mem, c1.mem, c2.mem, wants, p, ps);
    }
  }

  /** Give back in order; null is skipped. */
  function ReleaseAll(c: Core, ps: seq<nat>): Core
    requires forall i :: 0 <= i < |ps| ==> ps[i] == NULL || ps[i] > HEADER
    decreases |ps|
  {
    if ps == [] then c else ReleaseAll(Release(c, ps[0]), ps[1..])
  }

  lemma {:induction false} ReleaseAllSlots(c: Core, ps: seq<nat>)
    requires forall i :: 0 <= i < |ps| ==> ps[i] == NULL || ps[i] > HEADER
    ensures ReleaseAll(c, ps).slots == c.slots && ReleaseAll(c, ps).owners == c.owners
    decreases |ps|
  {
    if ps != [] { ReleaseAllSlots(Release(c, ps[0]), ps[1..]); }
  }

  /** The pointer may be given back: an unowned object that no slot links to. */
  ghost predicate Disposable(c: Core, p: nat) {
    p in c.mem && Unowned(c.owners, p) && Unlinked(c.slots, p)
  }

  ghost predicate AllDisposable(c: Core, ps: seq<nat>) {
    && (forall i :: 0 <= i < |ps| && ps[i] != NULL ==> Disposable(c, ps[i]))
    && (forall i, j :: 0 <= i < j < |ps| && ps[i] == ps[j] ==> ps[i] == NULL)
  }

  /** The blocks of `ps` have become free blocks, and memory lost exactly them. */
  ghost predicate Returned(c: Core, c': Core, ps: seq<nat>) {
    && c'.slots == c.slots && c'.owners == c.owners
    && (forall q :: q in c'.mem <==> q in c.mem && (q == NULL || q !in ps))
    && (forall q :: q in c'.mem ==> c'.mem[q] == c.mem[q])
    && (forall i :: 0 <= i < |ps| && ps[i] > HEADER ==> ps[i] - HEADER in c'.heap.free)
    && (forall x :: x in c.heap.free ==> x in c'.heap.free)
  }

  lemma DisposableAfter(c: Core, ps: seq<nat>)
    requires ps != [] && AllDisposable(c, ps) && (ps[0] == NULL || ps[0] > HEADER)
    ensures AllDisposable(Release(c, ps[0]), ps[1..])
  {
  }

  lemma ReturnedStep(c: Core, c': Core, ps: seq<nat>)
    requires ps != [] && (ps[0] == NULL || ps[0] > HEADER) && NULL !in c.mem
    requires Returned(Release(c, ps[0]), c', ps[1..])
    ensures Returned(c, c', ps)
  {
  }

  lemma DisposableNonNull(c: Core, ps: seq<nat>)
    requires CoreInv(c) && AllDisposable(c, ps)
    ensures NULL !in c.mem
    ensures forall i :: 0 <= i < |ps| ==> ps[i] == NULL || ps[i] > HEADER
  {
  }

  lemma {:induction false} ReleaseAllKeepsInv(c: Core, ps: seq<nat>)
    requires CoreInv(c) && AllDisposable(c, ps)
    ensures forall i :: 0 <= i < |ps| ==> ps[i] == NULL || ps[i] > HEADER
    ensures CoreInv(ReleaseAll(c, ps)) && Returned(c, ReleaseAll(c, ps), ps)
    decreases |ps|
  {
    DisposableNonNull(c, ps);
    if ps == [] {
      assert ReleaseAll(c, ps) == c;
    } else {
      ReleaseHead(c, ps);
      hide CoreInv, AllDisposable, Returned, Release;
      var c1 := Release(c, ps[0]);
      ReleaseAllKeepsInv(c1, ps[1..]);
      ReturnedStep(c, ReleaseAll(c1, ps[1..]), ps);
    }
  }

  lemma ReleaseHead(c: Core, ps: seq<nat>)
    requires CoreInv(c) && AllDisposable(c, ps) && ps != [] && NULL !in c.mem
    requires ps[0] == NULL || ps[0] > HEADER
    ensures CoreInv(Release(c, ps[0])) && AllDisposable(Release(c, ps[0]), ps[1..])
  {
    DisposableAfter(c, ps);
    if ps[0] == NULL {
      assert Release(c, NULL) == c by { assert c.mem - {NULL} == c.mem; }
    } else {
      hide CoreInv, Release;
      assert Disposable(c, ps[0]);
      ReleaseKeepsInv(c, ps[0]);
    }
  }

  // ---- Links, owners and contents ----

  /** An object that is not in memory is linked from nowhere. */
  lemma FreshUnlinked(mem: map<nat, Object>, slots: seq<nat>, p: nat)
    requires SlotsOk(mem, slots) && Linkable(p) && !IsQh(mem, p)
    ensures Unlinked(slots, p)
  {
  }

  /** Terminating slots, or linking them to `q` inside `region`. */
  ghost predicate Relinked(slots: seq<nat>, slots': seq<nat>, q: nat, region: set<nat>) {
    |slots'| == |slots| &&
    forall f :: 0 <= f < |slots| ==>
      slots'[f] == slots[f] || slots'[f] == TERMINATE || (slots'[f] == QhLink(q) && f in region)
  }

  lemma RelinkSlotsOk(mem: map<nat, Object>, slots: seq<nat>, slots': seq<nat>, q: nat, region: set<nat>)
    requires SlotsOk(mem, slots) && Relinked(slots, slots', q, region) && IsQh(mem, q) && Linkable(q)
    ensures SlotsOk(mem, slots')
  {
    hide QhLink, Pointer, Linkable;
    QhLinksDiffer(q, q);
    forall f | 0 <= f < |slots'| ensures SlotOk(mem, slots'[f]) {
      assert SlotOk(mem, slots[f]);
    }
  }

  lemma RelinkConfined(slots: seq<nat>, slots': seq<nat>, q: nat, region: set<nat>, o: nat, own: set<nat>)
    requires Confined(slots, o, own) && Relinked(slots, slots', q, region) && Linkable(q) && Linkable(o)
    requires o == q ==> region <= own
    ensures Confined(slots', o, own)
  {
    QhLinksDiffer(o, q);
    forall f | 0 <= f < |slots'| && slots'[f] == QhLink(o) ensures f in own {
      assert slots'[f] != TERMINATE;
    }
  }

  lemma RelinkKeepsInv(c: Core, slots': seq<nat>, q: nat, region: set<nat>)
    requires CoreInv(c) && Relinked(c.slots, slots', q, region) && IsQh(c.mem, q)
    requires forall k :: k in c.owners && c.owners[k].qh == q ==> region <= c.owners[k].region
    ensures CoreInv(c.(slots := slots'))
  {
    ObjectLinkable(c, q);
    RelinkSlotsOk(c.mem, c.slots, slots', q, region);
    forall k | k in c.owners ensures OwnerOk(slots', c.mem, c.owners[k]) {
      assert OwnerOk(c.slots, c.mem, c.owners[k]);
      ObjectLinkable(c, c.owners[k].qh);
      RelinkConfined(c.slots, slots', q, region, c.owners[k].qh, c.owners[k].region);
    }
    hide OwnerOk, HeapInv, SlotsOk, Typed, Apart;
  }

  lemma InstallKeepsInv(c: Core, k: nat, o: Owner)
    requires CoreInv(c) && k !in c.owners && OwnerOk(c.slots, c.mem, o)
    requires forall i :: 0 <= i < |o.ptrs| ==> Unowned(c.owners, o.ptrs[i])
    ensures CoreInv(c.(owners := c.owners[k := o]))
  {
    hide HeapInv, Typed, SlotsOk, OwnerOk;
    forall p | p in o.ptrs ensures Unowned(c.owners, p) {
    }
  }

  lemma DropKeepsInv(c: Core, k: nat)
    requires CoreInv(c) && k in c.owners
    ensures CoreInv(c.(owners := c.owners - {k}))
    ensures forall i :: 0 <= i < |c.owners[k].ptrs| ==> Unowned(c.owners - {k}, c.owners[k].ptrs[i])
  {
    hide HeapInv, Typed, SlotsOk, OwnerOk;
    forall i | 0 <= i < |c.owners[k].ptrs| ensures Unowned(c.owners - {k}, c.owners[k].ptrs[i]) {
      assert c.owners[k].ptrs[i] in c.owners[k].ptrs;
    }
  }

  /** Overwriting an object by one of the same kind. */
  lemma RewriteKeepsInv(c: Core, p: nat, obj: Object)
    requires CoreInv(c) && p in c.mem && (obj.QhObject? <==> c.mem[p].QhObject?)
    ensures CoreInv(c.(mem := c.mem[p := obj]))
  {
    var mem' := c.mem[p := obj];
    forall f | 0 <= f < |c.slots| ensures SlotOk(mem', c.slots[f]) {
      assert SlotOk(c.mem, c.slots[f]);
    }
    RewriteOwners(c.slots, c.mem, c.owners, p, obj);
    hide HeapInv, OwnersOk, Apart, SlotOk;
  }

  lemma RewriteOwners(slots: seq<nat>, mem: map<nat, Object>, owners: map<nat, Owner>, p: nat, obj: Object)
    requires OwnersOk(slots, mem, owners) && p in mem && (obj.QhObject? <==> mem[p].QhObject?)
    ensures OwnersOk(slots, mem[p := obj], owners)
  {
  }
}
