/**
 Opening and closing keyboard pipes: both keep the invariant, a failed open costs nothing,
 and a close undoes an open.
 */
module UhciPipes {
  import opened Heap
  import opened UhciWords
  import opened Resources
  import opened FrameList
  import opened UhciModel
  import Stride

  datatype OpenRequest = OpenRequest(devAddr: bv8, endpoint: bv8, interval: nat, devIndex: nat, frame: nat)

  const TD_SIZE: nat := 16
  const QH_SIZE: nat := 16
  const REPORT_SIZE: nat := 8
  const ZERO_REPORT: seq<bv8> := [0, 0, 0, 0, 0, 0, 0, 0]
  const TD_WANT: Want := Want(TD_SIZE, TdObject(Td(0, 0, 0, 0)))
  const QH_WANT: Want := Want(QH_SIZE, QhObject(Qh(0, 0)))
  const REPORT_WANT: Want := Want(REPORT_SIZE, Bytes(ZERO_REPORT))
  const BUFFER_WANTS: seq<Want> := [REPORT_WANT]
  const SCHEDULE_WANTS: seq<Want> := [TD_WANT, QH_WANT]

  // ---- Specification ----

  /** The first pipe that is not in use, or |pipes|. */
  function FreePipe(pipes: seq<Pipe>): (i: nat)
    ensures i <= |pipes| && (i < |pipes| ==> !pipes[i].inUse)
    ensures forall k :: 0 <= k < i ==> pipes[k].inUse
  {
    if pipes == [] || !pipes[0].inUse then 0 else 1 + FreePipe(pipes[1..])
  }

  /** The slot after the frame the controller is in. */
  function NextSlot(frame: nat): nat {
    (frame % 2048 + 1) % FRAMES
  }

  function PipeFor(r: OpenRequest, buf: nat, td: nat, qh: nat): Pipe {
    Pipe(true, r.devAddr, r.endpoint & 0x0F, if r.interval == 0 then 1 else r.interval, r.devIndex % 256, 0,
         NextSlot(r.frame), buf, td, qh)
  }

  /** The descriptor as re-armed: active, with the pipe's toggle in its token. */
  function ArmedTd(p: Pipe): Td {
    Td(UhciWords.TERMINATE, TD_ARMED, BuildInToken(p.devAddr, p.ep, p.toggle, 8), p.buf)
  }

  function ArmedQh(p: Pipe): Qh {
    Qh(UhciWords.TERMINATE, p.td)
  }

  /** `c` with the pipe's descriptor armed and its queue head in every slot of its region. */
  function Scheduled(c: Core, p: Pipe): Core
    requires |c.slots| == FRAMES
  {
    c.(mem := c.mem[p.td := TdObject(ArmedTd(p))][p.qh := QhObject(ArmedQh(p))],
       slots := Filled(c.slots, p.firstSlot, p.interval, QhLink(p.qh)))
  }

  /** The three allocations of an open, in order: report buffer, then descriptor and queue head. */
  ghost function Acquire(c0: Core): (Core, nat, nat, nat)
    requires CoreInv(c0)
  {
    hide CoreInv, FreshIn;
    var (c1, bufs) := ObtainAll(c0, BUFFER_WANTS);
    if bufs[0] == NULL then (c1, NULL, NULL, NULL)
    else
      ObtainAllKeepsInv(c0, BUFFER_WANTS);
      var (c2, ps) := ObtainAll(c1, SCHEDULE_WANTS);
      (c2, bufs[0], ps[0], ps[1])
  }

  /** uhci_kbd_open_interrupt_in: the new state and the pipe index, or -1. */
  ghost function Open(s: State, r: OpenRequest): (State, int)
    requires StateInv(s)
  {
    var i, failed: int := FreePipe(s.pipes), -1;
    if i == |s.pipes| then (s, failed)
    else
      var (c, buf, td, qh) := Acquire(CoreOf(s));
      AcquireObtained(CoreOf(s));
      if buf == NULL || td == NULL || qh == NULL then
        ReleaseAllKeepsInv(c, [td, qh, buf]);
        (FailedState(s, i, ReleaseAll(c, [td, qh, buf])), failed)
      else
        (OpenedState(s, i, c, PipeFor(r, buf, td, qh)), i)
  }

  function FailedState(s: State, i: nat, c: Core): State
    requires i < |s.pipes|
  {
    WithCore(s, c).(pipes := s.pipes[i := NO_PIPE])
  }

  function OpenedState(s: State, i: nat, c: Core, p: Pipe): State
    requires i < |s.pipes| && i < |s.delivered| && |c.slots| == FRAMES
  {
    WithCore(s, Scheduled(c, p)).(pipes := s.pipes[i := p], delivered := s.delivered[i := []])
  }

  // ---- Helpers ----

  lemma FreshUnowned(c: Core, p: nat)
    requires CoreInv(c) && p !in c.mem
    ensures Unowned(c.owners, p)
  {
  }

  lemma InvSlotsOk(c: Core)
    requires CoreInv(c)
    ensures SlotsOk(c.mem, c.slots)
  {
  }

  /** Nothing but new objects was added to `c0`. */
  ghost predicate Grown(c0: Core, c: Core) {
    && CoreInv(c) && c.slots == c0.slots && c.owners == c0.owners
    && (forall q :: q in c0.mem ==> q in c.mem && c.mem[q] == c0.mem[q])
  }

  /** `p` is null or a new object holding `obj`. */
  ghost predicate NewObject(c0: Core, c: Core, p: nat, obj: Object) {
    p != NULL ==> p !in c0.mem && p in c.mem && c.mem[p] == obj
  }

  lemma NewDisposable(c0: Core, c: Core, p: nat)
    requires CoreInv(c0) && Grown(c0, c) && p in c.mem && p !in c0.mem
    ensures Disposable(c, p)
  {
    FreshUnowned(c0, p);
    ObjectLinkable(c, p);
    InvSlotsOk(c0);
    hide CoreInv;
    FreshUnlinked(c0.mem, c0.slots, p);
  }

  /** What the allocations of an open leave behind. */
  ghost predicate Obtained(c0: Core, c: Core, buf: nat, td: nat, qh: nat) {
    && Grown(c0, c)
    && NewObject(c0, c, buf, REPORT_WANT.obj) && NewObject(c0, c, td, TD_WANT.obj) && NewObject(c0, c, qh, QH_WANT.obj)
    && (buf == td || buf == qh ==> buf == NULL) && (td == qh ==> td == NULL)
    && (forall q :: q in c.mem ==> q in c0.mem || (q != NULL && (q == buf || q == td || q == qh)))
  }

  lemma AcquireObtained(c0: Core)
    requires CoreInv(c0)
    ensures var (c, buf, td, qh) := Acquire(c0);
      Obtained(c0, c, buf, td, qh) && AllDisposable(c, [td, qh, buf])
  {
    hide CoreInv, FreshIn, AllDisposable, ObtainAll;
    ObtainAllKeepsInv(c0, BUFFER_WANTS);
    var (c1, bufs) := ObtainAll(c0, BUFFER_WANTS);
    assert bufs == [bufs[0]];
    if bufs[0] == NULL {
      FreshOne(c0.mem, c1.mem, bufs[0]);
      assert Acquire(c0) == (c1, NULL, NULL, NULL);
      ObtainedDisposable(c0, c1, NULL, NULL, NULL);
    } else {
      ObtainAllKeepsInv(c1, SCHEDULE_WANTS);
      var (c2, ps) := ObtainAll(c1, SCHEDULE_WANTS);
      assert ps == [ps[0], ps[1]];
      FreshThree(c0.mem, c1.mem, c2.mem, bufs[0], ps[0], ps[1]);
      assert Acquire(c0) == (c2, bufs[0], ps[0], ps[1]);
      ObtainedDisposable(c0, c2, bufs[0], ps[0], ps[1]);
    }
  }

  lemma FreshOne(mem: map<nat, Object>, mem': map<nat, Object>, buf: nat)
    requires FreshIn(mem, mem', BUFFER_WANTS, [buf]) && buf == NULL
    ensures mem' == mem
  {
  }

  lemma FreshThree(mem: map<nat, Object>, mem1: map<nat, Object>, mem': map<nat, Object>, buf: nat, td: nat, qh: nat)
    requires FreshIn(mem, mem1, BUFFER_WANTS, [buf]) && FreshIn(mem1, mem', SCHEDULE_WANTS, [td, qh])
    requires buf != NULL
    ensures forall q :: q in mem ==> q in mem' && mem'[q] == mem[q]
    ensures forall q :: q in mem' ==> q in mem || (q != NULL && (q == buf || q == td || q == qh))
    ensures buf !in mem && buf in mem' && mem'[buf] == REPORT_WANT.obj && buf != td && buf != qh
    ensures td != NULL ==> td !in mem && td in mem' && mem'[td] == TD_WANT.obj && td != qh
    ensures qh != NULL ==> qh !in mem && qh in mem' && mem'[qh] == QH_WANT.obj
  {
    assert [buf][0] == buf && [td, qh][0] == td && [td, qh][1] == qh;
  }

  lemma ObtainedDisposable(c0: Core, c: Core, buf: nat, td: nat, qh: nat)
    requires CoreInv(c0) && Obtained(c0, c, buf, td, qh)
    ensures AllDisposable(c, [td, qh, buf])
  {
    hide CoreInv, Disposable;
    var ps := [td, qh, buf];
    forall i | 0 <= i < |ps| && ps[i] != NULL ensures Disposable(c, ps[i]) {
      NewDisposable(c0, c, ps[i]);
    }
  }

  // ---- Open keeps the invariant ----

  /** Other pipes and the transfer keep their shapes when memory only grows. */
  lemma ShapesGrow(s: State, mem': map<nat, Object>)
    requires Shapes(s) && forall q :: q in s.mem ==> q in mem' && mem'[q] == s.mem[q]
    ensures Shapes(s.(mem := mem'))
  {
  }

  lemma ScheduledKeepsInv(c0: Core, c: Core, p: Pipe, i: nat)
    requires CoreInv(c0) && Obtained(c0, c, p.buf, p.td, p.qh) && i !in c0.owners
    requires p.buf != NULL && p.td != NULL && p.qh != NULL
    ensures |c.slots| == FRAMES
    ensures CoreInv(Scheduled(c, p).(owners := c.owners[i := PipeOwner(p)]))
  {
    InvSlotsOk(c);
    NewDisposable(c0, c, p.qh);
    NewDisposable(c0, c, p.td);
    NewDisposable(c0, c, p.buf);
    hide CoreInv;
    var mem1 := c.mem[p.td := TdObject(ArmedTd(p))];
    RewriteKeepsInv(c, p.td, TdObject(ArmedTd(p)));
    var c1 := c.(mem := mem1);
    RewriteKeepsInv(c1, p.qh, QhObject(ArmedQh(p)));
    var c2 := c1.(mem := mem1[p.qh := QhObject(ArmedQh(p))]);
    ScheduledLinks(c2, p, i);
    assert c2.(slots := Filled(c2.slots, p.firstSlot, p.interval, QhLink(p.qh))) == Scheduled(c, p);
  }

  lemma ScheduledLinks(c: Core, p: Pipe, i: nat)
    requires CoreInv(c) && |c.slots| == FRAMES && i !in c.owners
    requires IsQh(c.mem, p.qh) && p.td in c.mem && p.buf in c.mem && p.td != p.qh && p.buf != p.qh && p.td != p.buf
    requires Unlinked(c.slots, p.qh)
    requires Unowned(c.owners, p.qh) && Unowned(c.owners, p.td) && Unowned(c.owners, p.buf)
    ensures CoreInv(c.(slots := Filled(c.slots, p.firstSlot, p.interval, QhLink(p.qh)),
                       owners := c.owners[i := PipeOwner(p)]))
  {
    hide CoreInv, SlotsOk, Unowned, Relinked, Confined, Filled, OwnerOk, PipeOwner, Link;
    var slots' := Filled(c.slots, p.firstSlot, p.interval, QhLink(p.qh));
    var region := Region(p.firstSlot, p.interval);
    UnownedNotHead(c, p.qh);
    FilledRelinks(c.slots, p);
    RelinkKeepsInv(c, slots', p.qh, region);
    PipeOwnerOk(slots', c.mem, p);
    PipeOwnerUnowned(c.owners, p);
    InstallKeepsInv(c.(slots := slots'), i, PipeOwner(p));
  }

  /** Linking a queue head from the slots of its pipe. */
  lemma FilledRelinks(slots: seq<nat>, p: Pipe)
    requires |slots| == FRAMES
    ensures var slots' := Filled(slots, p.firstSlot, p.interval, QhLink(p.qh));
      var region := Region(p.firstSlot, p.interval);
      Relinked(slots, slots', p.qh, region) && (Unlinked(slots, p.qh) ==> Confined(slots', p.qh, region))
  {
    hide Stride.Owns, QhLink;
  }

  lemma PipeOwnerOk(slots: seq<nat>, mem: map<nat, Object>, p: Pipe)
    requires IsQh(mem, p.qh) && p.td in mem && p.buf in mem && p.td != p.qh && p.buf != p.qh && p.td != p.buf
    requires Confined(slots, p.qh, Region(p.firstSlot, p.interval))
    ensures OwnerOk(slots, mem, PipeOwner(p))
  {
    hide Confined, Region;
    assert PipeOwner(p).ptrs[1] == p.qh;
  }

  lemma PipeOwnerUnowned(owners: map<nat, Owner>, p: Pipe)
    requires Unowned(owners, p.qh) && Unowned(owners, p.td) && Unowned(owners, p.buf)
    ensures forall k :: 0 <= k < |PipeOwner(p).ptrs| ==> Unowned(owners, PipeOwner(p).ptrs[k])
  {
    hide Unowned;
  }

  lemma UnownedNotHead(c: Core, q: nat)
    requires CoreInv(c) && Unowned(c.owners, q)
    ensures forall k :: k in c.owners ==> c.owners[k].qh != q
  {
  }

  lemma PipeIndexFree(s: State, i: nat)
    requires i < |s.pipes| && !s.pipes[i].inUse
    ensures i !in OwnersOf(s)
  {
  }

  lemma InstalledPipe(s: State, i: nat, p: Pipe, c: Core, delivered: seq<seq<seq<bv8>>>)
    requires Shapes(s) && i < MAX_PIPES && p.inUse && PipeShape(c.mem, p) && |delivered| == MAX_PIPES
    requires forall q :: q in s.mem ==> q in c.mem && c.mem[q] == s.mem[q]
    requires CoreInv(c.(owners := OwnersOf(s)[i := PipeOwner(p)]))
    ensures StateInv(WithCore(s, c).(pipes := s.pipes[i := p], delivered := delivered))
  {
    var s' := WithCore(s, c).(pipes := s.pipes[i := p], delivered := delivered);
    hide CoreInv, OwnersOf, PipeOwner;
    PipeSet(s, i, p);
    OwnersFrame(s.(pipes := s.pipes[i := p]), s');
    ShapesGrow(s, c.mem);
  }

  lemma OpenedKeepsInv(s: State, i: nat, c: Core, p: Pipe)
    requires Shapes(s) && CoreInv(CoreOf(s)) && i < MAX_PIPES && !s.pipes[i].inUse
    requires Obtained(CoreOf(s), c, p.buf, p.td, p.qh)
    requires p.inUse && p.buf != NULL && p.td != NULL && p.qh != NULL && p.interval > 0 && p.firstSlot < FRAMES
    ensures |c.slots| == FRAMES && StateInv(OpenedState(s, i, c, p))
  {
    hide CoreInv, OwnersOf, Shapes, StateInv, PipeOwner;
    SlotCount(s);
    PipeIndexFree(s, i);
    ScheduledKeepsInv(CoreOf(s), c, p, i);
    InstalledPipe(s, i, p, Scheduled(c, p), s.delivered[i := []]);
  }

  lemma SlotCount(s: State)
    requires Shapes(s)
    ensures |s.delivered| == MAX_PIPES && |s.pipes| == MAX_PIPES
  {
  }

  /** The state after a failed open differs only in the order of the free list, in memory carved for
      it, and in at most one cleared pipe entry that was not in use. */
  ghost predicate Unaffected(s: State, s': State) {
    && s'.slots == s.slots && s'.mem == s.mem && OwnersOf(s') == OwnersOf(s)
    && (s'.pipes == s.pipes || exists i: nat :: ClearedEntry(s.pipes, s'.pipes, i))
    && s'.heap.live.Keys == s.heap.live.Keys
    && s'.pending == s.pending && s'.delivered == s.delivered
  }

  predicate ClearedEntry(pipes: seq<Pipe>, pipes': seq<Pipe>, i: nat) {
    i < |pipes| && !pipes[i].inUse && pipes' == pipes[i := NO_PIPE]
  }

  lemma FailedKeepsInv(s: State, i: nat, c: Core, buf: nat, td: nat, qh: nat)
    requires Shapes(s) && CoreInv(CoreOf(s)) && i < MAX_PIPES && !s.pipes[i].inUse
    requires Obtained(CoreOf(s), c, buf, td, qh) && AllDisposable(c, [td, qh, buf])
    ensures forall k :: 0 <= k < 3 ==> [td, qh, buf][k] == NULL || [td, qh, buf][k] > HEADER
    ensures var s' := FailedState(s, i, ReleaseAll(c, [td, qh, buf])); StateInv(s') && Unaffected(s, s')
  {
    hide ReleaseAll, AllDisposable, OwnersOf, CoreInv, Shapes, Unaffected, Returned;
    SlotCount(s);
    ReleaseAllKeepsInv(c, [td, qh, buf]);
    var c' := ReleaseAll(c, [td, qh, buf]);
    MemRestored(CoreOf(s), c, c', buf, td, qh);
    PipeIndexFree(s, i);
    FailedStateInv(s, i, c');
  }

  lemma FailedStateInv(s: State, i: nat, c: Core)
    requires Shapes(s) && CoreInv(CoreOf(s)) && CoreInv(c) && i < MAX_PIPES && i !in OwnersOf(s)
    requires !s.pipes[i].inUse && c.mem == s.mem && c.slots == s.slots && c.owners == OwnersOf(s)
    ensures StateInv(FailedState(s, i, c)) && Unaffected(s, FailedState(s, i, c))
  {
    hide CoreInv, OwnersOf, HeapInv, Typed, TransferShape;
    var s' := FailedState(s, i, c);
    InvHeap(c);
    InvHeap(CoreOf(s));
    SameLive(s.heap, c.heap, s.mem);
    PipeSet(s, i, NO_PIPE);
    OwnersFrame(s.(pipes := s.pipes[i := NO_PIPE]), s');
    assert OwnersOf(s) - {i} == OwnersOf(s);
    assert c == CoreOf(s');
    assert PipeShape(s.mem, NO_PIPE);
    assert ClearedEntry(s.pipes, s'.pipes, i);
  }

  lemma InvHeap(c: Core)
    requires CoreInv(c)
    ensures HeapInv(c.heap) && Typed(c.heap, c.mem)
  {
  }

  /** Opening a pipe keeps the invariant; a failed open leaves the frame list, the objects and
      every pipe in use as they were. */
  lemma OpenKeepsInv(s: State, r: OpenRequest)
    requires StateInv(s)
    ensures StateInv(Open(s, r).0)
    ensures Open(s, r).1 == -1 ==> Unaffected(s, Open(s, r).0)
    ensures Open(s, r).1 != -1 ==> 0 <= Open(s, r).1 < MAX_PIPES && Open(s, r).0.pipes[Open(s, r).1].inUse
  {
    hide CoreInv, OwnersOf, Obtained, AllDisposable, Acquire, ReleaseAll, OpenedState, FailedState, Shapes, Unaffected;
    SlotCount(s);
    var i := FreePipe(s.pipes);
    if i < |s.pipes| {
      AcquireObtained(CoreOf(s));
      var (c, buf, td, qh) := Acquire(CoreOf(s));
      if buf == NULL || td == NULL || qh == NULL {
        FailedKeepsInv(s, i, c, buf, td, qh);
      } else {
        OpenedKeepsInv(s, i, c, PipeFor(r, buf, td, qh));
        OpenedPipe(s, i, c, PipeFor(r, buf, td, qh));
      }
    } else {
      SameUnaffected(s);
    }
  }

  lemma OpenedPipe(s: State, i: nat, c: Core, p: Pipe)
    requires i < |s.pipes| && i < |s.delivered| && |c.slots| == FRAMES
    ensures OpenedState(s, i, c, p).pipes == s.pipes[i := p]
  {
  }

  lemma SameUnaffected(s: State)
    ensures Unaffected(s, s)
  {
  }

  lemma MemRestored(c0: Core, c: Core, c': Core, buf: nat, td: nat, qh: nat)
    requires CoreInv(c0) && Obtained(c0, c, buf, td, qh) && Returned(c, c', [td, qh, buf])
    ensures c'.mem == c0.mem && c'.slots == c0.slots && c'.owners == c0.owners
  {
    hide CoreInv;
    NullNotObject(c0);
    var ps := [td, qh, buf];
    assert forall q :: q in ps <==> q == td || q == qh || q == buf;
    assert forall q :: q in c'.mem <==> q in c0.mem;
  }

  lemma SameLive(h: Heap, h': Heap, mem: map<nat, Object>)
    requires Typed(h, mem) && Typed(h', mem) && HeapInv(h) && HeapInv(h')
    ensures h'.live.Keys == h.live.Keys
  {
    forall x: nat ensures x in h.live <==> x in h'.live {
      LiveHeader(h, x);
      LiveHeader(h', x);
      assert x + HEADER in mem <==> Live(h, x + HEADER);
      assert x + HEADER in mem <==> Live(h', x + HEADER);
    }
  }

  lemma LiveHeader(h: Heap, x: nat)
    requires HeapInv(h)
    ensures x in h.live <==> Live(h, x + HEADER)
  {
  }

  // ---- Close ----

  /** uhci_kbd_close: an identifier out of range or of a closed pipe is ignored. */
  ghost function Close(s: State, id: int): State
    requires StateInv(s)
  {
    if id < 0 || id >= |s.pipes| || !s.pipes[id].inUse then s
    else
      var c := Unscheduled(s, id);
      CloseDisposable(s, id);
      ReleaseAllKeepsInv(c, PipePtrs(s.pipes[id]));
      WithCore(s, ReleaseAll(c, PipePtrs(s.pipes[id]))).(pipes := s.pipes[id := NO_PIPE])
  }

  function PipePtrs(p: Pipe): seq<nat> {
    [p.td, p.qh, p.buf]
  }

  /** The slots of the pipe terminated and the pipe no longer an owner. */
  ghost function Unscheduled(s: State, id: nat): Core
    requires StateInv(s) && id < |s.pipes|
  {
    InvSlotsOk(CoreOf(s));
    var p := s.pipes[id];
    Core(s.heap, Filled(s.slots, p.firstSlot, p.interval, UhciWords.TERMINATE), s.mem, OwnersOf(s) - {id})
  }

  /** The pipe as an owner. */
  lemma PipeOwned(s: State, id: nat)
    requires StateInv(s) && id < |s.pipes| && s.pipes[id].inUse
    ensures id in OwnersOf(s) && OwnersOf(s)[id] == PipeOwner(s.pipes[id])
    ensures OwnerOk(s.slots, s.mem, PipeOwner(s.pipes[id])) && PipeShape(s.mem, s.pipes[id])
  {
    hide HeapInv, Typed, SlotsOk, Apart, OwnerOk, PipeOwner;
  }

  lemma TerminatedKeepsInv(c: Core, k: nat, first: nat, interval: nat)
    requires CoreInv(c) && k in c.owners && c.owners[k].region == Region(first, interval)
    ensures |c.slots| == FRAMES && c.owners[k].qh in c.mem
    ensures var slots' := Filled(c.slots, first, interval, UhciWords.TERMINATE);
      CoreInv(c.(slots := slots')) && Unlinked(slots', c.owners[k].qh)
  {
    InvSlotsOk(c);
    var o := c.owners[k];
    assert OwnerOk(c.slots, c.mem, o);
    ObjectLinkable(c, o.qh);
    var slots' := Filled(c.slots, first, interval, UhciWords.TERMINATE);
    hide CoreInv, OwnersOk;
    QhLinksDiffer(o.qh, o.qh);
    assert Relinked(c.slots, slots', o.qh, {});
    RelinkKeepsInv(c, slots', o.qh, {});
    forall f | 0 <= f < |slots'| ensures slots'[f] != QhLink(o.qh) {
      assert slots'[f] == c.slots[f] ==> f !in o.region || slots'[f] == UhciWords.TERMINATE;
    }
  }

  lemma CloseDisposable(s: State, id: nat)
    requires StateInv(s) && id < |s.pipes| && s.pipes[id].inUse
    ensures CoreInv(Unscheduled(s, id)) && AllDisposable(Unscheduled(s, id), PipePtrs(s.pipes[id]))
  {
    hide CoreInv, OwnersOf, Shapes, AllDisposable, PipeShape, OwnerOk, PipeOwner;
    PipeOwned(s, id);
    CloseCore(CoreOf(s), id, s.pipes[id]);
  }

  lemma CloseCore(c: Core, k: nat, p: Pipe)
    requires CoreInv(c) && k in c.owners && c.owners[k] == PipeOwner(p)
    requires OwnerOk(c.slots, c.mem, PipeOwner(p)) && p.inUse && PipeShape(c.mem, p)
    ensures |c.slots| == FRAMES
    ensures var slots := Filled(c.slots, p.firstSlot, p.interval, UhciWords.TERMINATE);
      var c2 := Core(c.heap, slots, c.mem, c.owners - {k});
      CoreInv(c2) && AllDisposable(c2, PipePtrs(p))
  {
    hide CoreInv, OwnersOk, Confined, Region;
    TerminatedKeepsInv(c, k, p.firstSlot, p.interval);
    var c1 := c.(slots := Filled(c.slots, p.firstSlot, p.interval, UhciWords.TERMINATE));
    DropKeepsInv(c1, k);
    var c2 := c1.(owners := c1.owners - {k});
    PipeUnlinked(c2, p);
    hide Unlinked, Unowned, PipeShape;
    var ps := PipePtrs(p);
    forall i | 0 <= i < |ps| && ps[i] != NULL ensures Disposable(c2, ps[i]) {
      assert ps[i] == PipeOwner(p).ptrs[i];
    }
  }

  /** Objects that are not queue heads are linked from nowhere. */
  lemma PipeUnlinked(c: Core, p: Pipe)
    requires CoreInv(c) && p.td in c.mem && c.mem[p.td].TdObject? && p.buf in c.mem && c.mem[p.buf].Bytes?
    ensures Unlinked(c.slots, p.td) && Unlinked(c.slots, p.buf)
  {
    ObjectLinkable(c, p.td);
    ObjectLinkable(c, p.buf);
    InvSlotsOk(c);
    hide CoreInv;
    FreshUnlinked(c.mem, c.slots, p.td);
    FreshUnlinked(c.mem, c.slots, p.buf);
  }

  /** Other pipes and the transfer keep their shapes when only unowned objects go. */
  lemma ShapesShrink(s: State, c: Core, id: nat)
    requires Shapes(s) && id < MAX_PIPES && CoreInv(c) && c.owners == OwnersOf(s) - {id}
    requires forall q :: q in c.mem ==> q in s.mem && c.mem[q] == s.mem[q]
    ensures forall i :: 0 <= i < MAX_PIPES && i != id ==> PipeShape(c.mem, s.pipes[i])
    ensures s.pending.Some? ==> TransferShape(c.mem, s.pending.value)
  {
    hide HeapInv, Typed, SlotsOk, Apart, Confined;
    forall i | 0 <= i < MAX_PIPES && i != id && s.pipes[i].inUse ensures PipeShape(c.mem, s.pipes[i]) {
      assert PipeShape(s.mem, s.pipes[i]);
      assert OwnerOk(c.slots, c.mem, c.owners[i]);
      assert c.owners[i].ptrs == PipePtrs(s.pipes[i]);
      assert PipePtrs(s.pipes[i])[0] in c.mem && PipePtrs(s.pipes[i])[1] in c.mem && PipePtrs(s.pipes[i])[2] in c.mem;
    }
    if s.pending.Some? {
      var t := s.pending.value;
      assert OwnerOk(c.slots, c.mem, c.owners[MAX_PIPES]);
      TransferInMem(c.mem, t);
    }
  }

  lemma TransferInMem(mem: map<nat, Object>, t: Transfer)
    requires AllIn(mem, TransferOwner(t).ptrs)
    ensures t.packet in mem && t.qh in mem
    ensures forall i :: 0 <= i < |t.stages| ==> t.stages[i] in mem
  {
    var ps := TransferOwner(t).ptrs;
    assert ps[|t.stages|] == t.qh && ps[|t.stages| + 1] == t.packet;
    forall i | 0 <= i < |t.stages| ensures t.stages[i] in mem {
      assert ps[i] == t.stages[i];
    }
  }

  /** Closing a pipe keeps the invariant and returns its three blocks to the free list. */
  lemma CloseKeepsInv(s: State, id: int)
    requires StateInv(s)
    ensures StateInv(Close(s, id))
    ensures 0 <= id < |s.pipes| && s.pipes[id].inUse ==> ClosedBy(s, Close(s, id), id)
  {
    hide StateInv, WithCore, ReleaseAll, AllDisposable, Unscheduled, ClosedBy, Returned;
    if 0 <= id < |s.pipes| && s.pipes[id].inUse {
      var p := s.pipes[id];
      CloseDisposable(s, id);
      var c := Unscheduled(s, id);
      ReleaseAllKeepsInv(c, PipePtrs(p));
      CloseState(s, id, ReleaseAll(c, PipePtrs(p)));
    }
  }

  /** What a close of an open pipe does: its slots are terminated and no other slot changes, its
      three objects are gone from memory and are free blocks again. */
  ghost predicate ClosedBy(s: State, s': State, id: nat)
    requires id < |s.pipes|
  {
    var p := s.pipes[id];
    && |s.slots| == FRAMES && s'.slots == Filled(s.slots, p.firstSlot, p.interval, UhciWords.TERMINATE)
    && s'.pipes == s.pipes[id := NO_PIPE]
    && (forall q :: q in s'.mem <==> q in s.mem && q != p.td && q != p.qh && q != p.buf)
    && (forall q :: q in s'.mem ==> s'.mem[q] == s.mem[q])
    && (forall q :: q in PipePtrs(p) && q > HEADER ==> q - HEADER in s'.heap.free)
  }

  lemma CloseState(s: State, id: nat, c: Core)
    requires StateInv(s) && id < |s.pipes| && s.pipes[id].inUse
    requires CoreInv(c) && Returned(Unscheduled(s, id), c, PipePtrs(s.pipes[id]))
    ensures var s' := WithCore(s, c).(pipes := s.pipes[id := NO_PIPE]); StateInv(s') && ClosedBy(s, s', id)
  {
    hide CoreInv, OwnersOf, PipeShape, TransferShape, SlotsOk, ClosedBy;
    ClosedEffect(s, id, c);
    ShapesShrink(s, c, id);
    ZeroPipeShape(c.mem);
    PipeSet(s, id, NO_PIPE);
    OwnersFrame(s.(pipes := s.pipes[id := NO_PIPE]), WithCore(s, c).(pipes := s.pipes[id := NO_PIPE]));
  }

  lemma ClosedEffect(s: State, id: nat, c: Core)
    requires StateInv(s) && id < |s.pipes| && s.pipes[id].inUse
    requires Returned(Unscheduled(s, id), c, PipePtrs(s.pipes[id]))
    ensures ClosedBy(s, WithCore(s, c).(pipes := s.pipes[id := NO_PIPE]), id)
  {
    hide CoreInv, OwnersOf, Shapes, Stride.Owns;
    NullNotObject(CoreOf(s));
    InvSlotsOk(CoreOf(s));
    var ps := PipePtrs(s.pipes[id]);
    assert forall q :: q in ps <==> q == ps[0] || q == ps[1] || q == ps[2];
  }

  lemma ZeroPipeShape(mem: map<nat, Object>)
    ensures PipeShape(mem, NO_PIPE)
  {
  }

  lemma NullNotObject(c: Core)
    requires CoreInv(c)
    ensures NULL !in c.mem
  {
  }

  // ---- Close undoes open ----

  /** Opening a pipe and closing it with nothing in between restores the objects and the pipe
      table; when the pipe's slots were terminated before, it restores the whole frame list. */
  lemma OpenThenClose(s: State, r: OpenRequest)
    requires StateInv(s) && Open(s, r).1 != -1
    ensures StateInv(Open(s, r).0)
    ensures var (s1, id) := Open(s, r); var s2 := Close(s1, id);
      && StateInv(s2) && s2.mem == s.mem && s2.heap.live.Keys == s.heap.live.Keys
      && 0 <= id < |s.pipes| && s2.pipes == s.pipes[id := NO_PIPE]
      && ((forall f :: 0 <= f < FRAMES && Stride.Owns(s1.pipes[id].firstSlot, s1.pipes[id].interval, FRAMES, f)
             ==> s.slots[f] == UhciWords.TERMINATE) ==> s2.slots == s.slots)
  {
    hide CoreInv, Shapes, OwnersOf, Close, ClosedBy, PipeFor, OpenedState, Obtained, NewObject, Open, Acquire;
    var (s1, id) := Open(s, r);
    OpenKeepsInv(s, r);
    SlotCount(s);
    OpenedBy(s, r);
    var (c, buf, td, qh) := Acquire(CoreOf(s));
    var p := PipeFor(r, buf, td, qh);
    PipeForFields(r, buf, td, qh);
    NullNotObject(c);
    OpenedPipe(s, id, c, p);
    CloseKeepsInv(s1, id);
    RoundTripEffect(s, id, c, p, Close(s1, id));
    RoundTripLive(s, Close(s1, id));
  }

  lemma PipeForFields(r: OpenRequest, buf: nat, td: nat, qh: nat)
    ensures var p := PipeFor(r, buf, td, qh); p.inUse && p.buf == buf && p.td == td && p.qh == qh
  {
  }

  /** A successful open, unfolded. */
  lemma OpenedBy(s: State, r: OpenRequest)
    requires StateInv(s) && Open(s, r).1 != -1
    ensures var (c, buf, td, qh) := Acquire(CoreOf(s));
      && Obtained(CoreOf(s), c, buf, td, qh) && CoreInv(c) && |c.slots| == FRAMES && |s.slots| == FRAMES
      && buf != NULL && td != NULL && qh != NULL && Open(s, r).1 == FreePipe(s.pipes) < |s.pipes|
      && |s.pipes| == |s.delivered|
      && Open(s, r).0 == OpenedState(s, FreePipe(s.pipes), c, PipeFor(r, buf, td, qh))
  {
    hide CoreInv, Shapes, OwnersOf, Acquire, AllDisposable, ReleaseAll, OpenedState, PipeFor, FailedState;
    SlotCount(s);
    AcquireObtained(CoreOf(s));
    var (c, buf, td, qh) := Acquire(CoreOf(s));
    InvSlotsOk(c);
    InvSlotsOk(CoreOf(s));
  }

  lemma RoundTripEffect(s: State, id: nat, c: Core, p: Pipe, s2: State)
    requires |s.pipes| == MAX_PIPES && |s.delivered| == MAX_PIPES && id < MAX_PIPES && |s.slots| == FRAMES && p.inUse
    requires Obtained(CoreOf(s), c, p.buf, p.td, p.qh) && NULL !in c.mem
    requires p.buf != NULL && p.td != NULL && p.qh != NULL
    requires |c.slots| == FRAMES && ClosedBy(OpenedState(s, id, c, p), s2, id)
    ensures s2.mem == s.mem && s2.pipes == s.pipes[id := NO_PIPE]
    ensures (forall f :: 0 <= f < FRAMES && Stride.Owns(p.firstSlot, p.interval, FRAMES, f)
               ==> s.slots[f] == UhciWords.TERMINATE) ==> s2.slots == s.slots
  {
    hide OwnersOf, CoreInv, Stride.Owns, Link;
    var s1 := OpenedState(s, id, c, p);
    assert forall q :: q in s2.mem <==> q in s.mem;
    assert s2.pipes == s.pipes[id := NO_PIPE];
  }

  lemma RoundTripLive(s: State, s2: State)
    requires StateInv(s) && StateInv(s2) && s2.mem == s.mem
    ensures s2.heap.live.Keys == s.heap.live.Keys
  {
    InvHeap(CoreOf(s));
    InvHeap(CoreOf(s2));
    hide HeapInv, CoreInv, Shapes;
    SameLive(s.heap, s2.heap, s.mem);
  }
}
