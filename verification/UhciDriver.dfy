/**
 The driver with its mutable state: the frame list and the pipe table are arrays, descriptors
 live in memory obtained from the allocator, and every operation updates them in place. Each
 method is proved to take exactly the step of the state machine.
 */
module UhciDriver {
  import opened Heap
  import opened UhciWords
  import R = Resources
  import opened FrameList
  import opened UhciModel
  import P = UhciPipes
  import T = UhciTransfers
  import F = UhciFinish
  import S = UhciService
  import E = Endpoint
  import A = Allocator
  import UhciRuns
  import B = UhciOnBus

  class Driver {
    const heap: A.Allocator
    const frames: array<nat>
    const pipes: array<Pipe>
    var mem: map<nat, R.Object>
    ghost var pending: Option<Transfer>   // the control transfer in progress, of which the code keeps no record
    var delivered: seq<seq<seq<bv8>>>

    ghost predicate Valid()
      reads this, heap, frames, pipes
    {
      heap.Valid() && frames.Length == FRAMES && pipes.Length == MAX_PIPES
    }

    ghost function View(): State
      reads this, heap, frames, pipes
    {
      State(heap.View(), frames[..], mem, pipes[..], pending, delivered)
    }

    /** The shared part of the state is the given core. */
    ghost predicate Matches(c: R.Core)
      reads this, heap, frames
    {
      heap.View() == c.heap && frames[..] == c.slots && mem == c.mem
    }

    constructor (base: nat)
      ensures Valid() && View() == UhciRuns.Fresh(base)
      ensures fresh(heap) && fresh(frames) && fresh(pipes)
    {
      heap := new A.Allocator(base);
      frames := new nat[FRAMES](_ => UhciWords.TERMINATE);
      pipes := new Pipe[MAX_PIPES](_ => NO_PIPE);
      mem, pending, delivered := map[], None, [[], [], [], []];
      new;
      assert pipes[..] == [NO_PIPE, NO_PIPE, NO_PIPE, NO_PIPE];
      assert frames[..] == UhciRuns.AllTerminated();
    }

    /** uhci_initialize_frame_list */
    method InitializeFrameList()
      requires Valid()
      modifies frames
      ensures Valid() && View() == old(View()).(slots := UhciRuns.AllTerminated())
    {
      for i := 0 to FRAMES
        invariant forall f :: 0 <= f < i ==> frames[f] == UhciWords.TERMINATE
      {
        frames[i] := UhciWords.TERMINATE;
      }
      assert frames[..] == UhciRuns.AllTerminated();
    }

    // ---- Memory ----

    /** Allocate and fill an object; null when out of memory. */
    method Obtain(size: nat, obj: R.Object, ghost c: R.Core) returns (p: nat)
      requires Valid() && Matches(c) && Keyed(c.heap)
      modifies this`mem, heap
      ensures Valid() && p == R.Obtain(c, size, obj).1
      ensures Matches(R.Obtain(c, size, obj).0)
    {
      hide Alloc;
      p := heap.AlignedAlloc(16, size);
      if p != NULL {
        mem := mem[p := obj];
      }
    }

    /** Give an object back; null is ignored. */
    method Release(p: nat, ghost c: R.Core)
      requires Valid() && Matches(c) && HeapInv(c.heap) && (p == NULL || Live(c.heap, p))
      modifies this`mem, heap
      ensures Valid() && Matches(R.Release(c, p)) && HeapInv(R.Release(c, p).heap)
    {
      if p != NULL { LiveNotFree(c.heap, p); }
      FreeKeepsInv(c.heap, p);
      hide HeapInv, A.Chained, Written;
      heap.AlignedFree(p);
      mem := mem - {p};
    }

    /** Give several objects back, in order. */
    method ReleaseAll(ps: seq<nat>, ghost c: R.Core)
      requires Valid() && Matches(c) && Returnable(c.heap, ps)
      modifies this`mem, heap
      ensures Valid() && (forall i :: 0 <= i < |ps| ==> ps[i] == NULL || ps[i] > HEADER)
      ensures Matches(R.ReleaseAll(c, ps))
      decreases |ps|
    {
      ReturnableAddresses(c.heap, ps);
      if ps != [] {
        ReturnableAfter(c.heap, ps);
        hide HeapInv, Returnable;
        Release(ps[0], c);
        ReleaseAll(ps[1..], R.Release(c, ps[0]));
      }
    }

    /** Allocate several objects, in order; a failure leaves null and does not stop the others. */
    method ObtainAll(wants: seq<R.Want>, ghost c: R.Core) returns (ps: seq<nat>)
      requires Valid() && Matches(c) && R.CoreInv(c)
      requires forall i :: 0 <= i < |wants| ==> wants[i].size <= ALLOCATOR_SIZE
      modifies this`mem, heap
      ensures Valid() && ps == R.ObtainAll(c, wants).1 && Matches(R.ObtainAll(c, wants).0)
      decreases |wants|
    {
      if wants == [] {
        ps := [];
      } else {
        R.ObtainKeepsInv(c, wants[0].size, wants[0].obj);
        hide R.CoreInv, R.Obtain;
        var p := Obtain(wants[0].size, wants[0].obj, c);
        ps := ObtainAll(wants[1..], R.Obtain(c, wants[0].size, wants[0].obj).0);
        ps := [p] + ps;
      }
    }

    // ---- Pipes ----

    /** The first free entry of the pipe table. */
    method FindFreePipe() returns (i: nat)
      requires Valid()
      ensures i == P.FreePipe(pipes[..])
    {
      i := 0;
      while i < MAX_PIPES && pipes[i].inUse
        invariant i <= MAX_PIPES && i <= P.FreePipe(pipes[..])
      {
        i := i + 1;
      }
    }

    /** The allocations of an open. */
    method AcquirePipe(ghost c0: R.Core) returns (buf: nat, td: nat, qh: nat)
      requires Valid() && Matches(c0) && R.CoreInv(c0)
      modifies this`mem, heap
      ensures Valid() && Matches(P.Acquire(c0).0)
      ensures (buf, td, qh) == (P.Acquire(c0).1, P.Acquire(c0).2, P.Acquire(c0).3)
    {
      hide R.CoreInv, R.ObtainAll, R.FreshIn;
      buf, td, qh := NULL, NULL, NULL;
      R.ObtainAllKeepsInv(c0, P.BUFFER_WANTS);
      var ps := ObtainAll(P.BUFFER_WANTS, c0);
      if ps[0] == NULL { return; }
      buf := ps[0];
      ps := ObtainAll(P.SCHEDULE_WANTS, R.ObtainAll(c0, P.BUFFER_WANTS).0);
      td, qh := ps[0], ps[1];
    }

    /** The fields of a table entry, as an open fills them in. */
    method FillPipe(r: P.OpenRequest, buf: nat, td: nat, qh: nat) returns (p: Pipe)
      ensures p == P.PipeFor(r, buf, td, qh)
    {
      p := NO_PIPE.(inUse := true);
      p := p.(devAddr := r.devAddr);
      p := p.(ep := r.endpoint & 0x0F);
      p := p.(interval := if r.interval == 0 then 1 else r.interval);
      p := p.(devIndex := r.devIndex % 256);
      p := p.(toggle := 0);
      p := p.(buf := buf, td := td, qh := qh);
      p := p.(firstSlot := (r.frame % 2048 + 1) % FRAMES);
    }

    /** uhci_kbd_open_interrupt_in. The pipe opened polls the device and endpoint asked for. */
    method OpenPipe(r: P.OpenRequest) returns (id: int)
      requires Valid() && StateInv(View())
      modifies this, heap, frames, pipes
      ensures Valid() && (View(), id) == P.Open(old(View()), r)
      ensures id != -1 && r.devAddr < 0x80 ==> B.Polls(View(), id, r.devAddr, r.endpoint & 0x0F)
    {
      hide B.Polls, P.PipeFor;
      hide StateInv, R.CoreInv, P.Acquire, OwnersOf, R.ReleaseAll, P.Open, P.OpenedState, P.FailedState, Returnable;
      ghost var s := View();
      OpenCases(s, r);
      var i := FindFreePipe();
      if i == MAX_PIPES { return -1; }
      ghost var c := P.Acquire(CoreOf(s)).0;
      var buf, td, qh := AcquirePipe(CoreOf(s));
      if buf == NULL || td == NULL || qh == NULL {
        FailOpen(i, buf, td, qh, s, c);
        return -1;
      }
      ScheduledFields(r, buf, td, qh);
      var p := FillPipe(r, buf, td, qh);
      SchedulePipe(i, p, s, c);
      id := i;
      if r.devAddr < 0x80 { B.OpenedPolls(s, r); }
    }

    /** The `fail` label of an open: give back what was obtained and clear the entry. */
    method FailOpen(i: nat, buf: nat, td: nat, qh: nat, ghost s: State, ghost c: R.Core)
      requires Valid() && i < |s.pipes| == MAX_PIPES && Returnable(c.heap, [td, qh, buf])
      requires forall k :: 0 <= k < 3 ==> [td, qh, buf][k] == NULL || [td, qh, buf][k] > HEADER
      requires Matches(c) && pipes[..] == s.pipes && pending == s.pending && delivered == s.delivered
      modifies this`mem, heap, pipes
      ensures Valid() && View() == P.FailedState(s, i, R.ReleaseAll(c, [td, qh, buf]))
    {
      hide Returnable, R.ReleaseAll;
      ReleaseAll([td, qh, buf], c);
      R.ReleaseAllSlots(c, [td, qh, buf]);
      pipes[i] := NO_PIPE;
    }

    /** The successful end of an open: arm the descriptor, link the queue head, fill the slots. */
    method SchedulePipe(i: nat, p: Pipe, ghost s: State, ghost c: R.Core)
      requires Valid() && i < MAX_PIPES && p.interval > 0 && p.firstSlot < FRAMES && |c.slots| == FRAMES
      requires |s.pipes| == MAX_PIPES && |s.delivered| == MAX_PIPES
      requires Matches(c) && pipes[..] == s.pipes && pending == s.pending && delivered == s.delivered
      modifies this, frames, pipes
      ensures Valid() && View() == P.OpenedState(s, i, c, p)
    {
      hide Filled;
      var td, qh := R.Td(0, 0, 0, 0), R.Qh(0, 0);
      td := td.(link := UhciWords.TERMINATE, buffer := p.buf);
      td := td.(token := BuildInToken(p.devAddr, p.ep, p.toggle, 8));
      td := td.(status := TD_ACTLEN_MASK);
      td := td.(status := td.status | (TD_SPD | TD_IOC | TD_ACTIVE));
      mem := mem[p.td := R.TdObject(td)];
      qh := qh.(horizontal := UhciWords.TERMINATE);
      qh := qh.(vertical := p.td);
      mem := mem[p.qh := R.QhObject(qh)];
      ghost var visited := WriteEvery(frames, p.firstSlot, p.interval, QhLink(p.qh));
      pipes[i] := p;
      delivered := delivered[i := []];
    }

    /** uhci_kbd_close */
    method ClosePipe(id: int)
      requires Valid() && StateInv(View())
      modifies this, heap, frames, pipes
      ensures Valid() && View() == P.Close(old(View()), id)
    {
      ghost var s := View();
      hide R.CoreInv, OwnersOf, Shapes, R.ReleaseAll, Filled, P.Close, P.Unscheduled, Returnable;
      CloseCases(s, id);
      if id < 0 || id >= MAX_PIPES || !pipes[id].inUse { return; }
      var p := pipes[id];
      ghost var c := P.Unscheduled(s, id);
      ghost var visited := WriteEvery(frames, p.firstSlot, p.interval, UhciWords.TERMINATE);
      ReleaseAll(P.PipePtrs(p), c);
      pipes[id] := NO_PIPE;
    }

    // ---- Service ----

    /** uhci_kbd_rearm_td */
    method Rearm(i: nat, advance: bool)
      requires Valid() && Shapes(View()) && i < MAX_PIPES && pipes[i].inUse
      modifies this`mem, pipes
      ensures Valid() && View() == S.Put(old(View()), i, E.Rearm(S.EndpointOf(old(View()), i), advance))
    {
      ghost var s := View();
      hide S.Put, S.EndpointOf, BuildInToken, Shapes;
      S.RearmValue(s, i, advance);
      var p := pipes[i];
      if advance {
        p := p.(toggle := p.toggle ^ 1);
      }
      pipes[i] := p;
      var token := BuildInToken(p.devAddr, p.ep, p.toggle, 8);
      mem := mem[p.td := R.TdObject(mem[p.td].td.(token := token, status := TD_ARMED))];
      mem := mem[p.qh := R.QhObject(mem[p.qh].qh.(vertical := p.td))];
    }

    /** The body of the service loop. */
    method ServicePipe(i: nat)
      requires Valid() && StateInv(View()) && i < MAX_PIPES
      modifies this`mem, this`delivered, pipes
      ensures Valid() && View() == S.ServicePipe(old(View()), i)
    {
      hide R.CoreInv, Shapes, OwnersOf, S.Put, S.EndpointOf, E.Rearm, IsActive;
      ghost var s := View();
      if !pipes[i].inUse { return; }
      EndpointFields(s, i);
      var p := pipes[i];
      var status := mem[p.td].td.status;
      S.PutSame(s, i);
      if IsActive(status) { return; }
      if status & TD_NAK != 0 {
        Rearm(i, false);
        return;
      }
      if status & TD_ERR_MASK != 0 {
        Rearm(i, false);
        return;
      }
      S.DeliverFirst(s, i);
      delivered := delivered[i := delivered[i] + [mem[p.buf].data]];
      Rearm(i, true);
    }

    /** uhci_kbd_service */
    method Service()
      requires Valid() && StateInv(View())
      modifies this`mem, this`delivered, pipes
      ensures Valid() && StateInv(View()) && View() == S.ServiceFrom(old(View()), 0)
    {
      hide StateInv, S.ServicePipe;
      ghost var s := View();
      for i := 0 to MAX_PIPES
        invariant Valid() && StateInv(View()) && S.ServiceFrom(View(), i) == S.ServiceFrom(s, 0)
      {
        S.ServicePipeKeepsInv(View(), i);
        ServicePipe(i);
      }
    }
  }

  // ---- The specifications case by case ----

  lemma EndpointFields(s: State, i: nat)
    requires StateInv(s) && i < MAX_PIPES && s.pipes[i].inUse
    ensures var p := s.pipes[i];
      && p.td in s.mem && s.mem[p.td].TdObject? && p.buf in s.mem && s.mem[p.buf].Bytes?
      && |s.delivered| == MAX_PIPES && |s.pipes| == MAX_PIPES
      && S.EndpointOf(s, i).td == s.mem[p.td].td && S.EndpointOf(s, i).data == s.mem[p.buf].data
  {
    hide R.CoreInv, OwnersOf;
    assert PipeShape(s.mem, s.pipes[i]);
  }

  lemma ScheduledFields(r: P.OpenRequest, buf: nat, td: nat, qh: nat)
    ensures var p := P.PipeFor(r, buf, td, qh); p.interval > 0 && p.firstSlot < FRAMES
  {
  }

  lemma OpenCases(s: State, r: P.OpenRequest)
    requires StateInv(s)
    ensures R.CoreInv(CoreOf(s)) && |s.pipes| == MAX_PIPES && |s.delivered| == MAX_PIPES
    ensures var i := P.FreePipe(s.pipes);
      if i == |s.pipes| then P.Open(s, r) == (s, -1)
      else
        var (c, buf, td, qh) := P.Acquire(CoreOf(s));
        if buf == NULL || td == NULL || qh == NULL then
          && Returnable(c.heap, [td, qh, buf])
          && (forall k :: 0 <= k < 3 ==> [td, qh, buf][k] == NULL || [td, qh, buf][k] > HEADER)
          && P.Open(s, r) == (P.FailedState(s, i, R.ReleaseAll(c, [td, qh, buf])), -1)
        else
          && |c.slots| == FRAMES && i < |s.delivered|
          && P.Open(s, r) == (P.OpenedState(s, i, c, P.PipeFor(r, buf, td, qh)), i)
  {
    hide R.CoreInv, P.Acquire, P.NewObject, R.AllDisposable, R.ReleaseAll, P.OpenedState, P.FailedState, Returnable;
    hide OwnersOf, Shapes;
    P.SlotCount(s);
    var i := P.FreePipe(s.pipes);
    if i < |s.pipes| {
      P.AcquireObtained(CoreOf(s));
      var (c, buf, td, qh) := P.Acquire(CoreOf(s));
      if buf == NULL || td == NULL || qh == NULL {
        R.ReleaseAllKeepsInv(c, [td, qh, buf]);
        ObtainedReturnable(CoreOf(s), c, buf, td, qh);
      } else {
        P.OpenedKeepsInv(s, i, c, P.PipeFor(r, buf, td, qh));
      }
    }
  }

  lemma BeginCases(s: State, cmd: T.Command)
    requires StateInv(s) && s.pending.None?
    ensures R.CoreInv(CoreOf(s))
    ensures var (c, packet, ps) := T.AcquireChain(CoreOf(s), cmd);
      && c.slots == s.slots && |c.slots| == FRAMES
      && if packet == NULL || !T.Complete(packet, ps) then T.Begin(s, cmd) == WithCore(s, c)
         else
           && ps != [] && var t := T.TransferFor(cmd, packet, ps);
           && |t.stages| == (if T.HasData(cmd.kind) then 3 else 2)
           && 1 <= |t.frames| <= 2 && (forall i :: 0 <= i < |t.frames| ==> t.frames[i] < FRAMES)
           && T.Begin(s, cmd) == T.StartedState(s, c, cmd, t)
  {
    hide R.CoreInv, Shapes, T.AcquireChain, T.ChainObtained, OwnersOf, T.StartedState, T.Complete;
    T.AcquiredChain(CoreOf(s), cmd);
    var (c, packet, ps) := T.AcquireChain(CoreOf(s), cmd);
    T.ChainGrown(CoreOf(s), c, cmd, packet, ps);
    T.SlotsLength(c);
    if packet != NULL && T.Complete(packet, ps) {
      T.ChainTransfer(CoreOf(s), c, cmd, packet, ps);
    }
  }

  lemma FinishCases(s: State, o: F.Outcome)
    requires StateInv(s) && s.pending.Some?
    ensures var t := s.pending.value;
      && |s.slots| == FRAMES && 1 <= |t.frames| <= 2 && (forall i :: 0 <= i < |t.frames| ==> t.frames[i] < FRAMES)
      && Returnable(s.heap, F.Given(t)) && F.Settled(s, o).heap == s.heap && F.Settled(s, o).mem == s.mem
      && (forall i :: 0 <= i < |F.Given(t)| ==> F.Given(t)[i] > HEADER)
      && F.Settled(s, o).slots ==
           (if F.Terminates(t.kind, o) then T.WriteSlots(s.slots, t.frames, UhciWords.TERMINATE) else s.slots)
      && F.Finish(s, o) == ((if F.Abandons(t.kind, o) then s
                             else WithCore(s, R.ReleaseAll(F.Settled(s, o), F.Given(t)))).(pending := None),
                            F.ResultOf(t.kind, o))
  {
    hide R.CoreInv, OwnersOf, R.ReleaseAll, T.WriteSlots, Returnable;
    var t := s.pending.value;
    F.GivenAddresses(s);
    F.TransferOwned(s);
    T.SlotsLength(CoreOf(s));
    GivenReturnable(s);
  }

  lemma GivenReturnable(s: State)
    requires StateInv(s) && s.pending.Some?
    ensures Returnable(s.heap, F.Given(s.pending.value))
  {
    hide R.CoreInv, OwnersOf, Shapes, R.OwnerOk, TransferShape, Returnable, R.AllIn, NoDuplicates, R.Typed, HeapInv;
    var t := s.pending.value;
    F.TransferOwned(s);
    F.OwnerDistinct(CoreOf(s), MAX_PIPES);
    P.InvHeap(CoreOf(s));
    OwnedReturnable(s.heap, s.mem, t);
  }

  lemma OwnedReturnable(h: Heap, mem: map<nat, R.Object>, t: Transfer)
    requires HeapInv(h) && R.Typed(h, mem) && R.AllIn(mem, TransferOwner(t).ptrs) && NoDuplicates(TransferOwner(t).ptrs)
    ensures Returnable(h, F.Given(t))
  {
    hide HeapInv;
    var ps := TransferOwner(t).ptrs;
    assert forall i :: 0 <= i < |F.Given(t)| ==> F.Given(t)[i] == ps[i];
  }

  lemma CloseCases(s: State, id: int)
    requires StateInv(s)
    ensures if id < 0 || id >= |s.pipes| || !s.pipes[id].inUse then P.Close(s, id) == s
      else
        var c, p := P.Unscheduled(s, id), s.pipes[id];
        && Returnable(c.heap, P.PipePtrs(p)) && p.interval > 0 && p.firstSlot < FRAMES && |s.slots| == FRAMES
        && c == R.Core(s.heap, Filled(s.slots, p.firstSlot, p.interval, UhciWords.TERMINATE), s.mem, OwnersOf(s) - {id})
        && (forall k :: 0 <= k < 3 ==> P.PipePtrs(p)[k] == NULL || P.PipePtrs(p)[k] > HEADER)
        && P.Close(s, id) == WithCore(s, R.ReleaseAll(c, P.PipePtrs(p))).(pipes := s.pipes[id := NO_PIPE])
  {
    hide R.CoreInv, OwnersOf, Shapes, R.AllDisposable, R.ReleaseAll, Filled, R.OwnerOk, P.Unscheduled, Returnable;
    if 0 <= id < |s.pipes| && s.pipes[id].inUse {
      P.CloseDisposable(s, id);
      P.PipeOwned(s, id);
      R.ReleaseAllKeepsInv(P.Unscheduled(s, id), P.PipePtrs(s.pipes[id]));
      DisposableReturnable(P.Unscheduled(s, id), P.PipePtrs(s.pipes[id]));
      UnscheduledFields(s, id);
    }
  }

  lemma UnscheduledFields(s: State, id: nat)
    requires StateInv(s) && id < |s.pipes|
    ensures |s.slots| == FRAMES
    ensures var slots := Filled(s.slots, s.pipes[id].firstSlot, s.pipes[id].interval, UhciWords.TERMINATE);
      P.Unscheduled(s, id) == R.Core(s.heap, slots, s.mem, OwnersOf(s) - {id})
  {
  }

  // ---- What may be given back ----

  lemma DisposableReturnable(c: R.Core, ps: seq<nat>)
    requires R.CoreInv(c) && R.AllDisposable(c, ps)
    ensures Returnable(c.heap, ps)
  {
  }

  lemma ObtainedReturnable(c0: R.Core, c: R.Core, buf: nat, td: nat, qh: nat)
    requires R.CoreInv(c0) && P.Obtained(c0, c, buf, td, qh)
    ensures Returnable(c.heap, [td, qh, buf])
  {
    P.ObtainedDisposable(c0, c, buf, td, qh);
    hide R.CoreInv, R.AllDisposable, Returnable;
    DisposableReturnable(c, [td, qh, buf]);
  }

  /** Distinct live blocks, or null. */
  ghost predicate Returnable(h: Heap, ps: seq<nat>) {
    && HeapInv(h)
    && (forall i :: 0 <= i < |ps| ==> ps[i] == NULL || Live(h, ps[i]))
    && (forall i, j :: 0 <= i < j < |ps| && ps[i] == ps[j] ==> ps[i] == NULL)
  }

  lemma LiveNotFree(h: Heap, p: nat)
    requires HeapInv(h) && Live(h, p)
    ensures p > HEADER && p - HEADER in h.size && p - HEADER !in h.free
  {
  }

  lemma ReturnableAddresses(h: Heap, ps: seq<nat>)
    requires Returnable(h, ps)
    ensures forall i :: 0 <= i < |ps| ==> ps[i] == NULL || ps[i] > HEADER
  {
  }

  lemma ReturnableAfter(h: Heap, ps: seq<nat>)
    requires Returnable(h, ps) && ps != []
    ensures HeapInv(h) && (ps[0] == NULL || Live(h, ps[0])) && Returnable(Free(h, ps[0]), ps[1..])
  {
  }
}
