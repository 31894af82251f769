/**
 The service routine over all pipes, and the hardware's completions, as steps of the driver
 state. Every pipe in use evolves as its own endpoint, whatever the other pipes do.
 */
module UhciService {
  import opened Heap
  import opened UhciWords
  import opened Resources
  import opened FrameList
  import opened UhciModel
  import opened UhciPipes
  import opened UhciTransfers
  import E = Endpoint

  // ---- Endpoints of the state ----

  ghost function EndpointOf(s: State, i: nat): E.Endpoint
    requires Shapes(s) && i < MAX_PIPES && s.pipes[i].inUse
  {
    var p := s.pipes[i];
    assert PipeShape(s.mem, p);
    E.Endpoint(p, s.mem[p.td].td, s.mem[p.qh].qh, s.mem[p.buf].data, s.delivered[i])
  }

  /** The state with pipe `i` and its three objects taken from an endpoint. */
  function Put(s: State, i: nat, e: E.Endpoint): State
    requires i < |s.pipes| && i < |s.delivered|
  {
    var p := s.pipes[i];
    s.(pipes := s.pipes[i := e.pipe], delivered := s.delivered[i := e.delivered],
       mem := s.mem[p.td := TdObject(e.td)][p.qh := QhObject(e.qh)][p.buf := Bytes(e.data)])
  }

  /** A step of one endpoint never touches the identity of its pipe. */
  ghost predicate SamePipe(p: Pipe, p': Pipe) {
    p' == p.(toggle := p'.toggle)
  }

  /** The pointers of two pipes in use differ. */
  lemma PipesApart(s: State, i: nat, j: nat)
    requires StateInv(s) && i < MAX_PIPES && j < MAX_PIPES && i != j && s.pipes[i].inUse && s.pipes[j].inUse
    ensures forall q :: q in PipePtrs(s.pipes[i]) ==> q !in PipePtrs(s.pipes[j])
  {
    hide HeapInv, Typed, SlotsOk, OwnersOk;
    var o := OwnersOf(s);
    assert i in o && j in o && o[i].ptrs == PipePtrs(s.pipes[i]) && o[j].ptrs == PipePtrs(s.pipes[j]);
  }

  lemma PutKinds(s: State, i: nat, e: E.Endpoint)
    requires Shapes(s) && i < MAX_PIPES && s.pipes[i].inUse
    ensures SameKinds(s.mem, Put(s, i, e).mem)
  {
  }

  /** Rewriting an endpoint in place keeps the invariant. */
  lemma PutKeepsInv(s: State, i: nat, e: E.Endpoint)
    requires StateInv(s) && i < MAX_PIPES && s.pipes[i].inUse && SamePipe(s.pipes[i], e.pipe)
    ensures StateInv(Put(s, i, e))
  {
    var s' := Put(s, i, e);
    hide CoreInv, OwnersOf;
    PutKinds(s, i, e);
    SameKindsKeepsInv(CoreOf(s), s'.mem);
    PutOwners(s, i, e);
    PutShapes(s, i, e);
  }

  lemma PutOwners(s: State, i: nat, e: E.Endpoint)
    requires Shapes(s) && i < MAX_PIPES && s.pipes[i].inUse && SamePipe(s.pipes[i], e.pipe)
    ensures OwnersOf(Put(s, i, e)) == OwnersOf(s)
  {
  }

  lemma PutShapes(s: State, i: nat, e: E.Endpoint)
    requires Shapes(s) && i < MAX_PIPES && s.pipes[i].inUse && SamePipe(s.pipes[i], e.pipe)
    ensures Shapes(Put(s, i, e))
  {
  }

  lemma KindsShapes(s: State, mem': map<nat, Object>)
    requires Shapes(s) && SameKinds(s.mem, mem')
    ensures forall j :: 0 <= j < MAX_PIPES ==> PipeShape(mem', s.pipes[j])
    ensures s.pending.Some? ==> TransferShape(mem', s.pending.value)
  {
  }

  /** What is put is what is read back. */
  lemma PutGet(s: State, i: nat, e: E.Endpoint)
    requires StateInv(s) && i < MAX_PIPES && s.pipes[i].inUse && SamePipe(s.pipes[i], e.pipe)
    ensures StateInv(Put(s, i, e)) && EndpointOf(Put(s, i, e), i) == e
  {
    hide CoreInv, OwnersOf;
    PutKeepsInv(s, i, e);
    assert PipeShape(s.mem, s.pipes[i]);
  }

  /** Other endpoints do not notice. */
  lemma PutOther(s: State, i: nat, e: E.Endpoint, j: nat)
    requires StateInv(s) && i < MAX_PIPES && s.pipes[i].inUse && SamePipe(s.pipes[i], e.pipe)
    requires j < MAX_PIPES && j != i && s.pipes[j].inUse
    ensures StateInv(Put(s, i, e)) && Put(s, i, e).pipes[j] == s.pipes[j]
    ensures EndpointOf(Put(s, i, e), j) == EndpointOf(s, j)
  {
    PipesApart(s, i, j);
    hide CoreInv, OwnersOf;
    PutKeepsInv(s, i, e);
    var p, r := s.pipes[j], s.pipes[i];
    assert PipeShape(s.mem, p);
    assert p.td in PipePtrs(p) && p.qh in PipePtrs(p) && p.buf in PipePtrs(p);
    assert r.td in PipePtrs(r) && r.qh in PipePtrs(r) && r.buf in PipePtrs(r);
  }

  /** Putting an endpoint back unchanged changes nothing. */
  lemma PutSame(s: State, i: nat)
    requires Shapes(s) && i < MAX_PIPES && s.pipes[i].inUse
    ensures Put(s, i, EndpointOf(s, i)) == s
  {
  }

  /** Re-arming in terms of the memory it writes. */
  function RearmedState(s: State, i: nat, advance: bool): State
    requires i < |s.pipes| && s.pipes[i].td in s.mem && s.mem[s.pipes[i].td].TdObject?
    requires IsQh(s.mem, s.pipes[i].qh)
  {
    var p := if advance then s.pipes[i].(toggle := s.pipes[i].toggle ^ 1) else s.pipes[i];
    var td := s.mem[p.td].td.(token := BuildInToken(p.devAddr, p.ep, p.toggle, 8), status := TD_ARMED);
    s.(pipes := s.pipes[i := p],
       mem := s.mem[p.td := TdObject(td)][p.qh := QhObject(s.mem[p.qh].qh.(vertical := p.td))])
  }

  lemma RearmValue(s: State, i: nat, advance: bool)
    requires Shapes(s) && i < MAX_PIPES && s.pipes[i].inUse
    ensures PipeShape(s.mem, s.pipes[i])
    ensures Put(s, i, E.Rearm(EndpointOf(s, i), advance)) == RearmedState(s, i, advance)
  {
    hide BuildInToken;
    assert PipeShape(s.mem, s.pipes[i]);
    var e := E.Rearm(EndpointOf(s, i), advance);
    var p := s.pipes[i];
    assert Put(s, i, e).mem == s.mem[p.td := TdObject(e.td)][p.qh := QhObject(e.qh)];
    assert s.delivered[i := s.delivered[i]] == s.delivered;
  }

  /** Logging a report and then re-arming is one step of the endpoint. */
  lemma DeliverFirst(s: State, i: nat)
    requires StateInv(s) && i < MAX_PIPES && s.pipes[i].inUse
    ensures var e := EndpointOf(s, i);
      var s1 := s.(delivered := s.delivered[i := s.delivered[i] + [e.data]]);
      && StateInv(s1) && EndpointOf(s1, i) == e.(delivered := e.delivered + [e.data])
      && Put(s1, i, E.Rearm(EndpointOf(s1, i), true)) == Put(s, i, E.Rearm(EndpointOf(s1, i), true))
  {
    hide CoreInv;
    var e := EndpointOf(s, i);
    var s1 := s.(delivered := s.delivered[i := s.delivered[i] + [e.data]]);
    OwnersFrame(s, s1);
    hide OwnersOf;
    assert Shapes(s1);
  }

  // ---- Steps of the state ----

  /** The service routine on one pipe. */
  ghost function ServicePipe(s: State, i: nat): State
    requires Shapes(s) && i < MAX_PIPES
  {
    if s.pipes[i].inUse then Put(s, i, E.Service(EndpointOf(s, i))) else s
  }

  lemma ServicePipeKeepsInv(s: State, i: nat)
    requires StateInv(s) && i < MAX_PIPES
    ensures StateInv(ServicePipe(s, i))
  {
    if s.pipes[i].inUse {
      hide CoreInv;
      PutKeepsInv(s, i, E.Service(EndpointOf(s, i)));
    }
  }

  /** uhci_kbd_service: the pipes from `i` on, in order. */
  ghost function ServiceFrom(s: State, i: nat): (s': State)
    requires StateInv(s) && i <= MAX_PIPES
    ensures StateInv(s')
    decreases MAX_PIPES - i
  {
    if i == MAX_PIPES then s
    else
      ServicePipeKeepsInv(s, i);
      ServiceFrom(ServicePipe(s, i), i + 1)
  }

  /** The hardware retires the descriptor of pipe `i`. */
  ghost function Retire(s: State, i: nat, status: bv32, element: nat, data: seq<bv8>): (s': State)
    requires StateInv(s)
    ensures StateInv(s')
  {
    if i < MAX_PIPES && s.pipes[i].inUse then
      var e := E.Retire(EndpointOf(s, i), status, element, data);
      PutKeepsInv(s, i, e);
      Put(s, i, e)
    else s
  }

  datatype BusEvent = Completion(pipe: nat, status: bv32, element: nat, data: seq<bv8>) | Interrupt

  ghost function BusNext(s: State, ev: BusEvent): (s': State)
    requires StateInv(s)
    ensures StateInv(s')
  {
    match ev
    case Completion(i, status, element, data) => Retire(s, i, status, element, data)
    case Interrupt => ServiceFrom(s, 0)
  }

  ghost function BusRun(s: State, evs: seq<BusEvent>): (s': State)
    requires StateInv(s)
    ensures StateInv(s')
    decreases |evs|
  {
    if evs == [] then s else BusRun(BusNext(s, evs[0]), evs[1..])
  }

  // ---- Each pipe is its own endpoint ----

  function EventFor(ev: BusEvent, i: nat): seq<E.Event> {
    match ev
    case Completion(j, status, element, data) => if j == i then [E.Completion(status, element, data)] else []
    case Interrupt => [E.Interrupt]
  }

  function EventsFor(evs: seq<BusEvent>, i: nat): seq<E.Event>
    decreases |evs|
  {
    if evs == [] then [] else EventFor(evs[0], i) + EventsFor(evs[1..], i)
  }

  lemma ServicePipeEndpoint(s: State, k: nat, i: nat)
    requires StateInv(s) && k < MAX_PIPES && i < MAX_PIPES && s.pipes[i].inUse
    ensures StateInv(ServicePipe(s, k)) && ServicePipe(s, k).pipes[i].inUse
    ensures EndpointOf(ServicePipe(s, k), i) == if k == i then E.Service(EndpointOf(s, i)) else EndpointOf(s, i)
  {
    hide CoreInv, OwnersOf;
    if s.pipes[k].inUse {
      var e := E.Service(EndpointOf(s, k));
      if k == i { PutGet(s, i, e); } else { PutOther(s, k, e, i); }
      hide Put, EndpointOf;
    }
  }

  lemma {:induction false} ServiceOnce(s: State, k: nat, i: nat)
    requires StateInv(s) && k <= MAX_PIPES && i < MAX_PIPES && s.pipes[i].inUse
    ensures ServiceFrom(s, k).pipes[i].inUse
    ensures EndpointOf(ServiceFrom(s, k), i) == if i < k then EndpointOf(s, i) else E.Service(EndpointOf(s, i))
    decreases MAX_PIPES - k
  {
    hide CoreInv, EndpointOf, E.Service, ServicePipe;
    if k < MAX_PIPES {
      ServicePipeEndpoint(s, k, i);
      hide Shapes, StateInv;
      ServiceOnce(ServicePipe(s, k), k + 1, i);
    }
  }

  lemma BusNextEndpoint(s: State, ev: BusEvent, i: nat)
    requires StateInv(s) && i < MAX_PIPES && s.pipes[i].inUse
    ensures BusNext(s, ev).pipes[i].inUse
    ensures EndpointOf(BusNext(s, ev), i) == E.Run(EndpointOf(s, i), EventFor(ev, i))
  {
    hide CoreInv, Shapes, OwnersOf, EndpointOf, Put, ServiceFrom, Retire, E.Run;
    match ev {
      case Interrupt =>
        ServiceOnce(s, 0, i);
        RunOne(EndpointOf(s, i), E.Interrupt);
      case Completion(j, status, element, data) =>
        RetireEndpoint(s, j, status, element, data, i);
        RunOne(EndpointOf(s, i), E.Completion(status, element, data));
        RunNone(EndpointOf(s, i));
    }
  }

  lemma RetireEndpoint(s: State, j: nat, status: bv32, element: nat, data: seq<bv8>, i: nat)
    requires StateInv(s) && i < MAX_PIPES && s.pipes[i].inUse
    ensures Retire(s, j, status, element, data).pipes[i].inUse
    ensures EndpointOf(Retire(s, j, status, element, data), i) ==
      if j == i then E.Retire(EndpointOf(s, i), status, element, data) else EndpointOf(s, i)
  {
    hide CoreInv, Shapes, OwnersOf, EndpointOf, Put;
    StateCounts(s);
    if j < MAX_PIPES && s.pipes[j].inUse {
      var e := E.Retire(EndpointOf(s, j), status, element, data);
      EndpointPipe(s, j);
      if j == i {
        PutGet(s, i, e);
        PutPipe(s, i, e);
      } else {
        PutOther(s, j, e, i);
      }
    }
  }

  lemma EndpointPipe(s: State, i: nat)
    requires Shapes(s) && i < MAX_PIPES && s.pipes[i].inUse
    ensures EndpointOf(s, i).pipe == s.pipes[i]
  {
  }

  lemma PutPipe(s: State, i: nat, e: E.Endpoint)
    requires i < |s.pipes| && i < |s.delivered|
    ensures Put(s, i, e).pipes == s.pipes[i := e.pipe]
  {
  }

  lemma RunNone(e: E.Endpoint)
    ensures E.Run(e, []) == e
  {
  }

  lemma RunOne(e: E.Endpoint, ev: E.Event)
    ensures E.Run(e, [ev]) == E.Next(e, ev)
  {
  }

  lemma {:induction false} RunAppend(e: E.Endpoint, a: seq<E.Event>, b: seq<E.Event>)
    ensures E.Run(e, a + b) == E.Run(E.Run(e, a), b)
    decreases |a|
  {
    if a == [] {
      assert a + b == b;
    } else {
      assert (a + b)[0] == a[0] && (a + b)[1..] == a[1..] + b;
      RunAppend(E.Next(e, a[0]), a[1..], b);
    }
  }

  /** A pipe just opened is in step: active, toggle 0, nothing delivered. */
  lemma OpenedInStep(s: State, r: OpenRequest)
    requires StateInv(s) && Open(s, r).1 != -1
    ensures var (s1, id) := Open(s, r);
      && StateInv(s1) && 0 <= id < MAX_PIPES && s1.pipes[id].inUse
      && E.InStep(EndpointOf(s1, id)) && E.Outstanding(EndpointOf(s1, id)) == [] && s1.delivered[id] == []
  {
    hide CoreInv, OwnersOf, AllDisposable, Acquire, ReleaseAll, OpenedState, TransferShape;
    OpenKeepsInv(s, r);
    var (s1, id) := Open(s, r);
    SlotCount(s);
    AcquireObtained(CoreOf(s));
    var (c, buf, td, qh) := Acquire(CoreOf(s));
    SlotsLength(c);
    hide StateInv, Open, Shapes, Obtained, PipeShape;
    OpenedEndpoint(s, id, c, PipeFor(r, buf, td, qh));
  }

  /** A pipe just opened is polled in time: every window of its interval, also across the wrap of
      the frame list, has a slot that links to its queue head. */
  lemma OpenedIsPolled(s: State, r: OpenRequest, w: nat) returns (j: nat)
    requires StateInv(s) && Open(s, r).1 != -1
    ensures var (s1, id) := Open(s, r);
      && 0 <= id < |s1.pipes| && |s1.slots| == FRAMES
      && s1.pipes[id].interval == (if r.interval == 0 then 1 else r.interval)
      && j < s1.pipes[id].interval && s1.slots[(w + j) % FRAMES] == QhLink(s1.pipes[id].qh)
  {
    hide CoreInv, OwnersOf, AllDisposable, Acquire, ReleaseAll, TransferShape, Link, Filled;
    SlotCount(s);
    AcquireObtained(CoreOf(s));
    var (c, buf, td, qh) := Acquire(CoreOf(s));
    SlotsLength(c);
    var p := PipeFor(r, buf, td, qh);
    j := PolledInEveryWindow(c.slots, p.firstSlot, p.interval, QhLink(p.qh), w);
  }

  lemma OpenedEndpoint(s: State, id: nat, c: Core, p: Pipe)
    requires |s.pipes| == MAX_PIPES && |s.delivered| == MAX_PIPES && id < MAX_PIPES && |c.slots| == FRAMES
    requires p.inUse && p.toggle == 0 && p.td != p.qh && Shapes(OpenedState(s, id, c, p))
    ensures var s1 := OpenedState(s, id, c, p);
      E.InStep(EndpointOf(s1, id)) && E.Outstanding(EndpointOf(s1, id)) == [] && s1.delivered[id] == []
  {
  }
}
