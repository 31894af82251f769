/**
 One keyboard endpoint: its persistent transfer descriptor, completed by the hardware and
 re-armed by the service routine with the data toggle (USB 2.0, section 8.6).
 */
module Endpoint {
  import opened UhciWords
  import opened Resources
  import opened UhciModel

  datatype Endpoint = Endpoint(pipe: Pipe, td: Td, qh: Qh, data: seq<bv8>, delivered: seq<seq<bv8>>)

  // ---- Steps ----

  /** uhci_kbd_rearm_td: flip the toggle when data was consumed, then arm the descriptor. */
  function Rearm(e: Endpoint, advance: bool): Endpoint {
    var p := if advance then e.pipe.(toggle := e.pipe.toggle ^ 1) else e.pipe;
    e.(pipe := p,
       td := e.td.(token := BuildInToken(p.devAddr, p.ep, p.toggle, 8), status := TD_ARMED),
       qh := e.qh.(vertical := p.td))
  }

  /** uhci_kbd_service for one pipe: nothing while active; NAK and errors re-arm without data. */
  function Service(e: Endpoint): Endpoint {
    if IsActive(e.td.status) then e
    else if e.td.status & TD_NAK != 0 then Rearm(e, false)
    else if e.td.status & TD_ERR_MASK != 0 then Rearm(e, false)
    else Rearm(e.(delivered := e.delivered + [e.data]), true)
  }

  /** The hardware retires an active descriptor: any status without Active, any data, and any new
      element link in the queue head. */
  function Retire(e: Endpoint, status: bv32, element: nat, data: seq<bv8>): Endpoint
  {
    if IsActive(e.td.status) && !IsActive(status) then
      e.(td := e.td.(status := status), qh := e.qh.(vertical := element), data := data)
    else e
  }

  datatype Event = Completion(status: bv32, element: nat, data: seq<bv8>) | Interrupt

  function Next(e: Endpoint, ev: Event): Endpoint {
    match ev
    case Completion(status, element, data) => Retire(e, status, element, data)
    case Interrupt => Service(e)
  }

  function Run(e: Endpoint, evs: seq<Event>): Endpoint
    decreases |evs|
  {
    if evs == [] then e else Run(Next(e, evs[0]), evs[1..])
  }

  // ---- What the run means ----

  /** A completed report that waits for the service routine. */
  function Outstanding(e: Endpoint): seq<seq<bv8>> {
    if IsGood(e.td.status) then [e.data] else []
  }

  /** The report an event completes without error and without NAK, if any. */
  function CompletedBy(e: Endpoint, ev: Event): seq<seq<bv8>> {
    if ev.Completion? && IsActive(e.td.status) && IsGood(ev.status) then [ev.data] else []
  }

  /** The reports the hardware completed without error and without NAK during the run. */
  function Completed(e: Endpoint, evs: seq<Event>): seq<seq<bv8>>
    decreases |evs|
  {
    if evs == [] then []
    else
      CompletedBy(e, evs[0]) + Completed(Next(e, evs[0]), evs[1..])
  }

  /** The toggle is the parity of the delivered reports, and an active descriptor carries it in
      its token and is what the queue head points at. */
  ghost predicate InStep(e: Endpoint) {
    && e.pipe.toggle == (if |e.delivered| % 2 == 0 then 0 else 1)
    && (IsActive(e.td.status) ==>
          && e.td.token == BuildInToken(e.pipe.devAddr, e.pipe.ep, e.pipe.toggle, 8)
          && TokenToggle(e.td.token) == (|e.delivered| % 2 == 1)
          && e.qh.vertical == e.pipe.td)
  }

  lemma NextInStep(e: Endpoint, ev: Event)
    requires InStep(e)
    ensures InStep(Next(e, ev))
  {
  }

  /** One step conserves reports: delivered plus waiting grows by exactly what was completed. */
  lemma NextConserves(e: Endpoint, ev: Event)
    ensures Next(e, ev).delivered + Outstanding(Next(e, ev)) ==
      e.delivered + Outstanding(e) + CompletedBy(e, ev)
  {
  }

  /** Exactly once: over every interleaving of completions and service calls, the reports
      delivered, followed by the one still waiting, are those delivered or waiting before,
      followed by those the hardware completed, in order. */
  lemma {:induction false} ExactlyOnce(e: Endpoint, evs: seq<Event>)
    ensures Run(e, evs).delivered + Outstanding(Run(e, evs)) == e.delivered + Outstanding(e) + Completed(e, evs)
    decreases |evs|
  {
    hide Next, Outstanding, CompletedBy;
    if evs == [] {
      assert Completed(e, evs) == [];
    } else {
      NextConserves(e, evs[0]);
      ExactlyOnce(Next(e, evs[0]), evs[1..]);
      Reassociate(e.delivered + Outstanding(e), CompletedBy(e, evs[0]), Completed(Next(e, evs[0]), evs[1..]));
    }
  }

  lemma Reassociate<T>(a: seq<T>, b: seq<T>, c: seq<T>)
    ensures a + (b + c) == (a + b) + c
  {
  }

  lemma {:induction false} RunInStep(e: Endpoint, evs: seq<Event>)
    requires InStep(e)
    ensures InStep(Run(e, evs))
    decreases |evs|
  {
    if evs != [] {
      NextInStep(e, evs[0]);
      hide InStep, Next;
      RunInStep(Next(e, evs[0]), evs[1..]);
    }
  }

  /** After a service call the descriptor is active and no report waits; a second call for the
      same interrupt changes nothing. */
  lemma ServiceSettles(e: Endpoint)
    ensures IsActive(Service(e).td.status) && Outstanding(Service(e)) == []
    ensures Service(Service(e)) == Service(e)
  {
  }

  /** After every run that ends with a service call, everything completed has been delivered. */
  lemma AllDeliveredAfterService(e: Endpoint, evs: seq<Event>)
    requires Outstanding(e) == []
    ensures Service(Run(e, evs)).delivered == e.delivered + Completed(e, evs)
  {
    var f := Run(e, evs);
    ExactlyOnce(e, evs);
    NextConserves(f, Interrupt);
    ServiceSettles(f);
    hide Run, Completed;
    calc {
      Service(f).delivered;
      Service(f).delivered + Outstanding(Service(f));
      f.delivered + Outstanding(f) + [];
      e.delivered + [] + Completed(e, evs);
      e.delivered + Completed(e, evs);
    }
  }
}
