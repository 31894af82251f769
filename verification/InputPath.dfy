/**
 From the bus to the command line: the service routine hands completed reports to the keyboard
 layer, whose queue the shell reads one event at a time while interrupts go on. Over every
 interleaving, what the user sees is a function of the reports the hardware completed.
 */
module InputPath {
  import opened UhciWords
  import opened UhciModel
  import opened UhciPipes
  import opened UhciService
  import opened UhciRuns
  import opened UhciDelivery
  import opened KeyStream
  import opened Editor
  import UhciPolling
  import Resources
  import CommandLine
  import KeyboardLayer
  import M = Modifiers
  import H = HidReport
  import K = Keyboard
  import E = Endpoint

  // ---- Handing reports over ----

  /** The report the service routine finds completed on pipe `i`, if any. */
  ghost function HandedBy(s: State, i: nat): seq<Handover>
    requires Shapes(s) && i < MAX_PIPES
  {
    if s.pipes[i].inUse && IsGood(EndpointOf(s, i).td.status)
    then [Handover(i, s.pipes[i].devIndex, EndpointOf(s, i).data)] else []
  }

  /** The reports one service call hands over, in the order of the pipes. */
  ghost function ServedFrom(s: State, i: nat): seq<Handover>
    requires StateInv(s) && i <= MAX_PIPES
    decreases MAX_PIPES - i
  {
    if i == MAX_PIPES then []
    else
      ServicePipeKeepsInv(s, i);
      HandedBy(s, i) + ServedFrom(ServicePipe(s, i), i + 1)
  }

  ghost function Handovers(s: State, step: Step): seq<Handover>
    requires StateInv(s)
  {
    if step == Bus(Interrupt) then ServedFrom(s, 0) else []
  }

  /** The reports among them that came from pipe `i`. */
  function Project(hs: seq<Handover>, i: nat): seq<seq<bv8>> {
    if hs == [] then [] else (if hs[0].pipe == i then [hs[0].data] else []) + Project(hs[1..], i)
  }

  lemma {:induction false} ProjectAppend(a: seq<Handover>, b: seq<Handover>, i: nat)
    ensures Project(a + b, i) == Project(a, i) + Project(b, i)
  {
    if a == [] {
      assert a + b == b;
    } else {
      assert (a + b)[0] == a[0] && (a + b)[1..] == a[1..] + b;
      ProjectAppend(a[1..], b, i);
    }
  }

  lemma HandedProject(s: State, k: nat, i: nat)
    requires Shapes(s) && k < MAX_PIPES && i < MAX_PIPES && s.pipes[i].inUse
    ensures Project(HandedBy(s, k), i) == if k == i then E.Outstanding(EndpointOf(s, i)) else []
  {
    hide Shapes, EndpointOf, IsGood;
    var hs := HandedBy(s, k);
    assert hs != [] ==> hs[1..] == [];
  }

  /** A service call hands over exactly the report that waits on the pipe. */
  lemma {:induction false} ServedProject(s: State, k: nat, i: nat)
    requires StateInv(s) && k <= MAX_PIPES && i < MAX_PIPES && s.pipes[i].inUse
    ensures Project(ServedFrom(s, k), i) == if i < k then [] else E.Outstanding(EndpointOf(s, i))
    decreases MAX_PIPES - k
  {
    hide Resources.CoreInv, OwnersOf, EndpointOf, ServicePipe, HandedBy, E.Service, E.Outstanding;
    if k < MAX_PIPES {
      ServicePipeEndpoint(s, k, i);
      HandedProject(s, k, i);
      hide Shapes, StateInv;
      ServedProject(ServicePipe(s, k), k + 1, i);
      ProjectAppend(HandedBy(s, k), ServedFrom(ServicePipe(s, k), k + 1), i);
    }
  }

  lemma ServiceDelivers(e: E.Endpoint)
    ensures E.Service(e).delivered == e.delivered + E.Outstanding(e)
  {
    hide BuildInToken;
  }

  lemma QuietDelivers(e: E.Endpoint, step: Step, i: nat)
    requires step != Bus(Interrupt)
    ensures E.Run(e, StepEvents(step, i)).delivered == e.delivered
  {
    hide IsActive;
  }

  /** One step delivers what it hands over. */
  lemma StepDelivers(s: State, step: Step, i: nat)
    requires StateInv(s) && Enabled(s, step) && i < MAX_PIPES && s.pipes[i].inUse && step != ClosePipe(i)
    ensures |s.delivered| == |Next(s, step).delivered| == MAX_PIPES
    ensures Next(s, step).delivered[i] == s.delivered[i] + Project(Handovers(s, step), i)
  {
    hide Resources.CoreInv, Shapes, OwnersOf, Next, EndpointOf, ServedFrom, Enabled, E.Service, E.Outstanding;
    StepEndpoint(s, step, i);
    EndpointLog(s, i);
    EndpointLog(Next(s, step), i);
    if step == Bus(Interrupt) {
      ServedProject(s, 0, i);
      ServiceDelivers(EndpointOf(s, i));
      RunOne(EndpointOf(s, i), E.Interrupt);
    } else {
      QuietDelivers(EndpointOf(s, i), step, i);
    }
  }

  // ---- The whole path ----

  datatype System = System(driver: State, devices: seq<KeyboardLayer.Device>, kbd: K.Kbd, line: Line, ended: bool)

  datatype Action =
    | Drive(step: Step)   // the driver or the hardware
    | Read                // the shell reads one event and edits the line
    | Flush               // the shell runs a finished command and starts a new line

  ghost predicate WfSystem(x: System) {
    StateInv(x.driver) && WfDevices(x.devices) && |x.kbd.events| <= ROOM
  }

  ghost predicate Possible(x: System, a: Action) {
    (a.Drive? ==> Enabled(x.driver, a.step)) && (a.Flush? ==> x.ended)
  }

  function LayerOf(x: System): Layer {
    Layer(x.kbd.mods, x.devices)
  }

  /** The keyboard layer takes the reports one after another. */
  function HandAll(x: System, l: K.Layout, hs: seq<Handover>): System
    requires K.WfLayout(l)
    decreases |hs|
  {
    if hs == [] then x
    else HandAll(x.(kbd := Hand(x.kbd, x.devices, l, hs[0]), devices := Noted(x.devices, hs[0])), l, hs[1..])
  }

  function ReadOne(x: System): System {
    if x.kbd.events == [] then x
    else
      var e, rest := x.kbd.events[0], x.kbd.(events := x.kbd.events[1..]);
      if e.press then x.(kbd := rest, line := Edit(x.line, e.code), ended := e.code == KC_ENTER)
      else x.(kbd := rest)
  }

  /** Several reports in a row: the queue takes their events as far as there is room. */
  lemma {:induction false} HandAllAppends(x: System, l: K.Layout, hs: seq<Handover>)
    requires K.WfLayout(l) && WfDevices(x.devices) && |x.kbd.events| <= ROOM
    ensures var x' := HandAll(x, l, hs);
      && WfDevices(x'.devices) && LayerOf(x') == HeedAll(LayerOf(x), l, hs)
      && x'.kbd.events == Clip(x.kbd.events + AllMade(LayerOf(x), l, hs))
      && x' == x.(kbd := x'.kbd, devices := x'.devices)
    decreases |hs|
  {
    hide Hand, Noted, Made, Heed, Clip, K.WfLayout, WfDevices;
    if hs == [] {
      assert x.kbd.events + [] == x.kbd.events;
    } else {
      var y := x.(kbd := Hand(x.kbd, x.devices, l, hs[0]), devices := Noted(x.devices, hs[0]));
      NotedWf(x.devices, hs[0]);
      HandAppends(x.kbd, x.devices, l, hs[0]);
      HandAllAppends(y, l, hs[1..]);
      ClipTwice(x.kbd.events, Made(LayerOf(x), l, hs[0]), AllMade(LayerOf(y), l, hs[1..]));
    }
  }

  ghost function Act(x: System, l: K.Layout, a: Action): (x': System)
    requires K.WfLayout(l) && WfSystem(x) && Possible(x, a)
    ensures WfSystem(x')
  {
    hide StateInv, WfDevices, K.WfLayout, HandAll, Clip, Enabled, ServedFrom;
    match a
    case Drive(step) =>
      HandAllAppends(x, l, Handovers(x.driver, step));
      HandAll(x, l, Handovers(x.driver, step)).(driver := Next(x.driver, step))
    case Read => ReadOne(x)
    case Flush => x.(line := Line("", ""), ended := false)
  }

  ghost predicate PossibleRun(x: System, l: K.Layout, acts: seq<Action>)
    requires K.WfLayout(l) && WfSystem(x)
    decreases |acts|
  {
    acts == [] || (Possible(x, acts[0]) && PossibleRun(Act(x, l, acts[0]), l, acts[1..]))
  }

  ghost function ActAll(x: System, l: K.Layout, acts: seq<Action>): (x': System)
    requires K.WfLayout(l) && WfSystem(x) && PossibleRun(x, l, acts)
    ensures WfSystem(x')
    decreases |acts|
  {
    if acts == [] then x else ActAll(Act(x, l, acts[0]), l, acts[1..])
  }

  // ---- What a run does ----

  function DriverSteps(acts: seq<Action>): seq<Step>
    decreases |acts|
  {
    if acts == [] then []
    else (if acts[0].Drive? then [acts[0].step] else []) + DriverSteps(acts[1..])
  }

  ghost function Handed(x: System, a: Action): seq<Handover>
    requires WfSystem(x)
  {
    if a.Drive? then Handovers(x.driver, a.step) else []
  }

  /** The reports handed over during the run. */
  ghost function HandedAll(x: System, l: K.Layout, acts: seq<Action>): seq<Handover>
    requires K.WfLayout(l) && WfSystem(x) && PossibleRun(x, l, acts)
    decreases |acts|
  {
    if acts == [] then [] else Handed(x, acts[0]) + HandedAll(Act(x, l, acts[0]), l, acts[1..])
  }

  /** The events read during the run. */
  ghost function ReadAll(x: System, l: K.Layout, acts: seq<Action>): seq<K.Event>
    requires K.WfLayout(l) && WfSystem(x) && PossibleRun(x, l, acts)
    decreases |acts|
  {
    if acts == [] then []
    else
      FirstRead(x, acts[0]) + ReadAll(Act(x, l, acts[0]), l, acts[1..])
  }

  /** Every service call finds room in the queue for all the events it makes. */
  ghost predicate NothingDropped(x: System, l: K.Layout, acts: seq<Action>)
    requires K.WfLayout(l) && WfSystem(x) && PossibleRun(x, l, acts)
    decreases |acts|
  {
    acts == [] ||
    (&& |x.kbd.events + AllMade(LayerOf(x), l, Handed(x, acts[0]))| <= ROOM
     && NothingDropped(Act(x, l, acts[0]), l, acts[1..]))
  }

  // ---- The driver ----

  lemma ActDriver(x: System, l: K.Layout, a: Action)
    requires K.WfLayout(l) && WfSystem(x) && Possible(x, a)
    ensures Act(x, l, a).driver == if a.Drive? then Next(x.driver, a.step) else x.driver
    ensures LayerOf(Act(x, l, a)) == HeedAll(LayerOf(x), l, Handed(x, a))
    ensures a.Drive? ==> Act(x, l, a).line == x.line && Act(x, l, a).ended == x.ended
    ensures a.Flush? ==> Act(x, l, a).line == Line("", "") && !Act(x, l, a).ended && Act(x, l, a).kbd == x.kbd
    ensures a.Drive? ==> Act(x, l, a).kbd.events == Clip(x.kbd.events + AllMade(LayerOf(x), l, Handed(x, a)))
  {
    hide StateInv, WfDevices, K.WfLayout, HandAll, Clip, Enabled, ServedFrom, Made, Heed, Next;
    if a.Drive? {
      HandAllAppends(x, l, Handovers(x.driver, a.step));
    }
  }

  lemma {:induction false} RunDriver(x: System, l: K.Layout, acts: seq<Action>)
    requires K.WfLayout(l) && WfSystem(x) && PossibleRun(x, l, acts)
    ensures LegalRun(x.driver, DriverSteps(acts))
    ensures ActAll(x, l, acts).driver == UhciRuns.Run(x.driver, DriverSteps(acts))
    decreases |acts|
  {
    hide StateInv, WfDevices, K.WfLayout, Act, Enabled, Next;
    if acts != [] {
      ActDriver(x, l, acts[0]);
      var rest := DriverSteps(acts[1..]);
      RunDriver(Act(x, l, acts[0]), l, acts[1..]);
      if acts[0].Drive? {
        assert ([acts[0].step] + rest)[1..] == rest;
      } else {
        assert [] + rest == rest;
      }
    }
  }

  /** The run goes on with the pipe in use: its log gains what is handed over. */
  lemma ActHandsOver(x: System, l: K.Layout, a: Action, i: nat)
    requires K.WfLayout(l) && WfSystem(x) && Possible(x, a)
    requires i < MAX_PIPES && |x.driver.pipes| == MAX_PIPES && x.driver.pipes[i].inUse
    requires a.Drive? ==> a.step != ClosePipe(i)
    ensures var s, s' := x.driver, Act(x, l, a).driver;
      && |s.delivered| == |s'.delivered| == |s'.pipes| == MAX_PIPES
      && s'.pipes[i].inUse && s'.pipes[i].devIndex == s.pipes[i].devIndex
      && s'.delivered[i] == s.delivered[i] + Project(Handed(x, a), i)
  {
    hide StateInv, WfDevices, K.WfLayout, Act, Enabled, Next, Handovers, Project;
    ActDriver(x, l, a);
    StateCounts(x.driver);
    StateCounts(Act(x, l, a).driver);
    if a.Drive? {
      StepDelivers(x.driver, a.step, i);
      UhciPolling.StepSamePipe(x.driver, a.step, i);
    } else {
      ProjectNone(i);
    }
  }

  lemma StepsOf(acts: seq<Action>)
    requires acts != []
    ensures acts[0].Drive? ==> acts[0].step in DriverSteps(acts)
    ensures forall step :: step in DriverSteps(acts[1..]) ==> step in DriverSteps(acts)
  {
  }

  /** Over every run that does not close the pipe, the reports of the pipe handed to the keyboard
      layer are those its log gains. */
  lemma {:induction false} RunHandsOver(x: System, l: K.Layout, acts: seq<Action>, i: nat)
    requires K.WfLayout(l) && WfSystem(x) && PossibleRun(x, l, acts)
    requires i < MAX_PIPES && |x.driver.pipes| == |x.driver.delivered| == MAX_PIPES && x.driver.pipes[i].inUse
    requires ClosePipe(i) !in DriverSteps(acts)
    ensures var s' := ActAll(x, l, acts).driver;
      |s'.delivered| == MAX_PIPES && s'.delivered[i] == x.driver.delivered[i] + Project(HandedAll(x, l, acts), i)
    decreases |acts|
  {
    hide WfSystem, K.WfLayout, Act, Possible, Handed, Project, DriverSteps;
    if acts == [] {
      ProjectNone(i);
    } else {
      var y := Act(x, l, acts[0]);
      StepsOf(acts);
      ActHandsOver(x, l, acts[0], i);
      RunHandsOver(y, l, acts[1..], i);
      ProjectAppend(Handed(x, acts[0]), HandedAll(y, l, acts[1..]), i);
    }
  }

  lemma ProjectNone(i: nat)
    ensures Project([], i) == []
  {
  }

  // ---- The layer and its queue ----

  /** The modifiers and the last reports are a function of the reports handed over: neither the queue nor
      the reader has any influence. */
  lemma {:induction false} RunLayer(x: System, l: K.Layout, acts: seq<Action>)
    requires K.WfLayout(l) && WfSystem(x) && PossibleRun(x, l, acts)
    ensures LayerOf(ActAll(x, l, acts)) == HeedAll(LayerOf(x), l, HandedAll(x, l, acts))
    decreases |acts|
  {
    hide WfSystem, K.WfLayout, Act, Possible, Handed, Heed, LayerOf;
    if acts != [] {
      ActDriver(x, l, acts[0]);
      var y := Act(x, l, acts[0]);
      RunLayer(y, l, acts[1..]);
      HeedAllAppend(LayerOf(x), l, Handed(x, acts[0]), HandedAll(y, l, acts[1..]));
    }
  }

  /** Events are conserved: those read followed by those still queued are those queued before followed by
      those made, if and only if no service call ran out of room; otherwise some are lost for good. */
  lemma {:induction false} EventsConservedExactly(x: System, l: K.Layout, acts: seq<Action>)
    requires K.WfLayout(l) && WfSystem(x) && PossibleRun(x, l, acts)
    ensures var got := ReadAll(x, l, acts) + ActAll(x, l, acts).kbd.events;
      var made := x.kbd.events + AllMade(LayerOf(x), l, HandedAll(x, l, acts));
      && (NothingDropped(x, l, acts) ==> got == made)
      && (!NothingDropped(x, l, acts) ==> |got| < |made|)
    decreases |acts|
  {
    hide WfSystem, K.WfLayout, Act, Possible, Handed, AllMade, HeedAll, LayerOf, Clip;
    hide HandedAll, ReadAll, ActAll, NothingDropped;
    if acts == [] {
      NothingDone(x, l);
      assert [] + x.kbd.events == x.kbd.events == x.kbd.events + [];
    } else {
      var a, y := acts[0], Act(x, l, acts[0]);
      RunUnfolds(x, l, acts);
      ActDriver(x, l, a);
      EventsStep(x, l, a);
      EventsConservedExactly(y, l, acts[1..]);
      HeedAllAppend(LayerOf(x), l, Handed(x, a), HandedAll(y, l, acts[1..]));
      ConservedOnce(x.kbd.events, AllMade(LayerOf(x), l, Handed(x, a)), y.kbd.events, FirstRead(x, a),
                    ReadAll(y, l, acts[1..]), ActAll(y, l, acts[1..]).kbd.events,
                    AllMade(LayerOf(y), l, HandedAll(y, l, acts[1..])), NothingDropped(y, l, acts[1..]));
    }
  }

  /** The event an action reads, if any. */
  function FirstRead(x: System, a: Action): seq<K.Event> {
    if a.Read? && x.kbd.events != [] then [x.kbd.events[0]] else []
  }

  lemma NothingDone(x: System, l: K.Layout)
    requires K.WfLayout(l) && WfSystem(x)
    ensures PossibleRun(x, l, []) && ActAll(x, l, []) == x && HandedAll(x, l, []) == [] && ReadAll(x, l, []) == []
    ensures NothingDropped(x, l, []) && AllMade(LayerOf(x), l, []) == []
  {
  }

  /** What a run does, first action first. */
  lemma RunUnfolds(x: System, l: K.Layout, acts: seq<Action>)
    requires K.WfLayout(l) && WfSystem(x) && PossibleRun(x, l, acts) && acts != []
    ensures Possible(x, acts[0]) && PossibleRun(Act(x, l, acts[0]), l, acts[1..])
    ensures var y := Act(x, l, acts[0]);
      && HandedAll(x, l, acts) == Handed(x, acts[0]) + HandedAll(y, l, acts[1..])
      && ReadAll(x, l, acts) == FirstRead(x, acts[0]) + ReadAll(y, l, acts[1..])
      && ActAll(x, l, acts) == ActAll(y, l, acts[1..])
      && (NothingDropped(x, l, acts) <==>
            |x.kbd.events + AllMade(LayerOf(x), l, Handed(x, acts[0]))| <= ROOM && NothingDropped(y, l, acts[1..]))
  {
    hide WfSystem, K.WfLayout, Act, Possible, Handed, AllMade, LayerOf;
  }

  /** The queue `q` becomes `q'` by taking in what is made or by giving out what is read. */
  lemma ConservedOnce(q: seq<K.Event>, made: seq<K.Event>, q': seq<K.Event>, read: seq<K.Event>,
                      later: seq<K.Event>, end: seq<K.Event>, more: seq<K.Event>, kept: bool)
    requires |q| <= ROOM && ((read == [] && q' == Clip(q + made)) || (made == [] && q == read + q'))
    requires kept ==> later + end == q' + more
    requires !kept ==> |later + end| < |q' + more|
    ensures kept && |q + made| <= ROOM ==> (read + later) + end == q + (made + more)
    ensures !(kept && |q + made| <= ROOM) ==> |(read + later) + end| < |q + (made + more)|
  {
    if read == [] && q' == Clip(q + made) {
      assert (read + later) + end == later + end;
      assert q + (made + more) == (q + made) + more;
    } else {
      assert (read + later) + end == read + (later + end);
      assert q + (made + more) == read + (q' + more);
    }
  }

  /** What one action does to the queue. */
  lemma EventsStep(x: System, l: K.Layout, a: Action)
    requires K.WfLayout(l) && WfSystem(x) && Possible(x, a)
    ensures |x.kbd.events| <= ROOM && (!a.Drive? ==> Handed(x, a) == [] && AllMade(LayerOf(x), l, []) == [])
    ensures a.Flush? ==> Act(x, l, a).kbd.events == x.kbd.events
    ensures a.Read? && x.kbd.events == [] ==> Act(x, l, a).kbd.events == []
    ensures a.Read? && x.kbd.events != [] ==> x.kbd.events == [x.kbd.events[0]] + Act(x, l, a).kbd.events
  {
    hide StateInv, WfDevices, K.WfLayout, HandAll, Enabled, Edit;
  }

  // ---- The line ----

  lemma PressesFirst(e: K.Event, es: seq<K.Event>)
    ensures CommandLine.Presses([e] + es) == (if e.press then [e.code] else []) + CommandLine.Presses(es)
  {
    assert ([e] + es)[1..] == es;
  }

  lemma EditFirst(code: nat, codes: seq<nat>, line: Line, ended: bool)
    ensures EditAll(line, [code] + codes) == EditAll(Edit(line, code), codes)
    ensures CommandLine.Ended(ended, [code] + codes) == CommandLine.Ended(code == KC_ENTER, codes)
  {
    hide Edit;
    assert ([code] + codes)[1..] == codes;
  }

  /** Until it is flushed, the line is what the presses read make of it, and the flag says whether the last
      of them is Enter. */
  lemma {:induction false} RunLine(x: System, l: K.Layout, acts: seq<Action>)
    requires K.WfLayout(l) && WfSystem(x) && PossibleRun(x, l, acts) && Flush !in acts
    ensures ActAll(x, l, acts).line == EditAll(x.line, CommandLine.Presses(ReadAll(x, l, acts)))
    ensures ActAll(x, l, acts).ended == CommandLine.Ended(x.ended, CommandLine.Presses(ReadAll(x, l, acts)))
    decreases |acts|
  {
    hide WfSystem, K.WfLayout, Act, Possible, Edit, CommandLine.Presses;
    if acts == [] {
      NoPresses();
    } else {
      var y := Act(x, l, acts[0]);
      ReadStep(x, l, acts[0]);
      RunLine(y, l, acts[1..]);
      var rest := ReadAll(y, l, acts[1..]);
      if acts[0].Read? && x.kbd.events != [] {
        var e := x.kbd.events[0];
        PressesFirst(e, rest);
        EditFirst(e.code, CommandLine.Presses(rest), x.line, x.ended);
        assert [] + CommandLine.Presses(rest) == CommandLine.Presses(rest);
      } else {
        assert [] + rest == rest;
      }
    }
  }

  lemma NoPresses()
    ensures CommandLine.Presses([]) == []
  {
  }

  lemma ReadStep(x: System, l: K.Layout, a: Action)
    requires K.WfLayout(l) && WfSystem(x) && Possible(x, a) && !a.Flush?
    ensures Act(x, l, a).line ==
      if a.Read? && x.kbd.events != [] && x.kbd.events[0].press then Edit(x.line, x.kbd.events[0].code) else x.line
    ensures Act(x, l, a).ended ==
      if a.Read? && x.kbd.events != [] && x.kbd.events[0].press then x.kbd.events[0].code == KC_ENTER else x.ended
  {
    ActDriver(x, l, a);
    hide StateInv, WfDevices, K.WfLayout, HandAll, Enabled, Edit, Next;
  }

  // ---- End to end ----

  /** The path right after an open. */
  ghost function Opened(s: State, r: OpenRequest, devices: seq<KeyboardLayer.Device>, k: K.Kbd, line: Line): System
    requires StateInv(s)
  {
    System(Open(s, r).0, devices, k, line, false)
  }

  /** From an open on, over every interleaving of driver steps, completions, service calls and reads that
      does not close the pipe: the reports of the pipe handed to the keyboard layer, followed by the one
      that waits, are its good completions in order; the modifiers are those the reports handed over give;
      the line is what the presses read make of it; and the events read and queued are all those made, if
      and only if no service call found the queue too full. */
  lemma EndToEnd(s: State, r: OpenRequest, l: K.Layout, devices: seq<KeyboardLayer.Device>, k: K.Kbd, line: Line,
                 acts: seq<Action>)
    requires StateInv(s) && Open(s, r).1 != -1 && K.WfLayout(l) && WfDevices(devices) && |k.events| <= ROOM
    requires var x := Opened(s, r, devices, k, line);
      WfSystem(x) ==> PossibleRun(x, l, acts) && ClosePipe(Open(s, r).1) !in DriverSteps(acts)
    ensures var x := Opened(s, r, devices, k, line); var id := Open(s, r).1;
      && WfSystem(x) && PossibleRun(x, l, acts) && 0 <= id < MAX_PIPES && x.driver.pipes[id].inUse
      && var x' := ActAll(x, l, acts); var hs := HandedAll(x, l, acts);
      && x'.driver.pipes[id].inUse
      && Project(hs, id) + E.Outstanding(EndpointOf(x'.driver, id)) ==
           E.Completed(EndpointOf(x.driver, id), RunEvents(DriverSteps(acts), id))
      && LayerOf(x') == HeedAll(LayerOf(x), l, hs)
      && (ReadAll(x, l, acts) + x'.kbd.events == k.events + AllMade(LayerOf(x), l, hs) <==> NothingDropped(x, l, acts))
      && (Flush !in acts ==>
            var codes := CommandLine.Presses(ReadAll(x, l, acts));
            x'.line == EditAll(line, codes) && x'.ended == CommandLine.Ended(false, codes))
  {
    hide StateInv, Open, WfDevices, K.WfLayout, PossibleRun, ActAll, HandedAll, ReadAll, NothingDropped, EndpointOf;
    hide LegalRun, UhciRuns.Run, E.InStep, E.Outstanding, E.Completed, DriverSteps, HeedAll, AllMade, Project;
    hide EditAll, CommandLine.Presses, CommandLine.Ended, RunEvents;
    OpenedInStep(s, r);
    var x, id := Opened(s, r, devices, k, line), Open(s, r).1;
    StateCounts(x.driver);
    RunDriver(x, l, acts);
    DeliveredInEveryRun(s, r, DriverSteps(acts));
    RunHandsOver(x, l, acts, id);
    RunLayer(x, l, acts);
    EventsConservedExactly(x, l, acts);
    if Flush !in acts { RunLine(x, l, acts); }
  }

  // ---- One keyboard ----

  lemma HandedIndex(s: State, k: nat, i: nat)
    requires Shapes(s) && k < MAX_PIPES && i < MAX_PIPES && s.pipes[i].inUse
    ensures forall h :: h in HandedBy(s, k) && h.pipe == i ==> h.index == s.pipes[i].devIndex
  {
    hide Shapes, EndpointOf, IsGood;
  }

  lemma ServicePipeIndex(s: State, k: nat, i: nat)
    requires StateInv(s) && k < MAX_PIPES && i < MAX_PIPES && s.pipes[i].inUse
    ensures StateInv(ServicePipe(s, k)) && |ServicePipe(s, k).pipes| == MAX_PIPES
    ensures ServicePipe(s, k).pipes[i].inUse && ServicePipe(s, k).pipes[i].devIndex == s.pipes[i].devIndex
  {
    hide Resources.CoreInv, OwnersOf, EndpointOf, ServicePipe, BuildInToken, IsActive;
    ServicePipeEndpoint(s, k, i);
    EndpointPipe(s, i);
    EndpointPipe(ServicePipe(s, k), i);
    StateCounts(ServicePipe(s, k));
  }

  /** A pipe hands its reports to its own table entry. */
  lemma {:induction false} ServedIndex(s: State, k: nat, i: nat)
    requires StateInv(s) && k <= MAX_PIPES && i < MAX_PIPES && s.pipes[i].inUse
    ensures forall h :: h in ServedFrom(s, k) && h.pipe == i ==> h.index == s.pipes[i].devIndex
    decreases MAX_PIPES - k
  {
    hide Resources.CoreInv, OwnersOf, ServicePipe, HandedBy;
    if k < MAX_PIPES {
      ServicePipeIndex(s, k, i);
      HandedIndex(s, k, i);
      hide Shapes, StateInv;
      ServedIndex(ServicePipe(s, k), k + 1, i);
    }
  }

  lemma {:induction false} RunIndex(x: System, l: K.Layout, acts: seq<Action>, i: nat)
    requires K.WfLayout(l) && WfSystem(x) && PossibleRun(x, l, acts)
    requires i < MAX_PIPES && |x.driver.pipes| == MAX_PIPES && x.driver.pipes[i].inUse
    requires ClosePipe(i) !in DriverSteps(acts)
    ensures forall h :: h in HandedAll(x, l, acts) && h.pipe == i ==> h.index == x.driver.pipes[i].devIndex
    decreases |acts|
  {
    hide WfSystem, K.WfLayout, Act, Possible, Handed, DriverSteps;
    if acts != [] {
      StepsOf(acts);
      HandedOwn(x, acts[0], i);
      ActHandsOver(x, l, acts[0], i);
      RunIndex(Act(x, l, acts[0]), l, acts[1..], i);
    }
  }

  lemma HandedOwn(x: System, a: Action, i: nat)
    requires WfSystem(x) && i < MAX_PIPES && |x.driver.pipes| == MAX_PIPES && x.driver.pipes[i].inUse
    ensures forall h :: h in Handed(x, a) && h.pipe == i ==> h.index == x.driver.pipes[i].devIndex
  {
    hide StateInv, WfDevices, ServedFrom;
    ServedIndex(x.driver, 0, i);
  }

  lemma {:induction false} AllFromOne(hs: seq<Handover>, i: nat, d: nat)
    requires forall h :: h in hs ==> h.pipe == i && h.index == d
    ensures hs == LogOf(i, d, Project(hs, i))
  {
    if hs != [] {
      AllFromOne(hs[1..], i, d);
      assert hs[0] in hs && hs[0] == Handover(i, d, hs[0].data);
      assert LogOf(i, d, [hs[0].data] + Project(hs[1..], i)) == [hs[0]] + LogOf(i, d, Project(hs[1..], i));
    } else {
      assert LogOf(i, d, Project(hs, i)) == [];
    }
  }

  lemma OpenedIndex(s: State, r: OpenRequest)
    requires StateInv(s) && Open(s, r).1 != -1
    ensures 0 <= Open(s, r).1 < |Open(s, r).0.pipes|
    ensures Open(s, r).0.pipes[Open(s, r).1].devIndex == r.devIndex % 256
  {
    hide StateInv, Open, Acquire, OwnersOf, Obtained;
    OpenedBy(s, r);
  }

  /** When all the reports handed over come from this pipe, to a registered keyboard on an idle layer, then
      its completed reports alone determine what the user gets: over every interleaving the modifiers
      are exactly those of `Keyboard.ModifiersExact` for these reports, and once everything has been read
      and nothing was dropped, the line is what the stream of their presses makes of it. */
  lemma OneKeyboardTypes(s: State, r: OpenRequest, l: K.Layout, devices: seq<KeyboardLayer.Device>, line: Line,
                         acts: seq<Action>, p: M.Pair)
    requires StateInv(s) && Open(s, r).1 != -1 && K.WfLayout(l) && WfDevices(devices) && M.IsPair(p)
    requires var d := r.devIndex % 256;
      d < |devices| && devices[d].registered && devices[d].enabled && devices[d].last == H.EMPTY_REPORT
    requires var x := Opened(s, r, devices, IDLE, line);
      WfSystem(x) ==>
        && PossibleRun(x, l, acts) && ClosePipe(Open(s, r).1) !in DriverSteps(acts)
        && forall h :: h in HandedAll(x, l, acts) ==> h.pipe == Open(s, r).1
    ensures var x := Opened(s, r, devices, IDLE, line); var id := Open(s, r).1; var d := r.devIndex % 256;
      && WfSystem(x) && PossibleRun(x, l, acts) && 0 <= id < MAX_PIPES && x.driver.pipes[id].inUse
      && var x' := ActAll(x, l, acts); var done := Project(HandedAll(x, l, acts), id);
      && x'.driver.pipes[id].inUse
      && done + E.Outstanding(EndpointOf(x'.driver, id)) ==
           E.Completed(EndpointOf(x.driver, id), RunEvents(DriverSteps(acts), id))
      && var rs := ReportsOf(done); var m := K.LastReport(rs).mods;
      && M.Set(x'.kbd.mods, p.side) == M.Down(m, p.right)
      && M.Set(x'.kbd.mods, p.shared) == ((M.Down(m, p.left) || M.Down(m, p.right)) && !K.LiftedUnder(rs, p))
      && (NothingDropped(x, l, acts) && x'.kbd.events == [] && Flush !in acts ==>
            var codes := CommandLine.Presses(Stream(l, rs, devices[d].id));
            x'.line == EditAll(line, codes) && x'.ended == CommandLine.Ended(false, codes))
  {
    hide StateInv, Open, WfDevices, K.WfLayout, PossibleRun, ActAll, HandedAll, ReadAll, NothingDropped, EndpointOf;
    hide E.Outstanding, E.Completed, DriverSteps, HeedAll, AllMade, Project, RunEvents, M.Set, M.Down, M.IsPair;
    hide K.RunReports, K.LiftedUnder, Stream, EditAll, CommandLine.Presses, CommandLine.Ended;
    var x, id, d := Opened(s, r, devices, IDLE, line), Open(s, r).1, r.devIndex % 256;
    EndToEnd(s, r, l, devices, IDLE, line, acts);
    StateCounts(x.driver);
    OpenedIndex(s, r);
    RunIndex(x, l, acts, id);
    var hs := HandedAll(x, l, acts);
    AllFromOne(hs, id, d);
    OneKeyboard(l, devices, id, d, Project(hs, id));
    K.ZeroBits(p);
    K.ModifiersExact(IDLE, l, ReportsOf(Project(hs, id)), devices[d].id, p);
    EmptyEnds(ReadAll(x, l, acts), AllMade(LayerOf(x), l, hs));
  }

  lemma EmptyEnds(a: seq<K.Event>, b: seq<K.Event>)
    ensures a + [] == a && [] + b == b
  {
  }
}
