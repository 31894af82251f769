/**
 The ring between the keyboard interrupt and the shell. The interrupt pushes in one go; the
 reader tests for emptiness, copies the slot and advances its index in three steps that an
 interrupt may separate.
 */
module EventRing {

  const CAPACITY: nat := 256

  /** How far the reader is: not reading, past the emptiness test, or past the copy. */
  datatype Phase<T> = Idle | Tested | Copied(item: T)

  datatype Ring<T> = Ring(buf: seq<T>, head: nat, tail: nat, reader: Phase<T>)

  predicate Wf<T>(r: Ring<T>) {
    |r.buf| == CAPACITY && r.head < CAPACITY && r.tail < CAPACITY
  }

  /** The items between the two indices, oldest first. */
  function Contents<T>(r: Ring<T>): (q: seq<T>)
    requires Wf(r)
    ensures |q| == if r.tail <= r.head then r.head - r.tail else CAPACITY - r.tail + r.head
  {
    if r.tail <= r.head then r.buf[r.tail..r.head] else r.buf[r.tail..] + r.buf[..r.head]
  }

  function Following(i: nat): nat {
    (i + 1) % CAPACITY
  }

  // ---- Steps ----

  /** push_event: dropped when the head would reach the tail. */
  function Push<T>(r: Ring<T>, e: T): Ring<T>
    requires Wf(r)
  {
    if Following(r.head) != r.tail then r.(buf := r.buf[r.head := e], head := Following(r.head)) else r
  }

  function Test<T>(r: Ring<T>): Ring<T> {
    if r.head == r.tail then r else r.(reader := Tested)
  }

  function Copy<T>(r: Ring<T>): Ring<T>
    requires Wf(r)
  {
    r.(reader := Copied(r.buf[r.tail]))
  }

  function Advance<T>(r: Ring<T>): Ring<T> {
    r.(tail := Following(r.tail), reader := Idle)
  }

  lemma FollowingCases(i: nat)
    requires i < CAPACITY
    ensures Following(i) == if i + 1 < CAPACITY then i + 1 else 0
  {
  }

  /** Writing behind a slice extends it, and leaves slices elsewhere alone. */
  lemma WriteBehind<T>(s: seq<T>, i: nat, j: nat, e: T)
    requires i <= j < |s|
    ensures s[j := e][i..j + 1] == s[i..j] + [e]
    ensures forall k :: j < k <= |s| ==> s[j := e][k..] == s[k..]
  {
  }

  /** A push between the two indices. */
  lemma PushStraight<T>(r: Ring<T>, e: T)
    requires Wf(r) && r.tail <= r.head < CAPACITY - 1
    ensures Wf(Push(r, e)) && Contents(Push(r, e)) == Contents(r) + [e]
  {
    hide Following;
    FollowingCases(r.head);
    WriteBehind(r.buf, r.tail, r.head, e);
  }

  /** A push into the last slot. */
  lemma PushAtEnd<T>(r: Ring<T>, e: T)
    requires Wf(r) && 0 < r.tail <= r.head == CAPACITY - 1
    ensures Wf(Push(r, e)) && Contents(Push(r, e)) == Contents(r) + [e]
  {
    hide Following;
    FollowingCases(r.head);
    WriteBehind(r.buf, r.tail, r.head, e);
    var s := r.buf[r.head := e];
    assert s[r.tail..] == s[r.tail..r.head + 1] && s[..0] == [];
  }

  /** A push into the part before the tail. */
  lemma PushWrapped<T>(r: Ring<T>, e: T)
    requires Wf(r) && r.head + 1 < r.tail
    ensures Wf(Push(r, e)) && Contents(Push(r, e)) == Contents(r) + [e]
  {
    hide Following;
    FollowingCases(r.head);
    WriteBehind(r.buf, 0, r.head, e);
    var s := r.buf[r.head := e];
    assert s[..r.head + 1] == s[0..r.head + 1] && r.buf[..r.head] == r.buf[0..r.head];
    var a, b := r.buf[r.tail..], r.buf[..r.head];
    assert a + (b + [e]) == (a + b) + [e];
  }

  /** A push appends when there is room and is dropped when 255 items are waiting. */
  lemma PushContents<T>(r: Ring<T>, e: T)
    requires Wf(r)
    ensures Wf(Push(r, e))
    ensures Contents(Push(r, e)) == if |Contents(r)| < CAPACITY - 1 then Contents(r) + [e] else Contents(r)
  {
    hide Contents, Following;
    FollowingCases(r.head);
    if r.tail <= r.head < CAPACITY - 1 {
      PushStraight(r, e);
    } else if 0 < r.tail <= r.head {
      PushAtEnd(r, e);
    } else if r.head + 1 < r.tail {
      PushWrapped(r, e);
    }
  }

  /** Advancing drops the oldest item. */
  ghost predicate DropsOldest<T>(r: Ring<T>)
    requires Wf(r)
  {
    && Wf(Advance(r)) && Contents(r) != [] && Contents(r)[0] == r.buf[r.tail]
    && Contents(Advance(r)) == Contents(r)[1..]
  }

  lemma AdvanceContents<T>(r: Ring<T>)
    requires Wf(r) && r.head != r.tail
    ensures DropsOldest(r)
  {
    hide DropsOldest;
    if r.tail < r.head {
      AdvanceStraight(r);
    } else if r.tail + 1 < CAPACITY {
      AdvanceWrapped(r);
    } else {
      AdvanceOverEnd(r);
    }
  }

  lemma AdvanceStraight<T>(r: Ring<T>)
    requires Wf(r) && r.tail < r.head
    ensures DropsOldest(r)
  {
  }

  lemma AdvanceWrapped<T>(r: Ring<T>)
    requires Wf(r) && r.head < r.tail && r.tail + 1 < CAPACITY
    ensures DropsOldest(r)
  {
    assert (r.buf[r.tail..] + r.buf[..r.head])[1..] == r.buf[r.tail + 1..] + r.buf[..r.head];
  }

  lemma AdvanceOverEnd<T>(r: Ring<T>)
    requires Wf(r) && r.head < r.tail == CAPACITY - 1
    ensures DropsOldest(r)
  {
  }

  /** The phase of the reader is not part of the contents. */
  lemma PhaseContents<T>(r: Ring<T>, p: Phase<T>)
    requires Wf(r)
    ensures Wf(r.(reader := p)) && Contents(r.(reader := p)) == Contents(r)
  {
  }

  // ---- Interleavings ----

  datatype Step<T> = PushStep(item: T) | TestStep | CopyStep | AdvanceStep

  /** The ring with everything that was ever accepted and everything that was ever read. */
  datatype Log<T> = Log(ring: Ring<T>, accepted: seq<T>, read: seq<T>)

  /** The reader's steps come in order; a push may come at any time. */
  predicate Enabled<T>(r: Ring<T>, s: Step<T>) {
    match s
    case PushStep(_) => true
    case TestStep => r.reader.Idle?
    case CopyStep => r.reader.Tested?
    case AdvanceStep => r.reader.Copied?
  }

  function Next<T>(l: Log<T>, s: Step<T>): Log<T>
    requires Wf(l.ring) && Enabled(l.ring, s)
  {
    match s
    case PushStep(e) =>
      var accepted := if Following(l.ring.head) != l.ring.tail then l.accepted + [e] else l.accepted;
      Log(Push(l.ring, e), accepted, l.read)
    case TestStep => l.(ring := Test(l.ring))
    case CopyStep => l.(ring := Copy(l.ring))
    case AdvanceStep => Log(Advance(l.ring), l.accepted, l.read + [l.ring.reader.item])
  }

  /** What was accepted is what was read followed by what is waiting; a reader past its test has
      something to read, and what it copied is still the oldest item. */
  ghost predicate Consistent<T>(l: Log<T>) {
    && Wf(l.ring)
    && l.accepted == l.read + Contents(l.ring)
    && (!l.ring.reader.Idle? ==> l.ring.head != l.ring.tail)
    && (l.ring.reader.Copied? ==> l.ring.reader.item == l.ring.buf[l.ring.tail])
  }

  lemma NextConsistent<T>(l: Log<T>, s: Step<T>)
    requires Consistent(l) && Enabled(l.ring, s)
    ensures Consistent(Next(l, s))
  {
    hide Contents;
    match s {
      case PushStep(e) => PushContents(l.ring, e);
      case TestStep => PhaseContents(l.ring, Tested);
      case CopyStep => PhaseContents(l.ring, Copied(l.ring.buf[l.ring.tail]));
      case AdvanceStep => AdvanceContents(l.ring);
    }
  }

  ghost predicate LegalRun<T>(l: Log<T>, steps: seq<Step<T>>)
    requires Consistent(l)
    decreases |steps|
  {
    steps == [] ||
    (Enabled(l.ring, steps[0]) && (NextConsistent(l, steps[0]); LegalRun(Next(l, steps[0]), steps[1..])))
  }

  ghost function Run<T>(l: Log<T>, steps: seq<Step<T>>): (r: Log<T>)
    requires Consistent(l) && LegalRun(l, steps)
    ensures Consistent(r)
    decreases |steps|
  {
    if steps == [] then l
    else
      NextConsistent(l, steps[0]);
      Run(Next(l, steps[0]), steps[1..])
  }

  // ---- The queue it refines ----

  /** A first-in first-out queue of 255 items that drops what does not fit. */
  function QueueNext<T>(q: seq<T>, s: Step<T>): seq<T> {
    match s
    case PushStep(e) => if |q| < CAPACITY - 1 then q + [e] else q
    case AdvanceStep => if q == [] then q else q[1..]
    case _ => q
  }

  function QueueRun<T>(q: seq<T>, steps: seq<Step<T>>): seq<T>
    decreases |steps|
  {
    if steps == [] then q else QueueRun(QueueNext(q, steps[0]), steps[1..])
  }

  /** What the queue hands out in one step. */
  function QueueRead<T>(q: seq<T>, s: Step<T>): seq<T> {
    if s.AdvanceStep? && q != [] then [q[0]] else []
  }

  /** The items a queue hands out. */
  function QueueReads<T>(q: seq<T>, steps: seq<Step<T>>): seq<T>
    decreases |steps|
  {
    if steps == [] then []
    else QueueRead(q, steps[0]) + QueueReads(QueueNext(q, steps[0]), steps[1..])
  }

  lemma NextRefines<T>(l: Log<T>, s: Step<T>)
    requires Consistent(l) && Enabled(l.ring, s)
    ensures Wf(Next(l, s).ring) && Contents(Next(l, s).ring) == QueueNext(Contents(l.ring), s)
    ensures Wf(l.ring) && Next(l, s).read == l.read + QueueRead(Contents(l.ring), s)
  {
    hide Contents;
    match s {
      case PushStep(e) => PushContents(l.ring, e);
      case TestStep => PhaseContents(l.ring, Tested);
      case CopyStep => PhaseContents(l.ring, Copied(l.ring.buf[l.ring.tail]));
      case AdvanceStep => AdvanceContents(l.ring);
    }
  }

  /** A run unfolded by its first step. */
  lemma RunStep<T>(l: Log<T>, steps: seq<Step<T>>)
    requires Consistent(l) && LegalRun(l, steps) && steps != []
    ensures Wf(l.ring) && Enabled(l.ring, steps[0]) && Consistent(Next(l, steps[0]))
    ensures LegalRun(Next(l, steps[0]), steps[1..]) && Run(l, steps) == Run(Next(l, steps[0]), steps[1..])
  {
    hide Contents, Next, Enabled;
    NextConsistent(l, steps[0]);
  }

  /** Refinement: over every interleaving the ring holds what the queue holds, and the reader gets
      what the queue hands out, in order. */
  lemma {:induction false} RingRefinesQueue<T>(l: Log<T>, steps: seq<Step<T>>)
    requires Consistent(l) && LegalRun(l, steps)
    ensures Contents(Run(l, steps).ring) == QueueRun(Contents(l.ring), steps)
    ensures Run(l, steps).read == l.read + QueueReads(Contents(l.ring), steps)
    decreases |steps|
  {
    hide Next, Consistent, Contents, Wf, Enabled, QueueNext, QueueRead, LegalRun;
    if steps == [] {
      assert l.read + [] == l.read;
    } else {
      RunStep(l, steps);
      NextRefines(l, steps[0]);
      var l1, q, rest := Next(l, steps[0]), Contents(l.ring), steps[1..];
      RingRefinesQueue(l1, rest);
      hide Run;
      calc {
        Run(l, steps).read;
        l1.read + QueueReads(QueueNext(q, steps[0]), rest);
        (l.read + QueueRead(q, steps[0])) + QueueReads(QueueNext(q, steps[0]), rest);
        l.read + (QueueRead(q, steps[0]) + QueueReads(QueueNext(q, steps[0]), rest));
        l.read + QueueReads(q, steps);
      }
    }
  }

  /** No loss, duplication, reordering or overwriting: over every interleaving, the items read are
      a prefix of the items accepted, and the rest of those is still waiting. */
  lemma ReadsArePrefix<T>(l: Log<T>, steps: seq<Step<T>>)
    requires Consistent(l) && LegalRun(l, steps)
    ensures Run(l, steps).read <= Run(l, steps).accepted
    ensures |Run(l, steps).accepted| - |Run(l, steps).read| == |Contents(Run(l, steps).ring)| < CAPACITY
  {
  }

  // ---- The ring in memory ----

  class Buffer<T(0)> {
    const slots: array<T>
    var head: nat
    var tail: nat

    ghost predicate Valid()
      reads this
    {
      slots.Length == CAPACITY && head < CAPACITY && tail < CAPACITY
    }

    ghost function View(): Ring<T>
      reads this, slots
    {
      Ring(slots[..], head, tail, Idle)
    }

    constructor ()
      ensures Valid() && Contents(View()) == [] && fresh(slots)
    {
      slots := new T[CAPACITY];
      head, tail := 0, 0;
    }

    /** push_event and push_ascii */
    method Put(e: T)
      requires Valid()
      modifies this`head, slots
      ensures Valid() && View() == Push(old(View()), e)
      ensures Contents(View()) ==
        if |old(Contents(View()))| < CAPACITY - 1 then old(Contents(View())) + [e] else old(Contents(View()))
    {
      PushContents(View(), e);
      hide Contents;
      var n := (head + 1) % CAPACITY;
      if n != tail {
        slots[head] := e;
        head := n;
      }
    }

    /** kbd_read_event and kbd_read_char: test, copy, advance. */
    method Take() returns (ok: bool, e: T)
      requires Valid()
      modifies this`tail
      ensures Valid()
      ensures !ok ==> old(Contents(View())) == [] && View() == old(View())
      ensures ok ==> old(Contents(View())) != [] && e == old(Contents(View()))[0]
      ensures ok ==> View() == Advance(Copy(Test(old(View())))) && Contents(View()) == old(Contents(View()))[1..]
    {
      if head == tail {
        ok, e := false, slots[tail];
        return;
      }
      AdvanceContents(View());
      hide Contents;
      ok, e := true, slots[tail];
      tail := (tail + 1) % CAPACITY;
    }
  }
}
