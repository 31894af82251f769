/**
 The UHCI frame list: 1024 link words, one per frame (UHCI Design Guide 1.1, section 3.1).
 A periodic queue head is written into every slot of a stride walk, and the same walk
 later terminates those slots again.
 */
module FrameList {
  import opened Stride

  const FRAMES: nat := 1024

  /** The list after `word` has been written to every slot the walk owns. */
  function Filled(slots: seq<nat>, first: nat, interval: nat, word: nat): (r: seq<nat>)
    requires |slots| == FRAMES
    ensures |r| == FRAMES
    ensures forall s :: 0 <= s < FRAMES ==>
      r[s] == if Owns(first, interval, FRAMES, s) then word else slots[s]
  {
    seq(FRAMES, s requires 0 <= s < FRAMES =>
      if Owns(first, interval, FRAMES, s) then word else slots[s])
  }

  /** The slots of the first `k` strides, in the order in which they are written. */
  ghost function Walk(first: nat, interval: nat, k: nat): (w: seq<nat>)
    ensures |w| == k
    ensures forall i :: 0 <= i < k ==> w[i] == Slot(first, interval, FRAMES, i)
  {
    seq(k, i requires 0 <= i => Slot(first, interval, FRAMES, i))
  }

  ghost predicate Distinct(w: seq<nat>) {
    forall i, j :: 0 <= i < j < |w| ==> w[i] != w[j]
  }

  /** One whole walk meets every owned slot and no other, each exactly once. */
  lemma FullWalk(first: nat, interval: nat)
    ensures Period(interval, FRAMES) > 0
    ensures Distinct(Walk(first, interval, Period(interval, FRAMES)))
    ensures forall s: nat ::
      s in Walk(first, interval, Period(interval, FRAMES)) <==> s < FRAMES && Owns(first, interval, FRAMES, s)
  {
    var p := Period(interval, FRAMES);
    var w := Walk(first, interval, p);
    var g, c, q, x, y := Decompose(interval, FRAMES);
    forall i, j | 0 <= i < j < p ensures w[i] != w[j] {
      SlotsDistinct(first, interval, FRAMES, i, j);
    }
    forall s: nat ensures s in w <==> s < FRAMES && Owns(first, interval, FRAMES, s) {
      if s in w {
        var i :| 0 <= i < p && w[i] == s;
        SlotOwned(first, interval, FRAMES, i);
      }
      if s < FRAMES && Owns(first, interval, FRAMES, s) {
        var k := OwnedReached(first, interval, FRAMES, s);
        assert w[k] == s;
      }
    }
  }

  /** In every window of `interval` consecutive frames, also across the wrap from slot 1023 to
      slot 0, the filled list offers `word` to the controller. */
  lemma PolledInEveryWindow(slots: seq<nat>, first: nat, interval: nat, word: nat, w: nat) returns (j: nat)
    requires |slots| == FRAMES && interval > 0
    ensures j < interval && Filled(slots, first, interval, word)[(w + j) % FRAMES] == word
  {
    j := WindowHit(first, interval, FRAMES, w);
  }

  /** The stride loop shared by scheduling and closing: it stops when the next slot would be
      the first one again. A zero interval writes nothing. */
  method WriteEvery(frames: array<nat>, first: nat, interval: nat, word: nat)
    returns (ghost visited: seq<nat>)
    requires frames.Length == FRAMES && first < FRAMES
    modifies frames
    ensures interval == 0 ==> frames[..] == old(frames[..]) && visited == []
    ensures interval > 0 ==> frames[..] == Filled(old(frames[..]), first, interval, word)
    ensures interval > 0 ==> |visited| == FRAMES / Gcd(interval, FRAMES) && Distinct(visited)
    ensures interval > 0 ==> forall s: nat :: s in visited <==> s < FRAMES && Owns(first, interval, FRAMES, s)
  {
    visited := [];
    if interval == 0 { return; }
    var f := first;
    ghost var k := 0;
    FullWalk(first, interval);
    SmallRemainder(first, FRAMES);
    ghost var was := frames[..];
    while f < FRAMES
      invariant 0 <= k < Period(interval, FRAMES)
      invariant f == Slot(first, interval, FRAMES, k)
      invariant visited == Walk(first, interval, k)
      invariant forall s :: 0 <= s < FRAMES ==> frames[s] == if s in visited then word else was[s]
      decreases Period(interval, FRAMES) - k
    {
      frames[f] := word;
      visited := visited + [f];
      k := k + 1;
      NextSlot(first, interval, FRAMES, k - 1);
      BackAtStart(first, interval, FRAMES, k);
      if (f + interval) % FRAMES == first { break; }
      f := (f + interval) % FRAMES;
    }
    assert k == Period(interval, FRAMES);
    assert frames[..] == Filled(was, first, interval, word);
  }
}
