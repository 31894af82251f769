/**
 The configuration-blob parser: two walks over a concatenation of USB descriptors (USB 2.0,
 section 9.6), proved against a choice stated on the list of descriptors.
 */
module ConfigBlob {

  type Byte = x: nat | x < 256
  type Bytes = seq<Byte>

  const TYPE_INTERFACE: Byte := 0x04
  const TYPE_ENDPOINT: Byte := 0x05
  const CONFIG_SIZE: nat := 9
  const INTERFACE_SIZE: nat := 9
  const ENDPOINT_SIZE: nat := 7

  // ---- Descriptors ----

  /** What the parser reads of a record of this type. */
  function StructSize(kind: Byte): nat {
    if kind == TYPE_INTERFACE then INTERFACE_SIZE else if kind == TYPE_ENDPOINT then ENDPOINT_SIZE else 2
  }

  /** All that the parser reads of the record is there. */
  predicate Readable(d: Bytes) {
    |d| >= 2 && |d| >= StructSize(d[1])
  }

  ghost predicate AllReadable(ds: seq<Bytes>) {
    forall i :: 0 <= i < |ds| ==> Readable(ds[i])
  }

  /** A descriptor states its own length, which is at least that of its structure. */
  ghost predicate WfDescriptor(d: Bytes) {
    Readable(d) && |d| < 256 && Length(d) == |d|
  }

  ghost predicate WfList(ds: seq<Bytes>) {
    forall i :: 0 <= i < |ds| ==> WfDescriptor(ds[i])
  }

  /** The length byte of the record at the front. */
  function Length(b: Bytes): nat
    requires b != []
  {
    b[0]
  }

  predicate IsInterface(d: Bytes) {
    |d| >= INTERFACE_SIZE && d[1] == TYPE_INTERFACE
  }

  /** HID class, boot subclass, keyboard protocol. */
  predicate IsKeyboard(d: Bytes) {
    IsInterface(d) && d[5] == 0x03 && d[6] == 0x01 && d[7] == 0x01
  }

  /** Interrupt endpoint (both low attribute bits set) with direction IN (bit 7 of the address). */
  predicate IsInterruptIn(d: Bytes) {
    |d| >= ENDPOINT_SIZE && d[1] == TYPE_ENDPOINT && d[3] % 4 == 3 && d[2] >= 0x80
  }

  /** Same interface number and alternate setting. */
  predicate SameSetting(d: Bytes, e: Bytes) {
    |d| >= INTERFACE_SIZE && |e| >= INTERFACE_SIZE && d[2] == e[2] && d[3] == e[3]
  }

  // ---- The list in a blob ----

  function Concat(ds: seq<Bytes>): Bytes {
    if ds == [] then [] else ds[0] + Concat(ds[1..])
  }

  function Max(a: nat, b: nat): nat {
    if a < b then b else a
  }

  /** The record at the front of the buffer: its own length, or as much as the parser reads of it when it
      claims to be shorter than its structure. */
  function Record(b: Bytes): Bytes
    requires |b| >= 2
  {
    if Max(Length(b), StructSize(b[1])) <= |b| then b[..Max(Length(b), StructSize(b[1]))] else b
  }

  /** The records a walk over the first `total` bytes meets: it stops at a zero length, at a record that
      would pass the end, and when fewer than two bytes are left. */
  function Split(b: Bytes, total: nat): seq<Bytes>
    requires total <= |b|
    decreases total
  {
    if total < 2 || Length(b) == 0 || Length(b) > total then []
    else [Record(b)] + Split(b[Length(b)..], total - Length(b))
  }

  lemma SplitFirst(d: Bytes, rest: Bytes, n: nat)
    requires WfDescriptor(d) && n <= |rest|
    ensures Split(d + rest, |d| + n) == [d] + Split(rest, n)
  {
    var b := d + rest;
    assert b[0] == d[0] && b[1] == d[1];
    assert b[..|d|] == d && b[|d|..] == rest;
  }

  /** Walking the concatenation of a well-formed list meets exactly that list, whatever follows it in
      the buffer. */
  lemma {:induction false} SplitConcat(ds: seq<Bytes>, tail: Bytes)
    requires WfList(ds)
    ensures Split(Concat(ds) + tail, |Concat(ds)|) == ds
  {
    hide Split, WfDescriptor;
    if ds == [] {
      SplitNothing(tail);
    } else {
      var rest := Concat(ds[1..]);
      assert Concat(ds) + tail == ds[0] + (rest + tail);
      assert WfDescriptor(ds[0]);
      SplitFirst(ds[0], rest + tail, |rest|);
      SplitConcat(ds[1..], tail);
    }
  }

  lemma SplitNothing(b: Bytes)
    ensures Split([] + b, 0) == []
  {
  }

  // ---- The choice, stated on the list ----

  /** `i` is the interface to use: the last boot keyboard if there is one, otherwise the first
      interface. */
  ghost predicate Chosen(ds: seq<Bytes>, i: nat) {
    && i < |ds| && IsInterface(ds[i])
    && (IsKeyboard(ds[i]) ==> forall j :: i < j < |ds| ==> !IsKeyboard(ds[j]))
    && (!IsKeyboard(ds[i]) ==>
          && (forall j :: 0 <= j < |ds| ==> !IsKeyboard(ds[j]))
          && (forall j :: 0 <= j < i ==> !IsInterface(ds[j])))
  }

  /** The interface descriptor nearest before position `e`, if any, has the setting of `d`. */
  ghost predicate InBlock(ds: seq<Bytes>, e: nat, d: Bytes) {
    exists k :: 0 <= k < e && k < |ds| && IsInterface(ds[k]) && SameSetting(ds[k], d)
      && forall j :: k < j < e && j < |ds| ==> !IsInterface(ds[j])
  }

  ghost predicate Candidate(ds: seq<Bytes>, e: nat, d: Bytes) {
    e < |ds| && IsInterruptIn(ds[e]) && InBlock(ds, e, d)
  }

  /** `e` is the endpoint to use: the first interrupt-IN endpoint in a block with the setting of
      the chosen interface. */
  ghost predicate ChosenEndpoint(ds: seq<Bytes>, e: nat, d: Bytes) {
    Candidate(ds, e, d) && forall j :: 0 <= j < e ==> !Candidate(ds, j, d)
  }

  /** The choice is unique. */
  lemma ChoiceUnique(ds: seq<Bytes>, i: nat, j: nat)
    requires Chosen(ds, i) && Chosen(ds, j)
    ensures i == j
  {
  }

  lemma BlockStep(ds: seq<Bytes>, k: nat, d: Bytes)
    requires k < |ds|
    ensures InBlock(ds, k + 1, d) <==> if IsInterface(ds[k]) then SameSetting(ds[k], d) else InBlock(ds, k, d)
  {
  }

  // ---- The walk ----

  /** Offset `off` of the blob is where record `k` starts. */
  ghost predicate WalkAt(b: Bytes, total: nat, ds: seq<Bytes>, off: nat, k: nat) {
    off <= total <= |b| && k <= |ds| && Split(b[off..], total - off) == ds[k..]
  }

  /** The record at the walk's position, and the position after it. */
  lemma WalkRecord(b: Bytes, total: nat, ds: seq<Bytes>, off: nat, k: nat)
    requires WalkAt(b, total, ds, off, k) && AllReadable(ds)
    ensures total <= |b| && k <= |ds|
    ensures off + 2 > total || b[off] == 0 || off + b[off] > total <==> k == |ds|
    ensures k < |ds| ==>
      && ds[k] == Record(b[off..]) && Readable(ds[k]) && WalkAt(b, total, ds, off + b[off], k + 1)
  {
    hide Record;
    if k < |ds| {
      var c := b[off..];
      assert ds[k..][0] == ds[k] && ds[k..][1..] == ds[k + 1..];
      assert c[Length(c)..] == b[off + b[off]..];
    }
  }

  lemma WalkStart(b: Bytes, total: nat)
    requires total <= |b|
    ensures WalkAt(b, total, Split(b, total), 0, 0)
  {
    assert b[0..] == b;
  }

  lemma SurveyStart(ds: seq<Bytes>)
    ensures Surveyed(ds, 0, false, 0, [], false, 0, [])
  {
  }

  lemma BlockStart(ds: seq<Bytes>, d: Bytes)
    ensures !InBlock(ds, 0, d)
  {
  }

  class Device {
    var config: Bytes        // config_descriptor
    var interface: Bytes     // interface_descriptor
    var endpoint: Bytes      // endpoint_descriptors[0]

    constructor ()
    {
      config, interface, endpoint := [], [], [];
    }
  }

  /** What pass 1 knows after `k` records: `fi` is the first interface, `bi` the last keyboard. */
  ghost predicate Surveyed(ds: seq<Bytes>, k: nat, have: bool, fi: nat, first: Bytes,
                           chose: bool, bi: nat, best: Bytes)
  {
    && k <= |ds|
    && (!have ==> forall j :: 0 <= j < k ==> !IsInterface(ds[j]))
    && (have ==> fi < k && IsInterface(ds[fi]) && first == ds[fi][..INTERFACE_SIZE])
    && (have ==> forall j :: 0 <= j < fi ==> !IsInterface(ds[j]))
    && (!chose ==> forall j :: 0 <= j < k ==> !IsKeyboard(ds[j]))
    && (chose ==> have && bi < k && IsKeyboard(ds[bi]) && best == ds[bi][..INTERFACE_SIZE])
    && (chose ==> forall j :: bi < j < k ==> !IsKeyboard(ds[j]))
  }

  lemma SurveyStep(ds: seq<Bytes>, k: nat, have: bool, fi: nat, first: Bytes, chose: bool, bi: nat, best: Bytes)
    requires Surveyed(ds, k, have, fi, first, chose, bi, best) && k < |ds|
    ensures !IsInterface(ds[k]) ==> Surveyed(ds, k + 1, have, fi, first, chose, bi, best)
    ensures IsInterface(ds[k]) ==>
      var id := ds[k][..INTERFACE_SIZE];
      Surveyed(ds, k + 1, true, if have then fi else k, if have then first else id,
               chose || IsKeyboard(ds[k]), if IsKeyboard(ds[k]) then k else bi, if IsKeyboard(ds[k]) then id else best)
  {
  }

  ghost predicate HasInterface(ds: seq<Bytes>) {
    exists i :: 0 <= i < |ds| && IsInterface(ds[i])
  }

  lemma SurveyDone(ds: seq<Bytes>, have: bool, fi: nat, first: Bytes, chose: bool, bi: nat, best: Bytes)
    requires Surveyed(ds, |ds|, have, fi, first, chose, bi, best)
    ensures have <==> HasInterface(ds)
    ensures have && chose ==> Chosen(ds, bi)
    ensures have && !chose ==> Chosen(ds, fi)
  {
  }

  /** Pass 1: remember the first interface and the last boot keyboard. */
  method PickInterface(buf: array<Byte>, total: nat) returns (have: bool, best: Bytes)
    requires total <= buf.Length && AllReadable(Split(buf[..], total))
    ensures have <==> HasInterface(Split(buf[..], total))
    ensures have ==> exists i: nat ::
      Chosen(Split(buf[..], total), i) && best == Split(buf[..], total)[i][..INTERFACE_SIZE]
    ensures have ==> |best| == INTERFACE_SIZE
  {
    hide WalkAt, Split, Surveyed, Record, Readable, IsInterface, IsKeyboard, Chosen;
    ghost var b, ds := buf[..], Split(buf[..], total);
    WalkStart(b, total);
    WalkRecord(b, total, ds, 0, 0);
    var off, choseKeyboard := 0, false;
    var first: Bytes;
    have, first, best := false, [], [];
    ghost var k, fi, bi := 0, 0, 0;
    SurveyStart(ds);
    while off + 2 <= total
      invariant WalkAt(b, total, ds, off, k) && Surveyed(ds, k, have, fi, first, choseKeyboard, bi, best)
      invariant off + 2 > total ==> k == |ds|
      decreases total - off
    {
      WalkRecord(b, total, ds, off, k);
      var len, kind := buf[off], buf[off + 1];
      if len == 0 || off + len > total { break; }
      SurveyStep(ds, k, have, fi, first, choseKeyboard, bi, best);
      RecordFields(b, ds[k], off);
      if kind == TYPE_INTERFACE {
        var id := buf[off..off + INTERFACE_SIZE];
        assert id == b[off..off + INTERFACE_SIZE];
        if !have {
          first, have, fi := id, true, k;
        }
        if id[5] == 0x03 && id[6] == 0x01 && id[7] == 0x01 {
          best, choseKeyboard, bi := id, true, k;
        }
      }
      off := off + len;
      k := k + 1;
      if off + 2 > total { WalkRecord(b, total, ds, off, k); }
    }
    if off + 2 <= total { WalkRecord(b, total, ds, off, k); }
    assert k == |ds|;
    SurveyDone(ds, have, fi, first, choseKeyboard, bi, best);
    SurveyValues(ds, have, fi, first, choseKeyboard, bi, best);
    if have && !choseKeyboard {
      best := first;
    }
  }

  lemma SurveyValues(ds: seq<Bytes>, have: bool, fi: nat, first: Bytes, chose: bool, bi: nat, best: Bytes)
    requires Surveyed(ds, |ds|, have, fi, first, chose, bi, best)
    ensures chose ==> have && bi < |ds| && |ds[bi]| >= INTERFACE_SIZE && best == ds[bi][..INTERFACE_SIZE]
    ensures have ==> fi < |ds| && |ds[fi]| >= INTERFACE_SIZE && first == ds[fi][..INTERFACE_SIZE]
  {
  }

  /** The fields of the record at offset `off`, read from the blob. */
  lemma RecordFields(b: Bytes, d: Bytes, off: nat)
    requires off + 2 <= |b| && d == Record(b[off..]) && Readable(d)
    ensures d[1] == b[off + 1] && (d[1] == TYPE_INTERFACE <==> IsInterface(d))
    ensures IsInterface(d) ==> off + INTERFACE_SIZE <= |b| && d[..INTERFACE_SIZE] == b[off..off + INTERFACE_SIZE]
    ensures IsInterface(d) ==> (IsKeyboard(d) <==> b[off + 5] == 0x03 && b[off + 6] == 0x01 && b[off + 7] == 0x01)
    ensures d[1] == TYPE_ENDPOINT ==> off + ENDPOINT_SIZE <= |b| && d[..ENDPOINT_SIZE] == b[off..off + ENDPOINT_SIZE]
    ensures IsInterruptIn(d) <==> d[1] == TYPE_ENDPOINT && b[off + 3] % 4 == 3 && b[off + 2] >= 0x80
    ensures IsInterface(d) ==> forall e: Bytes :: |e| == INTERFACE_SIZE ==>
      (SameSetting(d, e) <==> b[off + 2] == e[2] && b[off + 3] == e[3])
  {
    RecordBytes(b, d, off);
    hide Record;
  }

  lemma RecordBytes(b: Bytes, d: Bytes, off: nat)
    requires off + 2 <= |b| && d == Record(b[off..])
    ensures |d| >= 2 && off + |d| <= |b| && d == b[off..off + |d|] && forall i :: 0 <= i < |d| ==> d[i] == b[off + i]
  {
  }

  /** No candidate among the first `k` records. */
  ghost predicate NoneBefore(ds: seq<Bytes>, k: nat, d: Bytes) {
    forall j: nat :: j < k ==> !Candidate(ds, j, d)
  }

  /** Record `k` is a candidate exactly when it is an interrupt-IN endpoint inside a block. */
  lemma CandidateStep(ds: seq<Bytes>, k: nat, d: Bytes)
    requires NoneBefore(ds, k, d) && k < |ds|
    ensures Candidate(ds, k, d) <==> IsInterruptIn(ds[k]) && InBlock(ds, k, d)
    ensures Candidate(ds, k, d) ==> ChosenEndpoint(ds, k, d)
    ensures !Candidate(ds, k, d) ==> NoneBefore(ds, k + 1, d)
  {
    hide IsInterruptIn, InBlock;
  }

  lemma NoneStart(ds: seq<Bytes>, d: Bytes)
    ensures NoneBefore(ds, 0, d)
  {
  }

  lemma NoneAtAll(ds: seq<Bytes>, d: Bytes)
    requires NoneBefore(ds, |ds|, d)
    ensures !exists e: nat :: Candidate(ds, e, d)
  {
    hide IsInterruptIn, InBlock;
  }

  /** The endpoint found is the one to choose. */
  ghost predicate FoundAt(ds: seq<Bytes>, e: nat, d: Bytes, ep: Bytes) {
    ChosenEndpoint(ds, e, d) && ep == ds[e][..ENDPOINT_SIZE]
  }

  lemma FoundEndpoint(ds: seq<Bytes>, e: nat, d: Bytes, ep: Bytes)
    requires FoundAt(ds, e, d, ep)
    ensures exists i: nat :: Candidate(ds, i, d)
    ensures exists i: nat :: FoundAt(ds, i, d, ep)
  {
    hide InBlock, IsInterruptIn;
    assert Candidate(ds, e, d);
  }

  /** Pass 2: the first interrupt-IN endpoint in a block with the chosen setting. */
  method FindEndpoint(buf: array<Byte>, total: nat, iface: Bytes) returns (found: bool, ep: Bytes)
    requires total <= buf.Length && AllReadable(Split(buf[..], total)) && |iface| == INTERFACE_SIZE
    ensures found <==> exists e: nat :: Candidate(Split(buf[..], total), e, iface)
    ensures found ==> exists e: nat :: FoundAt(Split(buf[..], total), e, iface, ep)
  {
    hide WalkAt, Split, Record, Readable, InBlock, SameSetting, IsInterface, IsInterruptIn, Candidate, NoneBefore;
    ghost var b, ds := buf[..], Split(buf[..], total);
    WalkStart(b, total);
    WalkRecord(b, total, ds, 0, 0);
    var off, inBlock := 0, false;
    found, ep := false, [];
    ghost var k: nat := 0;
    BlockStart(ds, iface);
    NoneStart(ds, iface);
    while off + 2 <= total
      invariant WalkAt(b, total, ds, off, k) && k <= |ds| && (off + 2 > total ==> k == |ds|)
      invariant inBlock <==> InBlock(ds, k, iface)
      invariant NoneBefore(ds, k, iface)
      decreases total - off
    {
      WalkRecord(b, total, ds, off, k);
      var len, kind := buf[off], buf[off + 1];
      if len == 0 || off + len > total { break; }
      BlockStep(ds, k, iface);
      CandidateStep(ds, k, iface);
      RecordFields(b, ds[k], off);
      if kind == TYPE_INTERFACE {
        inBlock := buf[off + 2] == iface[2] && buf[off + 3] == iface[3];
      } else if kind == TYPE_ENDPOINT && inBlock {
        if buf[off + 3] % 4 == 3 && buf[off + 2] >= 0x80 {
          ep, found := buf[off..off + ENDPOINT_SIZE], true;
          assert ep == b[off..off + ENDPOINT_SIZE];
          FoundEndpoint(ds, k, iface, ep);
          return;
        }
      }
      off := off + len;
      k := k + 1;
      if off + 2 > total { WalkRecord(b, total, ds, off, k); }
    }
    if off + 2 <= total { WalkRecord(b, total, ds, off, k); }
    NoneAtAll(ds, iface);
  }

  /** Both an interface and an endpoint can be chosen, and the device record holds them. */
  ghost predicate Accepted(ds: seq<Bytes>, iface: Bytes, ep: Bytes) {
    exists i: nat, e: nat ::
      && Chosen(ds, i) && iface == ds[i][..INTERFACE_SIZE]
      && ChosenEndpoint(ds, e, iface) && ep == ds[e][..ENDPOINT_SIZE]
  }

  /** What a parse of the list reports and records: 1 exactly when an interface and an endpoint can
      be chosen, and then the record holds them; the interface is recorded whenever there is one. */
  ghost predicate Parsed(ds: seq<Bytes>, r: int, iface: Bytes, ep: Bytes, iface0: Bytes, ep0: Bytes) {
    && (r == 0 || r == 1)
    && (r == 1 <==> exists i: nat, e: nat :: Chosen(ds, i) && Candidate(ds, e, ds[i][..INTERFACE_SIZE]))
    && (r == 1 ==> Accepted(ds, iface, ep))
    && (r == 0 ==> ep == ep0)
    && ((exists i: nat :: Chosen(ds, i)) ==> exists i: nat :: Chosen(ds, i) && iface == ds[i][..INTERFACE_SIZE])
    && (!(exists i: nat :: Chosen(ds, i)) ==> iface == iface0)
  }

  /** usb_parse_config_blob_into_device. A blob shorter than a configuration descriptor changes
      nothing. */
  method ParseConfigBlob(buf: array?<Byte>, total: nat, dev: Device?) returns (r: int)
    requires buf != null ==> total <= buf.Length && AllReadable(Split(buf[..], total))
    modifies dev
    ensures buf == null || dev == null || total < CONFIG_SIZE ==> r == 0 && (dev != null ==> unchanged(dev))
    ensures buf != null && dev != null && total >= CONFIG_SIZE ==>
      && dev.config == buf[..CONFIG_SIZE]
      && Parsed(Split(buf[..], total), r, dev.interface, dev.endpoint, old(dev.interface), old(dev.endpoint))
  {
    hide Parsed, Chosen, Candidate, FoundAt, Split, AllReadable, HasInterface;
    if buf == null || dev == null { return 0; }
    if total < CONFIG_SIZE { return 0; }
    ghost var b, ds := buf[..], Split(buf[..], total);
    dev.config := buf[..CONFIG_SIZE];
    var have, best := PickInterface(buf, total);
    if !have {
      NothingToChoose(ds, dev.interface, dev.endpoint);
      return 0;
    }
    dev.interface := best;
    var found, ep := FindEndpoint(buf, total, best);
    assert buf[..] == b;
    Decided(ds, best, found, ep, old(dev.interface), old(dev.endpoint));
    if !found { return 0; }
    dev.endpoint := ep;
    return 1;
  }

  lemma NothingToChoose(ds: seq<Bytes>, iface0: Bytes, ep0: Bytes)
    requires !HasInterface(ds)
    ensures Parsed(ds, 0, iface0, ep0, iface0, ep0)
  {
    forall i: nat ensures !Chosen(ds, i) {
    }
  }

  /** What the two passes find decides the parse. */
  lemma Decided(ds: seq<Bytes>, best: Bytes, found: bool, ep: Bytes, iface0: Bytes, ep0: Bytes)
    requires exists i: nat :: Chosen(ds, i) && best == ds[i][..INTERFACE_SIZE]
    requires found <==> exists e: nat :: Candidate(ds, e, best)
    requires found ==> exists e: nat :: FoundAt(ds, e, best, ep)
    ensures found ==> Parsed(ds, 1, best, ep, iface0, ep0)
    ensures !found ==> Parsed(ds, 0, best, ep0, iface0, ep0)
  {
    var i: nat :| Chosen(ds, i) && best == ds[i][..INTERFACE_SIZE];
    forall j: nat | Chosen(ds, j) ensures j == i { ChoiceUnique(ds, i, j); }
    hide Chosen, Candidate;
    if found {
      var e: nat :| FoundAt(ds, e, best, ep);
      assert Accepted(ds, best, ep);
    }
  }

  /** On the bytes of a well-formed descriptor list, the parser decides about that list. */
  method ParseDescriptors(buf: array<Byte>, total: nat, ghost ds: seq<Bytes>, dev: Device) returns (r: int)
    requires total <= buf.Length && buf[..total] == Concat(ds) && WfList(ds) && total >= CONFIG_SIZE
    modifies dev
    ensures dev.config == Concat(ds)[..CONFIG_SIZE]
    ensures Parsed(ds, r, dev.interface, dev.endpoint, old(dev.interface), old(dev.endpoint))
  {
    hide Parsed, Split, Concat, WfList, AllReadable;
    SplitConcat(ds, buf[total..]);
    assert buf[..] == buf[..total] + buf[total..];
    WfReadable(ds);
    r := ParseConfigBlob(buf, total, dev);
    assert buf[..total][..CONFIG_SIZE] == buf[..CONFIG_SIZE];
  }

  lemma WfReadable(ds: seq<Bytes>)
    requires WfList(ds)
    ensures AllReadable(ds)
  {
  }

  // ---- A mouse and a keyboard ----

  const MOUSE: Bytes := [9, 4, 0, 0, 1, 3, 1, 2, 0]      // interface 0: HID, boot, mouse
  const MOUSE_IN: Bytes := [7, 5, 0x81, 3, 4, 0, 10]     // interrupt IN endpoint 1
  const KEYBOARD: Bytes := [9, 4, 1, 0, 2, 3, 1, 1, 0]   // interface 1: HID, boot, keyboard
  const HID: Bytes := [9, 0x21, 0x11, 1, 0, 1, 0x22, 63, 0]
  const BULK_OUT: Bytes := [7, 5, 0x02, 2, 64, 0, 0]     // bulk OUT endpoint 2
  const KEYS_IN: Bytes := [7, 5, 0x83, 3, 8, 0, 10]      // interrupt IN endpoint 3

  /** On a device with a mouse before its keyboard, the keyboard and its own interrupt-IN endpoint are the
      ones to choose. */
  lemma KeyboardBehindMouse(config: Bytes)
    requires |config| == 9 && config[0] == 9 && config[1] == 2
    ensures var ds := [config, MOUSE, MOUSE_IN, KEYBOARD, HID, BULK_OUT, KEYS_IN];
      WfList(ds) && Chosen(ds, 3) && ChosenEndpoint(ds, 6, KEYBOARD[..INTERFACE_SIZE])
  {
    var ds := [config, MOUSE, MOUSE_IN, KEYBOARD, HID, BULK_OUT, KEYS_IN];
    var d := KEYBOARD[..INTERFACE_SIZE];
    assert d == KEYBOARD;
    assert forall j :: 4 <= j < 7 ==> !IsInterface(ds[j]);
    assert InBlock(ds, 6, d) by { assert IsInterface(ds[3]) && SameSetting(ds[3], d); }
    assert !InBlock(ds, 2, d) by { BlockStep(ds, 1, d); }
    forall j: nat | j < 6 ensures !Candidate(ds, j, d) {
      assert IsInterruptIn(ds[j]) ==> j == 2;
    }
  }
}
