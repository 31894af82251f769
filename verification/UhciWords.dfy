/**
 Hardware words of the UHCI schedule: link words (UHCI Design Guide 1.1, sections 3.1-3.3),
 transfer-descriptor tokens and status words (section 3.2).
 */
module UhciWords {

  const WORD32: nat := 0x1_0000_0000

  // ---- Link words ----

  const TERMINATE: nat := 1
  const QH_SELECT: nat := 2
  const DEPTH_FIRST: nat := 4

  /** `a | bit` for a single bit. */
  function OrBit(a: nat, bit: nat): nat
    requires bit > 0
  {
    if (a / bit) % 2 == 1 then a else a + bit
  }

  /** A 32-bit link to `address` carrying one flag bit. */
  function Link(address: nat, flag: nat): nat
    requires flag > 0
  {
    OrBit(address, flag) % WORD32
  }

  function QhLink(address: nat): nat {
    Link(address, QH_SELECT)
  }

  function TdLink(address: nat): nat {
    Link(address, DEPTH_FIRST)
  }

  /** What the controller reads out of a link word: bits 31..4 are the pointer. */
  function Pointer(w: nat): nat {
    w / 16 * 16
  }

  function Flags(w: nat): nat {
    w % 16
  }

  predicate IsTerminate(w: nat) {
    w % 2 == 1
  }

  /** An address the controller can be pointed at. */
  predicate Linkable(address: nat) {
    address % 16 == 0 && address < WORD32
  }

  /** Decoding a link word gives back the pointer and only the flag that was set exactly when
      the address is 16-aligned and fits 32 bits. */
  lemma LinkRoundTrip(address: nat, flag: nat)
    requires flag == QH_SELECT || flag == DEPTH_FIRST
    ensures Pointer(Link(address, flag)) == address && Flags(Link(address, flag)) == flag <==> Linkable(address)
  {
    hide Link, Pointer, Flags;
    LinkOfLinkable(address, flag);
    LinkBound(address, flag);
    PointerShape(Link(address, flag));
    if Linkable(address) {
      WordParts(address, flag);
    }
  }

  lemma LinkBound(address: nat, flag: nat)
    requires flag > 0
    ensures Link(address, flag) < WORD32
  {
    hide OrBit;
  }

  lemma PointerShape(w: nat)
    ensures Pointer(w) % 16 == 0 && Pointer(w) <= w
  {
  }

  lemma WordParts(address: nat, flag: nat)
    requires address % 16 == 0 && flag < 16
    ensures Pointer(address + flag) == address && Flags(address + flag) == flag
    ensures IsTerminate(address + flag) <==> flag % 2 == 1
  {
    var k := address / 16;
    Sixteens(k, flag);
    assert address == 16 * k;
  }

  lemma Sixteens(k: nat, flag: nat)
    requires flag < 16
    ensures (16 * k + flag) / 16 == k && (16 * k + flag) % 16 == flag
    ensures (16 * k + flag) % 2 == flag % 2
  {
    Twos(8 * k, flag);
  }

  lemma Twos(k: nat, flag: nat)
    ensures (2 * k + flag) % 2 == flag % 2
  {
  }

  lemma LinkOfLinkable(address: nat, flag: nat)
    requires flag == QH_SELECT || flag == DEPTH_FIRST
    ensures Linkable(address) ==> Link(address, flag) == address + flag
  {
    if flag == QH_SELECT {
      QhLinkOfLinkable(address);
    } else {
      TdLinkOfLinkable(address);
    }
  }

  lemma QhLinkOfLinkable(address: nat)
    ensures Linkable(address) ==> QhLink(address) == address + 2
  {
  }

  lemma TdLinkOfLinkable(address: nat)
    ensures Linkable(address) ==> TdLink(address) == address + 4
  {
  }

  /** Different linkable addresses have different links, and no link is the terminate word. */
  lemma QhLinksDiffer(p: nat, q: nat)
    requires Linkable(p) && Linkable(q)
    ensures QhLink(p) == QhLink(q) <==> p == q
    ensures QhLink(p) != TERMINATE && Pointer(QhLink(p)) == p
  {
    hide Link, Pointer, Flags;
    LinkRoundTrip(p, QH_SELECT);
    LinkRoundTrip(q, QH_SELECT);
    LinkOfLinkable(p, QH_SELECT);
  }

  // ---- Tokens ----

  const PID_SETUP: bv32 := 0x2D
  const PID_IN: bv32 := 0x69
  const PID_OUT: bv32 := 0xE1

  /** uhci_build_in_token: PID in bits 7..0, address in 14..8, endpoint in 18..15, data toggle
      in 19, length minus one in 31..21. */
  function BuildInToken(addr: bv8, ep: bv8, toggle: bv8, maxLen: bv16): bv32 {
    var m1: bv32 := (if maxLen != 0 then (maxLen - 1) as bv32 else 0) & 0x7FF;
    0x69 | (addr as bv32 << 8) | ((ep & 0x0F) as bv32 << 15)
      | ((if toggle != 0 then 1 else 0) << 19) | (m1 << 21)
  }

  /** The tokens control transfers write: endpoint 0, length minus one in bits 31..21. */
  function ControlToken(pid: bv32, addr: bv8, toggle: bv32, m1: bv32): bv32 {
    pid | (addr as bv32 << 8) | (toggle << 19) | (m1 << 21)
  }

  function TokenPid(t: bv32): bv32 { t & 0xFF }
  function TokenAddress(t: bv32): bv8 { ((t >> 8) & 0x7F) as bv8 }
  function TokenEndpoint(t: bv32): bv8 { ((t >> 15) & 0xF) as bv8 }
  function TokenToggle(t: bv32): bool { t & 0x80000 != 0 }
  function TokenLength(t: bv32): bv16 { ((t >> 21) & 0x7FF) as bv16 + 1 }

  /** The address a device would answer to, the endpoint, the toggle and the length all survive
      the token exactly when the address has 7 bits, the endpoint 4 and the length is 1..2048. */
  lemma InTokenRoundTrip(addr: bv8, ep: bv8, toggle: bv8, maxLen: bv16)
    ensures TokenToggle(BuildInToken(addr, ep, toggle, maxLen)) == (toggle != 0)
         && TokenPid(BuildInToken(addr, ep, toggle, maxLen)) == PID_IN
    ensures (&& TokenAddress(BuildInToken(addr, ep, toggle, maxLen)) == addr
             && TokenEndpoint(BuildInToken(addr, ep, toggle, maxLen)) == ep
             && TokenLength(BuildInToken(addr, ep, toggle, maxLen)) == maxLen)
        <==> addr < 0x80 && ep < 0x10 && 1 <= maxLen <= 0x800
  {
  }

  // ---- Status words ----

  const TD_ACTIVE: bv32 := 0x80_0000
  const TD_IOC: bv32 := 0x100_0000
  const TD_SPD: bv32 := 0x2000_0000
  const TD_STALLED: bv32 := 0x40_0000
  const TD_DATA_BUFFER: bv32 := 0x20_0000
  const TD_BABBLE: bv32 := 0x10_0000
  const TD_NAK: bv32 := 0x8_0000
  const TD_TIMEOUT: bv32 := 0x4_0000
  const TD_BITSTUFF: bv32 := 0x2_0000
  const TD_ERR_MASK: bv32 := 0x76_0000   // stalled, data buffer, babble, timeout, bit stuff
  const TD_ACTLEN_MASK: bv32 := 0x7FF
  const TD_ARMED: bv32 := 0x2180_07FF    // length field, SPD, IOC and Active

  predicate IsActive(status: bv32) { status & TD_ACTIVE != 0 }

  /** A completion that carries data: no NAK and no error bit. */
  predicate IsGood(status: bv32) { !IsActive(status) && status & TD_NAK == 0 && status & TD_ERR_MASK == 0 }

  lemma StatusConstants()
    ensures TD_ERR_MASK == TD_STALLED | TD_DATA_BUFFER | TD_BABBLE | TD_TIMEOUT | TD_BITSTUFF
    ensures TD_ARMED == TD_ACTLEN_MASK | TD_SPD | TD_IOC | TD_ACTIVE && IsActive(TD_ARMED)
  {
  }

  // ---- Waiting for a transfer ----

  const TIMEOUT: nat := 3000

  /** The error bits in the order in which they are tested; 1 means success. */
  function Classify(status: bv32): int {
    if status & TD_STALLED != 0 then -2
    else if status & TD_DATA_BUFFER != 0 then -3
    else if status & TD_BABBLE != 0 then -4
    else if status & TD_NAK != 0 then -5
    else if status & TD_TIMEOUT != 0 then -6
    else if status & TD_BITSTUFF != 0 then -7
    else 1
  }

  /** Poll `i` is the first that sees the descriptor retired, and it comes in time. */
  predicate FirstRetired(polls: seq<bv32>, i: nat) {
    i < TIMEOUT && i < |polls| && !IsActive(polls[i]) && forall k :: 0 <= k < i ==> IsActive(polls[k])
  }

  /** What the wait answers for these polls: a timeout exactly when every poll in time sees the
      descriptor active, otherwise the code of the first poll that does not; success exactly when that
      poll carries no error bit. */
  ghost predicate WaitAnswers(polls: seq<bv32>, wait: int)
    requires |polls| > TIMEOUT
  {
    && (wait == -1 <==> forall i :: 0 <= i < TIMEOUT ==> IsActive(polls[i]))
    && (wait != -1 ==> exists i: nat :: FirstRetired(polls, i) && wait == Classify(polls[i]))
    && (wait == 1 <==> exists i: nat :: FirstRetired(polls, i) && IsGood(polls[i]))
  }

  /** The wait loop over the status words it polls, one per millisecond: it succeeds exactly when
      one of the first 3000 polls sees the descriptor retired without any error bit. A retirement
      seen only by the last poll is reported as a timeout. */
  method WaitForTransfer(polls: seq<bv32>) returns (r: int)
    requires |polls| > TIMEOUT
    ensures WaitAnswers(polls, r)
  {
    var timeout: int := TIMEOUT;
    var i := 0;
    while IsActive(polls[i]) && timeout > 0
      invariant 0 <= i <= TIMEOUT && timeout == TIMEOUT - i
      invariant forall k :: 0 <= k < i ==> IsActive(polls[k])
    {
      timeout := timeout - 1;
      i := i + 1;
    }
    if timeout <= 0 {
      return -1;
    }
    ClassifyGood(polls[i]);
    assert FirstRetired(polls, i);
    var status := polls[i];
    if status & (1 << 22) != 0 { return -2; }
    if status & (1 << 21) != 0 { return -3; }
    if status & (1 << 20) != 0 { return -4; }
    if status & (1 << 19) != 0 { return -5; }
    if status & (1 << 18) != 0 { return -6; }
    if status & (1 << 17) != 0 { return -7; }
    return 1;
  }

  /** The code names the highest of the bits 22 to 17 that is set, and 1 says that none is. */
  lemma ClassifyExactly(status: bv32)
    ensures Classify(status) == -2 <==> status & 0x40_0000 != 0
    ensures Classify(status) == -3 <==> status & 0x60_0000 == 0x20_0000
    ensures Classify(status) == -4 <==> status & 0x70_0000 == 0x10_0000
    ensures Classify(status) == -5 <==> status & 0x78_0000 == 0x08_0000
    ensures Classify(status) == -6 <==> status & 0x7C_0000 == 0x04_0000
    ensures Classify(status) == -7 <==> status & 0x7E_0000 == 0x02_0000
    ensures Classify(status) == 1 <==> status & 0x7E_0000 == 0
  {
  }

  lemma ClassifyGood(status: bv32)
    requires !IsActive(status)
    ensures Classify(status) == 1 <==> IsGood(status)
  {
  }
}
