/**
 The modifier bits the keyboard layer tracks, and what the transitions of one modifier byte
 do to them. The left key of a pair and "either key" share one bit, so lifting the right
 key while the left is held clears the shared bit.
 */
module Modifiers {

  type Mods = bv16

  const SHIFT: Mods := 0x001
  const CTRL: Mods := 0x002
  const ALT: Mods := 0x004
  const GUI: Mods := 0x008
  const RSHIFT: Mods := 0x010
  const RCTRL: Mods := 0x020
  const RALT: Mods := 0x040
  const RGUI: Mods := 0x080
  const CAPS: Mods := 0x100
  const NUM: Mods := 0x200
  const SCROLL: Mods := 0x400

  const KC_CAPS_LOCK: nat := 0x140
  const KC_NUM_LOCK: nat := 0x141
  const KC_SCROLL_LOCK: nat := 0x142
  const KC_LSHIFT: nat := 0x150
  const KC_RSHIFT: nat := 0x151
  const KC_LCTRL: nat := 0x152
  const KC_RCTRL: nat := 0x153
  const KC_LALT: nat := 0x154
  const KC_RALT: nat := 0x155
  const KC_LGUI: nat := 0x156
  const KC_RGUI: nat := 0x157

  /** mods_from_hid */
  function ModsFromHid(m: bv8): Mods {
    (if m & 0x01 != 0 then CTRL else 0)
    | (if m & 0x02 != 0 then SHIFT else 0)
    | (if m & 0x04 != 0 then ALT else 0)
    | (if m & 0x08 != 0 then GUI else 0)
    | (if m & 0x10 != 0 then CTRL | RCTRL else 0)
    | (if m & 0x20 != 0 then SHIFT | RSHIFT else 0)
    | (if m & 0x40 != 0 then ALT | RALT else 0)
    | (if m & 0x80 != 0 then GUI | RGUI else 0)
  }

  // ---- One event ----

  /** The bit of a side key, and the shared bit of its pair. */
  function SideBits(code: nat): (Mods, Mods) {
    if code == KC_LSHIFT then (SHIFT, SHIFT)
    else if code == KC_RSHIFT then (RSHIFT, SHIFT)
    else if code == KC_LCTRL then (CTRL, CTRL)
    else if code == KC_RCTRL then (RCTRL, CTRL)
    else if code == KC_LALT then (ALT, ALT)
    else if code == KC_RALT then (RALT, ALT)
    else if code == KC_LGUI then (GUI, GUI)
    else if code == KC_RGUI then (RGUI, GUI)
    else (0, 0)
  }

  function LockBit(code: nat): Mods {
    if code == KC_CAPS_LOCK then CAPS
    else if code == KC_NUM_LOCK then NUM
    else if code == KC_SCROLL_LOCK then SCROLL
    else 0
  }

  /** A press with side bits `side` and `shared`, as bits of a word. */
  function Pressed(g: Mods, lock: Mods, side: Mods, shared: Mods): Mods {
    (g ^ lock) | side | shared
  }

  function Released(g: Mods, side: Mods, shared: Mods): Mods {
    g & !side & !shared
  }

  /** The modifier update of kbd_dispatch_event: a press of a lock key toggles its bit; a press of
      a side key sets its bit and the shared bit, a release clears both. */
  function Dispatched(g: Mods, press: bool, code: nat): Mods {
    var (side, shared) := SideBits(code);
    if press then Pressed(g, LockBit(code), side, shared) else Released(g, side, shared)
  }

  // ---- The transitions of one report ----

  /** A row of the table of emit_modifier_deltas: the tracked bit that is watched and the key code
      that is sent when it changes. */
  datatype Key = Key(mask: Mods, code: nat)

  const KEYS: seq<Key> := [
    Key(CTRL, KC_LCTRL), Key(SHIFT, KC_LSHIFT), Key(ALT, KC_LALT), Key(GUI, KC_LGUI),
    Key(RCTRL, KC_RCTRL), Key(RSHIFT, KC_RSHIFT), Key(RALT, KC_RALT), Key(RGUI, KC_RGUI)]

  predicate Down(m: bv8, key: bv8) { m & key != 0 }
  predicate Set(g: Mods, bit: Mods) { g & bit != 0 }

  /** The watched bit differs between the two reports. */
  predicate Moved(prev: Mods, now: Mods, mask: Mods) {
    (prev ^ now) & mask != 0
  }

  function Transition(g: Mods, prev: Mods, now: Mods, k: Key): Mods {
    if Moved(prev, now, k.mask) then Dispatched(g, Set(now, k.mask), k.code) else g
  }

  /** emit_modifier_deltas from row `i` of the table on, as seen by the tracked bits. */
  function Transitions(g: Mods, prev: Mods, now: Mods, i: nat): Mods
    requires i <= |KEYS|
    decreases |KEYS| - i
  {
    if i == |KEYS| then g else Transitions(Transition(g, prev, now, KEYS[i]), prev, now, i + 1)
  }

  /** A pair of keys: their bits in the modifier byte, their shared and right bits in the tracked
      word, and the table row of the shared bit. */
  datatype Pair = Pair(left: bv8, right: bv8, shared: Mods, side: Mods, row: nat)

  const CTRLS: Pair := Pair(0x01, 0x10, CTRL, RCTRL, 0)
  const SHIFTS: Pair := Pair(0x02, 0x20, SHIFT, RSHIFT, 1)
  const ALTS: Pair := Pair(0x04, 0x40, ALT, RALT, 2)
  const GUIS: Pair := Pair(0x08, 0x80, GUI, RGUI, 3)

  predicate IsPair(p: Pair) {
    p == CTRLS || p == SHIFTS || p == ALTS || p == GUIS
  }

  /** The bits that follow keys, one at a time. */
  predicate IsBit(bit: Mods) {
    || bit == SHIFT || bit == CTRL || bit == ALT || bit == GUI
    || bit == RSHIFT || bit == RCTRL || bit == RALT || bit == RGUI
  }

  /** An event with this key code writes the bit. */
  predicate Writes(code: nat, bit: Mods) {
    Set(SideBits(code).0, bit) || Set(SideBits(code).1, bit)
  }

  /** A side key writes its bits with its own state and leaves all others. */
  lemma DispatchedBit(g: Mods, press: bool, code: nat, bit: Mods)
    requires IsBit(bit) && LockBit(code) == 0
    ensures Set(Dispatched(g, press, code), bit) == if Writes(code, bit) then press else Set(g, bit)
  {
  }

  /** The left row of a pair writes the shared bit, the right row both bits, no other row any. */
  lemma RowWrites(i: nat, p: Pair)
    requires i < |KEYS| && IsPair(p)
    ensures LockBit(KEYS[i].code) == 0 && IsBit(p.shared) && IsBit(p.side)
    ensures Writes(KEYS[i].code, p.shared) <==> i == p.row || i == p.row + 4
    ensures Writes(KEYS[i].code, p.side) <==> i == p.row + 4
    ensures i == p.row ==> KEYS[i].mask == p.shared
    ensures i == p.row + 4 ==> KEYS[i].mask == p.side
  {
  }

  /** The bits of a pair after one row of the table. */
  lemma RowEffect(g: Mods, prev: Mods, now: Mods, i: nat, p: Pair)
    requires i < |KEYS| && IsPair(p)
    ensures var g' := Transition(g, prev, now, KEYS[i]);
      && Set(g', p.shared) == (if i == p.row && Moved(prev, now, p.shared) then Set(now, p.shared)
                               else if i == p.row + 4 && Moved(prev, now, p.side) then Set(now, p.side)
                               else Set(g, p.shared))
      && Set(g', p.side) == if i == p.row + 4 && Moved(prev, now, p.side) then Set(now, p.side) else Set(g, p.side)
  {
    hide Set, Moved, Writes, Dispatched, IsPair, IsBit, LockBit, KEYS;
    RowWrites(i, p);
    DispatchedBit(g, Set(now, KEYS[i].mask), KEYS[i].code, p.shared);
    DispatchedBit(g, Set(now, KEYS[i].mask), KEYS[i].code, p.side);
  }

  /** The bits of a pair after the rows from `i` on. */
  lemma {:induction false} RowsEffect(g: Mods, prev: Mods, now: Mods, i: nat, p: Pair)
    requires i <= |KEYS| && IsPair(p)
    ensures var g' := Transitions(g, prev, now, i);
      && Set(g', p.shared) == (if i <= p.row + 4 && Moved(prev, now, p.side) then Set(now, p.side)
                               else if i <= p.row && Moved(prev, now, p.shared) then Set(now, p.shared)
                               else Set(g, p.shared))
      && Set(g', p.side) == if i <= p.row + 4 && Moved(prev, now, p.side) then Set(now, p.side) else Set(g, p.side)
    decreases |KEYS| - i
  {
    hide Set, Moved, Transition;
    if i < |KEYS| {
      RowEffect(g, prev, now, i, p);
      RowsEffect(Transition(g, prev, now, KEYS[i]), prev, now, i + 1, p);
    }
  }

  /** What the modifier byte says about the bits of a pair. */
  lemma HidBits(m: bv8, p: Pair)
    requires IsPair(p)
    ensures Set(ModsFromHid(m), p.side) == Down(m, p.right)
    ensures Set(ModsFromHid(m), p.shared) == (Down(m, p.left) || Down(m, p.right))
  {
  }

  lemma MovedBit(a: Mods, b: Mods, bit: Mods)
    requires IsBit(bit)
    ensures Moved(a, b, bit) == (Set(a, bit) != Set(b, bit))
  {
    hide Moved, Set;
    if bit == SHIFT { MovedOne(a, b, 0); }
    else if bit == CTRL { MovedOne(a, b, 1); }
    else if bit == ALT { MovedOne(a, b, 2); }
    else if bit == GUI { MovedOne(a, b, 3); }
    else if bit == RSHIFT { MovedOne(a, b, 4); }
    else if bit == RCTRL { MovedOne(a, b, 5); }
    else if bit == RALT { MovedOne(a, b, 6); }
    else { MovedOne(a, b, 7); }
  }

  lemma MovedOne(a: Mods, b: Mods, k: bv4)
    requires k < 8
    ensures Moved(a, b, (1 as Mods) << k) == (Set(a, (1 as Mods) << k) != Set(b, (1 as Mods) << k))
  {
  }

  /** One report, one pair: the right bit follows the right key; the shared bit follows the right
      key when that moves, else the pair when that moves, else it stays. */
  lemma PairTransition(g: Mods, prev: bv8, now: bv8, p: Pair)
    requires IsPair(p)
    ensures var g' := Transitions(g, ModsFromHid(prev), ModsFromHid(now), 0);
      var (l, r, l', r') := (Down(prev, p.left), Down(prev, p.right), Down(now, p.left), Down(now, p.right));
      && Set(g', p.side) == (if r != r' then r' else Set(g, p.side))
      && Set(g', p.shared) == if r != r' then r' else if (l || r) != (l' || r') then l' || r' else Set(g, p.shared)
  {
    hide Set, Moved, Down, ModsFromHid, Transitions;
    RowsEffect(g, ModsFromHid(prev), ModsFromHid(now), 0, p);
    HidBits(prev, p);
    HidBits(now, p);
    RowWrites(0, p);
    MovedBit(ModsFromHid(prev), ModsFromHid(now), p.side);
    MovedBit(ModsFromHid(prev), ModsFromHid(now), p.shared);
  }
}
