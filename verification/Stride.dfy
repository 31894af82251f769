/**
 The arithmetic of a stride walk: start at slot `first`, advance by `d` modulo `n`.
 The walk visits exactly the slots congruent to `first` modulo gcd(d, n), each once,
 before it returns to its start.
 */
module Stride {

  // ---- Congruences ----

  lemma RemainderBound(j: nat, g: nat)
    requires g > 0
    ensures j % g <= j && j % g < g && (j < g ==> j % g == j)
  {
  }

  /** Equal remainders differ by a multiple of the modulus. */
  lemma RemainderGap(a: int, b: int, m: int) returns (t: int)
    requires m > 0 && a % m == b % m
    ensures a - b == m * t
  {
    t := a / m - b / m;
    assert a == m * (a / m) + a % m;
    assert b == m * (b / m) + b % m;
    assert m * t == m * (a / m) - m * (b / m);
  }

  lemma SmallMultipleIsZero(m: int, t: int)
    requires m > 0 && -m < m * t < m
    ensures t == 0
  {
  }

  /** Numbers that differ by a multiple of the modulus have equal remainders. */
  lemma GapRemainder(a: int, b: int, m: int, t: int)
    requires m > 0 && a - b == m * t
    ensures a % m == b % m
  {
    var u := t + b / m - a / m;
    assert a == m * (a / m) + a % m;
    assert b == m * (b / m) + b % m;
    assert m * u == m * t + m * (b / m) - m * (a / m);
    assert m * u == a % m - b % m;
    SmallMultipleIsZero(m, u);
  }

  /** Reducing modulo a multiple of `g` does not change the remainder modulo `g`. */
  lemma RemainderOfRemainder(a: int, g: int, q: int)
    requires g > 0 && q > 0
    ensures g * q > 0 && (a % (g * q)) % g == a % g
  {
    var m := g * q;
    assert m >= g * 1 by { assert g * (q - 1) >= 0; }
    var t := RemainderGap(a, a % m, m) by { RemainderIdempotent(a, m); }
    assert a - a % m == g * (q * t) by { assert m * t == g * (q * t); }
    GapRemainder(a, a % m, g, q * t);
  }

  lemma RemainderIdempotent(a: int, m: int)
    requires m > 0
    ensures (a % m) % m == a % m
  {
  }

  // ---- Greatest common divisor ----

  function Gcd(a: nat, b: nat): (g: nat)
    ensures a + b > 0 ==> g > 0
    decreases b
  {
    if b == 0 then a else Gcd(b, a % b)
  }

  lemma FactorStep(g: int, p: int, q: int, k: int, b: int, r: int)
    requires b == g * p && r == g * q
    ensures b * k + r == g * (p * k + q)
  {
  }

  lemma CombinationStep(b: int, k: int, r: int, x: int, y: int)
    ensures (b * k + r) * y + b * (x - y * k) == b * x + r * y
  {
  }

  /** The gcd divides both arguments. */
  lemma {:induction false} GcdDivides(a: nat, b: nat) returns (p: int, q: int)
    ensures a == Gcd(a, b) * p && b == Gcd(a, b) * q
    decreases b
  {
    if b == 0 {
      p, q := 1, 0;
    } else {
      var p', q' := GcdDivides(b, a % b);
      FactorStep(Gcd(b, a % b), p', q', a / b, b, a % b);
      p, q := p' * (a / b) + q', p';
    }
  }

  /** The gcd is an integer combination of its arguments (Bezout). */
  lemma {:induction false} GcdCombination(a: nat, b: nat) returns (x: int, y: int)
    ensures a * x + b * y == Gcd(a, b)
    decreases b
  {
    if b == 0 {
      x, y := 1, 0;
    } else {
      var x', y' := GcdCombination(b, a % b);
      CombinationStep(b, a / b, a % b, x', y');
      x, y := y', x' - y' * (a / b);
    }
  }

  // ---- The walk ----

  /** The slot reached after `k` strides. */
  function Slot(first: nat, d: nat, n: nat, k: nat): (s: nat)
    requires n > 0
    ensures s < n
  {
    (first + k * d) % n
  }

  /** The number of strides after which the walk is back at its start. */
  function Period(d: nat, n: nat): nat
    requires d + n > 0
  {
    n / Gcd(d, n)
  }

  /** The slots a walk owns: those congruent to its start modulo the gcd. */
  predicate Owns(first: nat, d: nat, n: nat, s: nat)
    requires d + n > 0
  {
    s % Gcd(d, n) == first % Gcd(d, n)
  }

  lemma FactorSign(g: int, p: int)
    requires g > 0 && g * p >= 0
    ensures p >= 0 && (g * p > 0 ==> p > 0)
  {
  }

  /** d = g*c and n = g*p where c and p are coprime and p is the period. */
  lemma Decompose(d: nat, n: nat) returns (g: nat, c: nat, p: nat, x: int, y: int)
    requires n > 0
    ensures g == Gcd(d, n) > 0 && p == Period(d, n) > 0
    ensures d == g * c && n == g * p
    ensures c * x + p * y == 1
  {
    g := Gcd(d, n);
    var c', p' := GcdDivides(d, n);
    FactorSign(g, c');
    FactorSign(g, p');
    c, p := c', p';
    x, y := GcdCombination(d, n);
    DivideExact(g, p);
    CoprimeParts(d, n, g, c, p, x, y);
  }

  lemma CoprimeParts(d: int, n: int, g: int, c: int, p: int, x: int, y: int)
    requires g > 0 && d == g * c && n == g * p && d * x + n * y == g
    ensures c * x + p * y == 1
  {
  }

  lemma DivideExact(g: int, p: int)
    requires g > 0
    ensures (g * p) / g == p
  {
    var n := g * p;
    assert n == g * (n / g) + n % g;
    assert g * (p - n / g) == n % g;
    SmallMultipleIsZero(g, p - n / g);
  }

  /** Two strides meet in the same slot exactly when they are whole periods apart. */
  lemma SlotsMeet(first: nat, d: nat, n: nat, i: nat, j: nat)
    requires n > 0
    ensures Period(d, n) > 0
    ensures Slot(first, d, n, i) == Slot(first, d, n, j) <==> (i - j) % Period(d, n) == 0
  {
    var g, c, p, x, y := Decompose(d, n);
    var a, b := first + i * d, first + j * d;
    assert a - b == (i - j) * d;
    if a % n == b % n {
      var t := RemainderGap(a, b, n);
      MeetForward(g, c, p, x, y, i - j, t);
      GapRemainder(i - j, 0, p, (i - j) * y + t * x);
    }
    if (i - j) % p == 0 {
      var t := RemainderGap(i - j, 0, p);
      MeetBackward(g, c, p, i - j, t);
      GapRemainder(a, b, n, t * c);
    }
  }

  /** If g*p divides k*(g*c) and c*x + p*y = 1, then p divides k. */
  lemma MeetForward(g: int, c: int, p: int, x: int, y: int, k: int, t: int)
    requires g > 0 && c * x + p * y == 1
    requires k * (g * c) == (g * p) * t
    ensures k == p * (k * y + t * x)
  {
  }

  lemma MeetBackward(g: int, c: int, p: int, k: int, t: int)
    requires k == p * t
    ensures k * (g * c) == (g * p) * (t * c)
  {
  }

  lemma AddAfterRemainder(a: int, d: int, n: int)
    requires n > 0
    ensures (a + d) % n == (a % n + d) % n
  {
    RemainderIdempotent(a, n);
    var t := RemainderGap(a, a % n, n);
    GapRemainder(a + d, a % n + d, n, t);
  }

  lemma NextSlot(first: nat, d: nat, n: nat, k: nat)
    requires n > 0
    ensures Slot(first, d, n, k + 1) == (Slot(first, d, n, k) + d) % n
  {
    hide Slot, Remainder;
    var m := TwoSlots(first, d, n, k);
    RemainderStep(first + m, d, n);
    RemainderIs(Slot(first, d, n, k) + d, n);
  }

  function Remainder(a: int, n: int): int
    requires n > 0
  {
    a % n
  }

  lemma RemainderIs(a: int, n: int)
    requires n > 0
    ensures Remainder(a, n) == a % n
  {
  }

  lemma RemainderStep(a: int, d: int, n: int)
    requires n > 0
    ensures Remainder(a + d, n) == Remainder(Remainder(a, n) + d, n)
  {
    AddAfterRemainder(a, d, n);
  }

  lemma TwoSlots(first: nat, d: nat, n: nat, k: nat) returns (m: nat)
    requires n > 0
    ensures Slot(first, d, n, k) == Remainder(first + m, n)
    ensures Slot(first, d, n, k + 1) == Remainder(first + m + d, n)
  {
    m := k * d;
    NextMultiple(k, d);
    assert first + (k + 1) * d == first + m + d;
  }

  lemma NextMultiple(k: int, d: int)
    ensures (k + 1) * d == k * d + d
  {
  }

  /** Within one period no slot repeats. */
  lemma SlotsDistinct(first: nat, d: nat, n: nat, i: nat, j: nat)
    requires n > 0 && i < j < Period(d, n)
    ensures Slot(first, d, n, i) != Slot(first, d, n, j)
  {
    SlotsMeet(first, d, n, j, i);
    SmallRemainder(j - i, Period(d, n));
  }

  /** The walk is back at its start exactly when a whole number of periods has passed. */
  lemma BackAtStart(first: nat, d: nat, n: nat, k: nat)
    requires first < n && 0 < k <= Period(d, n)
    ensures Slot(first, d, n, k) == first <==> k == Period(d, n)
  {
    SlotsMeet(first, d, n, k, 0);
    SmallRemainder(first, n);
    assert Slot(first, d, n, 0) == first;
    if k < Period(d, n) {
      SmallRemainder(k, Period(d, n));
    } else {
      RemainderOfSelf(k);
    }
  }

  lemma RemainderOfSelf(k: nat)
    requires k > 0
    ensures k % k == 0
  {
  }

  lemma ShiftByMultiple(first: int, k: int, d: int, g: int, c: int)
    requires g > 0 && d == g * c
    ensures (first + k * d) % g == first % g
  {
    assert k * (g * c) == g * (k * c);
    GapRemainder(first + k * d, first, g, k * c);
  }

  /** Every slot of the walk is owned. */
  lemma SlotOwned(first: nat, d: nat, n: nat, k: nat)
    requires n > 0
    ensures Owns(first, d, n, Slot(first, d, n, k))
  {
    var g, c, p, x, y := Decompose(d, n);
    ShiftByMultiple(first, k, d, g, c);
    RemainderOfRemainder(first + k * d, g, p);
  }

  /** Some number of strides below the period covers any multiple of the gcd. */
  lemma SolveStride(d: nat, n: nat, t: int) returns (k: nat, z: int)
    requires n > 0
    ensures k < Period(d, n) && k * d - Gcd(d, n) * t == n * z
  {
    var g, c, p, x, y := Decompose(d, n);
    k := (t * x) % p;
    var u := RemainderGap(t * x, k, p) by { RemainderIdempotent(t * x, p); }
    z := ReachGap(d, n, g, c, p, x, y, t, k, u);
  }

  lemma WrapsTo(a: int, s: nat, n: nat, z: int)
    requires s < n && a - s == n * z
    ensures a % n == s
  {
    GapRemainder(a, s, n, z);
    SmallRemainder(s, n);
  }

  lemma SmallRemainder(s: nat, n: nat)
    requires s < n
    ensures s % n == s
  {
  }

  /** Every owned slot is reached within one period. */
  lemma OwnedReached(first: nat, d: nat, n: nat, s: nat) returns (k: nat)
    requires n > 0 && s < n && Owns(first, d, n, s)
    ensures k < Period(d, n) && Slot(first, d, n, k) == s
  {
    var t := RemainderGap(s, first, Gcd(d, n));
    var z;
    k, z := SolveStride(d, n, t);
    WrapsTo(first + k * d, s, n, z);
  }

  lemma ReachGap(d: int, n: int, g: int, c: int, p: int, x: int, y: int, t: int, k: int, u: int)
    returns (z: int)
    requires d == g * c && n == g * p
    requires c * x + p * y == 1 && t * x - k == p * u
    ensures k * d - g * t == n * z
  {
    z := -(u * c) - t * y;
    assert k * c - t == p * z by {
      assert k * c == (t * x) * c - (p * u) * c;
      assert (t * x) * c == t * (c * x);
      assert t * (c * x) == t * (1 - p * y);
      assert t * (p * y) == p * (t * y);
      assert (p * u) * c == p * (u * c);
      assert p * z == -(p * (u * c)) - p * (t * y);
    }
    assert k * (g * c) - g * t == g * (k * c - t);
    assert g * (p * z) == (g * p) * z;
  }

  /** The gcd is no larger than the stride. */
  lemma GcdAtMostStride(d: nat, n: nat)
    requires d > 0 && n > 0
    ensures 0 < Gcd(d, n) <= d
  {
    var g, c, p, x, y := Decompose(d, n);
    assert c >= 1;
    assert g * (c - 1) >= 0;
  }

  /** Any `d` consecutive frames, wrapping at `n`, contain an owned slot. */
  lemma WindowHit(first: nat, d: nat, n: nat, w: nat) returns (j: nat)
    requires d > 0 && n > 0
    ensures j < Gcd(d, n) <= d && Owns(first, d, n, (w + j) % n)
  {
    GcdAtMostStride(d, n);
    var g, c, p, x, y := Decompose(d, n);
    j := (first - w) % g;
    var t := RemainderGap(first - w, j, g) by { RemainderIdempotent(first - w, g); }
    GapRemainder(first, w + j, g, t);
    RemainderOfRemainder(w + j, g, p);
  }
}
