/**
 Numerals: what the number printers of libc/string.c are to print, and what reading it back
 gives. The printers themselves are in module Printers.
 */
module Numerals {

  const DIGITS: string := "0123456789ABCDEF"

  /** The bases in use. */
  predicate Base(b: nat) {
    b == 10 || b == 16
  }

  function Digit(d: nat): (c: char)
    requires d < |DIGITS|
  {
    DIGITS[d]
  }

  function DigitValue(c: char): nat {
    if '0' <= c <= '9' then c as nat - '0' as nat
    else if 'A' <= c <= 'F' then c as nat - 'A' as nat + 10
    else 0
  }

  predicate IsDigit(c: char, b: nat) {
    DigitValue(c) < b && DigitValue(c) < |DIGITS| && Digit(DigitValue(c)) == c
  }

  lemma DigitRoundTrip(d: nat, b: nat)
    requires Base(b) && d < b
    ensures DigitValue(Digit(d)) == d && IsDigit(Digit(d), b) && (Digit(d) == '0' <==> d == 0)
    ensures Digit(d) != '\0' && Digit(d) != '-'
  {
  }

  /** All digits but the last, and the last. */
  function Rest(n: nat, b: nat): (q: nat)
    requires Base(b)
    ensures n >= b ==> 0 < q < n
    ensures n < b ==> q == 0
  {
    n / b
  }

  function Last(n: nat, b: nat): (d: nat)
    requires Base(b)
    ensures d < b && d < |DIGITS|
    ensures n < b ==> d == n
  {
    n % b
  }

  lemma RestAndLast(n: nat, b: nat)
    requires Base(b)
    ensures Rest(n, b) * b + Last(n, b) == n
  {
  }

  lemma RestOf(q: nat, d: nat, b: nat)
    requires Base(b) && d < b
    ensures Rest(q * b + d, b) == q && Last(q * b + d, b) == d
    ensures q > 0 ==> q * b + d >= b
  {
  }

  // ---- Numerals without leading zeros ----

  function Numeral(n: nat, b: nat): (s: string)
    requires Base(b)
    ensures |s| > 0
  {
    if n < b then [Digit(n)] else Numeral(Rest(n, b), b) + [Digit(Last(n, b))]
  }

  /** Reading a numeral, most significant digit first. */
  function Value(s: string, b: nat): nat {
    if s == "" then 0 else Value(s[..|s| - 1], b) * b + DigitValue(s[|s| - 1])
  }

  /** Digits only, and no leading zero unless it is the only digit. */
  predicate Canonical(s: string, b: nat) {
    && 0 < |s| && (|s| > 1 ==> s[0] != '0')
    && forall i :: 0 <= i < |s| ==> IsDigit(s[i], b)
  }

  lemma ValueAppend(s: string, c: char, b: nat)
    ensures Value(s + [c], b) == Value(s, b) * b + DigitValue(c)
  {
  }

  lemma ValueOne(c: char, b: nat)
    ensures Value([c], b) == DigitValue(c)
  {
  }

  /** Reading a printed number gives the number back. */
  lemma {:induction false} ValueOfNumeral(n: nat, b: nat)
    requires Base(b)
    ensures Value(Numeral(n, b), b) == n
  {
    hide Base, Digit, DigitValue, IsDigit, Rest, Last, Value;
    DigitRoundTrip(Last(n, b), b);
    if n < b {
      ValueOne(Digit(n), b);
    } else {
      ValueOfNumeral(Rest(n, b), b);
      RestAndLast(n, b);
      ValueAppend(Numeral(Rest(n, b), b), Digit(Last(n, b)), b);
    }
  }

  /** Printed numbers are canonical. */
  lemma {:induction false} NumeralCanonical(n: nat, b: nat)
    requires Base(b)
    ensures Canonical(Numeral(n, b), b)
    ensures Numeral(n, b)[0] == '0' ==> n == 0
  {
    hide Base, Digit, DigitValue, IsDigit, Rest, Last;
    DigitRoundTrip(Last(n, b), b);
    if n >= b {
      NumeralCanonical(Rest(n, b), b);
    }
  }

  /** There is no other canonical numeral of the same value. */
  lemma {:induction false} NumeralUnique(s: string, b: nat)
    requires Base(b) && Canonical(s, b)
    ensures s == Numeral(Value(s, b), b) && (Value(s, b) == 0 ==> s[0] == '0')
    decreases |s|
  {
    hide Base, Digit, DigitValue, IsDigit, Rest, Last, Value;
    var k := |s| - 1;
    var front, d := s[..k], DigitValue(s[k]);
    assert s == front + [s[k]];
    ReadDigit(s[k], b);
    if k == 0 {
      assert s == [s[0]];
      ValueOne(s[0], b);
    } else {
      assert forall i :: 0 <= i < k ==> front[i] == s[i];
      NumeralUnique(front, b);
      ValueAppend(front, s[k], b);
      RestOf(Value(front, b), d, b);
    }
  }

  lemma ReadDigit(c: char, b: nat)
    requires Base(b) && IsDigit(c, b)
    ensures DigitValue(c) < b && DigitValue(c) < |DIGITS| && Digit(DigitValue(c)) == c
    ensures DigitValue(c) == 0 ==> c == '0'
  {
  }

  // ---- Signed numbers ----

  function Signed(n: int): string {
    if n < 0 then "-" + Numeral(-n, 10) else Numeral(n, 10)
  }

  function SignedValue(s: string): int {
    if s != "" && s[0] == '-' then -(Value(s[1..], 10) as int) else Value(s, 10)
  }

  /** Reading a printed signed number gives the number back. */
  lemma SignedRoundTrip(n: int)
    ensures SignedValue(Signed(n)) == n
  {
    hide Numeral, Value, Canonical;
    if n < 0 {
      ValueOfNumeral(-n, 10);
      assert Signed(n)[1..] == Numeral(-n, 10);
    } else {
      ValueOfNumeral(n, 10);
      PlainDigits(n, 10, 0);
    }
  }

  lemma PlainDigits(n: nat, b: nat, i: nat)
    requires Base(b) && i < |Numeral(n, b)|
    ensures Numeral(n, b)[i] != '-' && Numeral(n, b)[i] != '\0'
  {
    hide Numeral, Base;
    NumeralCanonical(n, b);
    assert IsDigit(Numeral(n, b)[i], b);
  }

  // ---- Numerals of fixed width ----

  /** At most `w` digits. */
  predicate Fits(n: nat, b: nat, w: nat)
    requires Base(b)
  {
    if w == 0 then n == 0 else Fits(Rest(n, b), b, w - 1)
  }

  function Pow(b: nat, k: nat): nat {
    if k == 0 then 1 else b * Pow(b, k - 1)
  }

  lemma RestBound(n: nat, b: nat, m: nat)
    requires Base(b)
    ensures Rest(n, b) < m <==> n < b * m
  {
  }

  lemma {:induction false} FitsBelow(n: nat, b: nat, w: nat)
    requires Base(b)
    ensures Fits(n, b, w) <==> n < Pow(b, w)
  {
    hide Base, Rest;
    if w > 0 {
      FitsBelow(Rest(n, b), b, w - 1);
      RestBound(n, b, Pow(b, w - 1));
    }
  }

  /** The last `w` digits. */
  function Padded(n: nat, b: nat, w: nat): (s: string)
    requires Base(b)
    ensures |s| == w
  {
    if w == 0 then "" else Padded(Rest(n, b), b, w - 1) + [Digit(Last(n, b))]
  }

  function Zeros(k: nat): (s: string)
    ensures |s| == k
  {
    seq(k, _ => '0')
  }

  function StripZeros(s: string): string {
    if |s| > 1 && s[0] == '0' then StripZeros(s[1..]) else s
  }

  lemma {:induction false} PaddedZero(b: nat, w: nat)
    requires Base(b)
    ensures Padded(0, b, w) == Zeros(w) && Fits(0, b, w)
  {
    hide Rest, Last;
    if w > 0 {
      PaddedZero(b, w - 1);
      assert Zeros(w) == Zeros(w - 1) + ['0'];
    }
  }

  /** Padding fills up with zeros. */
  lemma {:induction false} PaddedIsZerosAndNumeral(n: nat, b: nat, w: nat)
    requires Base(b) && 0 < w && Fits(n, b, w)
    ensures |Numeral(n, b)| <= w && Padded(n, b, w) == Zeros(w - |Numeral(n, b)|) + Numeral(n, b)
  {
    hide Base, Digit, Zeros, Rest, Last;
    if n < b {
      PaddedZero(b, w - 1);
    } else {
      assert w > 1;
      PaddedIsZerosAndNumeral(Rest(n, b), b, w - 1);
    }
  }

  lemma {:induction false} StripPadding(k: nat, s: string)
    requires s != "" && (|s| > 1 ==> s[0] != '0')
    ensures StripZeros(Zeros(k) + s) == s
  {
    if k > 0 {
      assert (Zeros(k) + s)[1..] == Zeros(k - 1) + s;
      StripPadding(k - 1, s);
    } else {
      assert Zeros(0) + s == s;
    }
  }

  /** The trimmed numeral is the full one with its leading zeros stripped. */
  lemma TrimmedIsStripped(n: nat, b: nat, w: nat)
    requires Base(b) && 0 < w && n < Pow(b, w)
    ensures Numeral(n, b) == StripZeros(Padded(n, b, w))
  {
    hide Base, Numeral, Zeros, StripZeros, IsDigit, Fits, Pow;
    FitsBelow(n, b, w);
    PaddedIsZerosAndNumeral(n, b, w);
    NumeralCanonical(n, b);
    StripPadding(w - |Numeral(n, b)|, Numeral(n, b));
  }

  /** Reading a numeral of fixed width gives the number back exactly when the width can hold it. */
  lemma {:induction false} ValueOfPadded(n: nat, b: nat, w: nat)
    requires Base(b)
    ensures Value(Padded(n, b, w), b) == n <==> Fits(n, b, w)
    ensures Value(Padded(n, b, w), b) <= n
  {
    hide Base, Digit, DigitValue, IsDigit, Rest, Last, Value;
    if w == 0 {
      ValueEmpty(b);
    } else {
      ValueOfPadded(Rest(n, b), b, w - 1);
      DigitRoundTrip(Last(n, b), b);
      RestAndLast(n, b);
      ValueAppend(Padded(Rest(n, b), b, w - 1), Digit(Last(n, b)), b);
      Cancel(Value(Padded(Rest(n, b), b, w - 1), b), Rest(n, b), b);
    }
  }

  lemma ValueEmpty(b: nat)
    ensures Value("", b) == 0
  {
  }

  lemma Cancel(x: nat, y: nat, b: nat)
    requires Base(b)
    ensures x * b == y * b <==> x == y
    ensures x <= y ==> x * b <= y * b
  {
  }

  /** For instance. */
  lemma Examples()
    ensures Numeral(0, 10) == "0" && Numeral(1907, 10) == "1907" && Signed(-120) == "-120"
    ensures Numeral(0xBEEF, 16) == "BEEF" && Padded(0xBEEF, 16, 6) == "00BEEF"
  {
    assert Numeral(1, 10) == "1" && Numeral(19, 10) == "19" && Numeral(190, 10) == "190";
    assert Numeral(12, 10) == "12" && Numeral(120, 10) == "120";
    assert Numeral(0xB, 16) == "B" && Numeral(0xBE, 16) == "BE" && Numeral(0xBEE, 16) == "BEE";
    assert Padded(0xB, 16, 3) == "00B" && Padded(0xBE, 16, 4) == "00BE" && Padded(0xBEE, 16, 5) == "00BEE";
  }
}
