/**
 The number printers of libc/string.c, filling a buffer from the last digit: each leaves exactly
 the numeral of its argument and a terminator.
 */
module Printers {
  import opened CString
  import opened Numerals

  const INT_MIN: int := -0x8000_0000
  const INT_MAX: int := 0x7FFF_FFFF

  // ---- Reversal ----

  lemma BackwardsAppend(s: string, c: char)
    ensures Backwards(s + [c]) == [c] + Backwards(s)
  {
    assert Backwards(s + [c]) == [c] + Backwards(s);
  }

  /** The digits of `n` stand in the buffer, last digit first, below `i`; those of `rest` are to come. */
  ghost predicate Pending(all: string, rest: string, done: string) {
    all == rest + Backwards(done)
  }

  lemma PendingStep(all: string, rest: string, done: string, c: char)
    requires Pending(all, rest + [c], done)
    ensures Pending(all, rest, done + [c])
  {
    BackwardsAppend(done, c);
  }

  lemma SignStep(all: string, done: string)
    requires Pending(all, "", done)
    ensures Pending("-" + all, "", done + ['-'])
  {
    BackwardsAppend(done, '-');
  }

  lemma PendingLength(all: string, rest: string, done: string)
    requires Pending(all, rest, done)
    ensures |all| == |rest| + |done|
  {
  }

  /** What is still to come of `n` before its last digit is written. */
  function Before(n: nat, b: nat): string
    requires Base(b)
  {
    if n < b then "" else Numeral(Rest(n, b), b)
  }

  lemma BeforeLast(n: nat, b: nat)
    requires Base(b)
    ensures Numeral(n, b) == Before(n, b) + [Digit(Last(n, b))]
  {
  }

  lemma DecimalDigit(n: nat)
    ensures (n % 10 + '0' as nat) as char == Digit(Last(n, 10)) != NUL
    ensures n / 10 == Rest(n, 10)
  {
  }

  lemma HexDigit(n: nat)
    ensures DIGITS[n % 16] == Digit(Last(n, 16)) != NUL
    ensures n / 16 == Rest(n, 16)
  {
  }

  /** A finished string of length `i`, once it is turned round. */
  lemma Turned(was: seq<char>, now: seq<char>, i: nat, all: string)
    requires i < |was| && now == Backwards(was[..i]) + was[i..] && Pending(all, "", was[..i])
    ensures now[..i] == all && i == |all|
  {
  }

  /** int_to_ascii. The most negative number is excluded: negating it is undefined in C. */
  method IntToAscii(n: int, str: array<char>)
    requires INT_MIN < n <= INT_MAX && |Signed(n)| < str.Length
    modifies str
    ensures Holds(str[..], |Signed(n)|) && str[..|Signed(n)|] == Signed(n)
  {
    hide Numeral, Backwards, Pending;
    var sign, m: nat := n, if n < 0 then -n else n;
    var i := FillDigits(m, str);
    if sign < 0 {
      SignStep(Numeral(m, 10), str[..i]);
      str[i] := '-';
      assert str[..i + 1] == str[..i] + ['-'];
      i := i + 1;
    }
    str[i] := NUL;
    ghost var was := str[..];
    assert was[..i] == str[..i];
    Reverse(str, i);
    Turned(was, str[..], i, Signed(n));
  }

  /** The digit loop of int_to_ascii: at least one digit, last digit first. */
  method FillDigits(n: nat, str: array<char>) returns (i: nat)
    requires |Numeral(n, 10)| <= str.Length
    modifies str
    ensures i == |Numeral(n, 10)| && Pending(Numeral(n, 10), "", str[..i]) && NUL !in str[..i]
  {
    hide Numeral, Backwards, Pending, Digit, Last, Rest;
    ghost var all := Numeral(n, 10);
    ghost var rest := all;
    var m: nat := n;
    var more := true;
    i := 0;
    PendingStart(all);
    while more
      invariant i <= |all| && Pending(all, rest, str[..i]) && NUL !in str[..i]
      invariant rest == if more then Numeral(m, 10) else ""
      decreases more, m
    {
      DecimalDigit(m);
      BeforeLast(m, 10);
      PendingLength(all, rest, str[..i]);
      ghost var done := str[..i];
      str[i] := (m % 10 + '0' as nat) as char;
      assert str[..i + 1] == done + [str[i]];
      PendingStep(all, Before(m, 10), done, str[i]);
      PendingLength(all, Before(m, 10), str[..i + 1]);
      rest := Before(m, 10);
      i := i + 1;
      m := m / 10;
      more := m > 0;
    }
    PendingLength(all, rest, str[..i]);
  }

  lemma PendingStart(all: string)
    ensures Pending(all, all, "")
  {
  }

  const UINT_LIMIT: nat := 0x1_0000_0000
  const U64_LIMIT: nat := 0x1_0000_0000_0000_0000

  lemma UintDigits(value: nat)
    requires value < UINT_LIMIT
    ensures |Numeral(value, 10)| <= 10
  {
    hide Numeral, Fits, Padded;
    assert Pow(10, 2) == 100 && Pow(10, 4) == 100 * Pow(10, 2) && Pow(10, 6) == 100 * Pow(10, 4);
    assert Pow(10, 8) == 100 * Pow(10, 6) && Pow(10, 10) == 100 * Pow(10, 8);
    FitsBelow(value, 10, 10);
    PaddedIsZerosAndNumeral(value, 10, 10);
  }

  lemma U64Fits(value: nat)
    requires value < U64_LIMIT
    ensures Fits(value, 16, 16) && value < Pow(16, 16)
  {
    hide Fits;
    assert Pow(16, 2) == 0x100 && Pow(16, 4) == 0x100 * Pow(16, 2) && Pow(16, 6) == 0x100 * Pow(16, 4);
    assert Pow(16, 8) == 0x100 * Pow(16, 6) && Pow(16, 10) == 0x100 * Pow(16, 8);
    assert Pow(16, 12) == 0x100 * Pow(16, 10) && Pow(16, 14) == 0x100 * Pow(16, 12);
    assert Pow(16, 16) == 0x100 * Pow(16, 14);
    FitsBelow(value, 16, 16);
  }

  /** One character moves from the end of the reversed digits to the end of the output. */
  lemma CopyStep(all: string, out: string, s: string, c: char)
    requires all == out + Backwards(s + [c])
    ensures all == (out + [c]) + Backwards(s)
  {
    BackwardsAppend(s, c);
  }

  /** uint_to_ascii */
  method UintToAscii(n: nat, str: array<char>)
    requires n < UINT_LIMIT && |Numeral(n, 10)| < str.Length
    modifies str
    ensures Holds(str[..], |Numeral(n, 10)|) && str[..|Numeral(n, 10)|] == Numeral(n, 10)
  {
    hide Backwards, Pending, Last, Rest;
    var temp := new char[16];
    if n == 0 {
      str[0] := '0';
      str[1] := NUL;
      return;
    }
    hide Numeral;
    UintDigits(n);
    var i := FillPositive(n, temp);
    CopyBack(temp, i, str, Numeral(n, 10));
    str[i] := NUL;
    NumeralHolds(n, 10, str[..]);
  }

  /** The digit loop of uint_to_ascii, for a positive number. */
  method FillPositive(n: nat, temp: array<char>) returns (i: nat)
    requires n > 0 && |Numeral(n, 10)| <= temp.Length
    modifies temp
    ensures i == |Numeral(n, 10)| && Pending(Numeral(n, 10), "", temp[..i])
  {
    hide Numeral, Backwards, Pending, Digit, Last, Rest;
    ghost var all := Numeral(n, 10);
    ghost var rest := all;
    var value: nat := n;
    i := 0;
    PendingStart(all);
    while value > 0
      invariant i <= |all| && Pending(all, rest, temp[..i])
      invariant rest == if value > 0 then Numeral(value, 10) else ""
    {
      DecimalDigit(value);
      BeforeLast(value, 10);
      PendingLength(all, rest, temp[..i]);
      ghost var done := temp[..i];
      temp[i] := ('0' as nat + value % 10) as char;
      assert temp[..i + 1] == done + [temp[i]];
      PendingStep(all, Before(value, 10), done, temp[i]);
      PendingLength(all, Before(value, 10), temp[..i + 1]);
      rest := Before(value, 10);
      i := i + 1;
      value := value / 10;
    }
    PendingLength(all, rest, temp[..i]);
  }

  /** The second loop of uint_to_ascii: the digits out of `temp`, last to first. */
  method CopyBack(temp: array<char>, n: nat, str: array<char>, ghost all: string)
    requires n <= temp.Length && n <= str.Length && temp != str && Pending(all, "", temp[..n]) && |all| == n
    modifies str
    ensures str[..n] == all
  {
    hide Backwards, Pending;
    var i: nat, j: nat := n, 0;
    CopyStart(all, temp[..n]);
    while i > 0
      invariant 0 <= i <= n && j + i == n && all == str[..j] + Backwards(temp[..i])
    {
      i := i - 1;
      assert temp[..i + 1] == temp[..i] + [temp[i]];
      ghost var done := str[..j];
      CopyStep(all, done, temp[..i], temp[i]);
      str[j] := temp[i];
      assert str[..j + 1] == done + [temp[i]];
      j := j + 1;
    }
    CopyDone(all, str[..j], temp[..0]);
  }

  lemma CopyStart(all: string, digits: string)
    requires Pending(all, "", digits)
    ensures all == "" + Backwards(digits)
  {
  }

  lemma CopyDone(all: string, out: string, s: string)
    requires all == out + Backwards(s) && s == ""
    ensures out == all
  {
  }

  lemma NumeralHolds(n: nat, b: nat, buffer: seq<char>)
    requires Base(b)
    requires |Numeral(n, b)| < |buffer| && buffer[..|Numeral(n, b)|] == Numeral(n, b) && buffer[|Numeral(n, b)|] == NUL
    ensures Holds(buffer, |Numeral(n, b)|)
  {
    hide Numeral, Base;
    var k := |Numeral(n, b)|;
    forall i | 0 <= i < k ensures buffer[i] != NUL {
      PlainDigits(n, b, i);
      assert buffer[i] == buffer[..k][i];
    }
  }

  /** hex_to_string: always sixteen digits. */
  method HexToString(n: nat, buffer: array<char>)
    requires n < U64_LIMIT && 16 < buffer.Length
    modifies buffer
    ensures Holds(buffer[..], 16) && buffer[..16] == Padded(n, 16, 16)
    ensures Value(buffer[..16], 16) == n
  {
    hide Padded, Last, Rest, Value, Fits, Pow, Digit;
    var value, i: int := n, 15;
    ghost var all := Padded(n, 16, 16);
    PaddedStart(n, buffer[16..16]);
    while i >= 0
      invariant -1 <= i <= 15 && 0 <= value && all == Padded(value, 16, i + 1) + buffer[i + 1..16]
    {
      HexDigit(value);
      PaddedStep(value, i, all, buffer[i + 1..16]);
      buffer[i] := DIGITS[value % 16];
      assert buffer[i..16] == [buffer[i]] + buffer[i + 1..16];
      value := value / 16;
      i := i - 1;
    }
    buffer[16] := NUL;
    PaddedDone(value, all, buffer[0..16]);
    assert buffer[..16] == buffer[0..16];
    PaddedPlain(n, 16);
    U64Fits(n);
    ValueOfPadded(n, 16, 16);
  }

  lemma {:induction false} PaddedPlain(n: nat, w: nat)
    ensures NUL !in Padded(n, 16, w)
  {
    hide Last, Rest, Digit;
    if w > 0 {
      HexDigit(n);
      PaddedPlain(Rest(n, 16), w - 1);
    }
  }

  lemma PaddedStart(n: nat, s: string)
    requires s == ""
    ensures Padded(n, 16, 16) == Padded(n, 16, 16) + s
  {
  }

  lemma PaddedStep(value: nat, i: nat, all: string, s: string)
    requires all == Padded(value, 16, i + 1) + s
    ensures all == Padded(Rest(value, 16), 16, i) + ([Digit(Last(value, 16))] + s)
  {
  }

  lemma PaddedDone(value: nat, all: string, s: string)
    requires all == Padded(value, 16, 0) + s
    ensures all == s
  {
  }

  /** hex_to_string_trimmed: filled from the right like the full printer, then shifted to the
      front of the same buffer. */
  method HexToStringTrimmed(n: nat, buffer: array<char>)
    requires n < U64_LIMIT && 16 <= buffer.Length && |Numeral(n, 16)| < buffer.Length
    modifies buffer
    ensures Holds(buffer[..], |Numeral(n, 16)|) && buffer[..|Numeral(n, 16)|] == Numeral(n, 16)
    ensures buffer[..|Numeral(n, 16)|] == StripZeros(Padded(n, 16, 16))
  {
    hide Padded, Numeral, Fits, Pow, StripZeros;
    U64Fits(n);
    PaddedIsZerosAndNumeral(n, 16, 16);
    var i := FillHex(n, buffer);
    MoveToFront(buffer, i);
    buffer[16 - i] := NUL;
    assert buffer[..16 - i] == Numeral(n, 16);
    NumeralHolds(n, 16, buffer[..]);
    TrimmedIsStripped(n, 16, 16);
  }

  lemma Regroup(a: string, c: char, b: string)
    ensures (a + [c]) + b == a + ([c] + b)
  {
  }

  /** The digits, from place 15 downwards; returns the place of the first. */
  method FillHex(n: nat, buffer: array<char>) returns (i: int)
    requires 16 <= buffer.Length && |Numeral(n, 16)| <= 16
    modifies buffer
    ensures i == 16 - |Numeral(n, 16)| && buffer[i..16] == Numeral(n, 16)
  {
    hide Numeral, Last, Rest, Digit;
    var value: nat := n;
    ghost var all := Numeral(n, 16);
    ghost var rest := all;
    i := 15;
    while value > 0 || i == 15
      invariant -1 <= i <= 15 && all == rest + buffer[i + 1..16]
      invariant rest == if value > 0 || i == 15 then Numeral(value, 16) else ""
      decreases i
    {
      HexDigit(value);
      BeforeLast(value, 16);
      ghost var done := buffer[i + 1..16];
      buffer[i] := DIGITS[value % 16];
      assert buffer[i..16] == [buffer[i]] + done;
      Regroup(Before(value, 16), buffer[i], done);
      rest := Before(value, 16);
      value := value / 16;
      i := i - 1;
    }
    i := i + 1;
  }

  /** The shift within the buffer: what stood at `first` and behind moves to the front. */
  method MoveToFront(buffer: array<char>, first: nat)
    requires first <= 16 <= buffer.Length
    modifies buffer
    ensures buffer[..16 - first] == old(buffer[first..16])
  {
    ghost var was := buffer[..];
    var start, i := 0, first;
    while i < 16
      invariant start == i - first && i <= 16
      invariant forall k :: 0 <= k < start ==> buffer[k] == was[k + first]
      invariant forall k :: i <= k < 16 ==> buffer[k] == was[k]
    {
      buffer[start] := buffer[i];
      i, start := i + 1, start + 1;
    }
  }
}
