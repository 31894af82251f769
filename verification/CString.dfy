/**
 NUL-terminated strings in a buffer, as libc/string.c walks, reverses and fills them.
 */
module CString {

  const NUL: char := '\0'

  /** The buffer holds a string of `n` characters. */
  predicate Holds(buffer: seq<char>, n: nat) {
    && n < |buffer| && buffer[n] == NUL
    && forall i :: 0 <= i < n ==> buffer[i] != NUL
  }

  lemma OneLength(buffer: seq<char>, m: nat, n: nat)
    requires Holds(buffer, m) && Holds(buffer, n)
    ensures m == n
  {
  }

  /** strlen: the place of the first NUL, for any buffer that has one. */
  method Length(s: array<char>) returns (n: nat)
    requires NUL in s[..]
    ensures Holds(s[..], n)
  {
    n := 0;
    while s[n] != NUL
      invariant n < s.Length && NUL !in s[..n]
      decreases s.Length - n
    {
      assert NUL in s[..] && s[..n + 1] == s[..n] + [s[n]];
      n := n + 1;
    }
  }

  /** The string read from its end. */
  function Backwards(s: string): (r: string)
    ensures |r| == |s| && forall k :: 0 <= k < |s| ==> r[k] == s[|s| - 1 - k]
  {
    seq(|s|, k requires 0 <= k < |s| => s[|s| - 1 - k])
  }

  /** Mirroring the first `n` places of a buffer. */
  lemma MirroredIsBackwards(was: seq<char>, now: seq<char>, n: nat)
    requires n <= |was| == |now|
    requires forall k :: 0 <= k < n ==> now[k] == was[n - 1 - k]
    requires forall k :: n <= k < |was| ==> now[k] == was[k]
    ensures now == Backwards(was[..n]) + was[n..]
  {
  }

  /** reverse: swaps from both ends inwards, up to the terminator. */
  method Reverse(s: array<char>, ghost n: nat)
    requires Holds(s[..], n)
    modifies s
    ensures s[..] == Backwards(old(s[..n])) + old(s[n..])
    ensures Holds(s[..], n)
  {
    ghost var was := s[..];
    var m: int := Length(s);
    OneLength(s[..], m, n);
    var i, j := 0, m - 1;
    while i < j
      invariant 0 <= i <= n && j == n - 1 - i && i <= j + 1
      invariant forall k :: 0 <= k < i ==> s[k] == was[n - 1 - k] && s[n - 1 - k] == was[k]
      invariant forall k :: i <= k <= j || n <= k < s.Length ==> s[k] == was[k]
    {
      s[i], s[j] := s[j], s[i];
      i, j := i + 1, j - 1;
    }
    MirroredIsBackwards(was, s[..], n);
  }
}
