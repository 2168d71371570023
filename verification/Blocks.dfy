/**
 * Byte strings as blocks of the OCaml runtime, on a 64-bit machine: whole words, in which the last byte counts the
 * padding bytes before it, and these are 0.
 */
module Blocks {
  import opened Bytes

  /** The largest block, in words. */
  const MAX_WORDS: nat := 0x3F_FFFF_FFFF_FFFF

  function BlockLength(len: nat): (n: nat)
    ensures len < n <= len + 8 && n % 8 == 0
  {
    (len / 8 + 1) * 8
  }

  predicate Fits(len: nat) { len / 8 + 1 <= MAX_WORDS }

  /** Everything after the first len bytes. */
  ghost predicate Padded(b: seq<byte>, len: nat) {
    && |b| == BlockLength(len) && Fits(len)
    && (forall k :: len <= k < |b| - 1 ==> b[k] == 0)
    && b[|b| - 1] == |b| - 1 - len
  }

  /** The block of the string s. */
  ghost predicate IsBlock(b: seq<byte>, s: seq<byte>) {
    Padded(b, |s|) && b[..|s|] == s
  }

  lemma {:induction false} BlockBounds(b: seq<byte>, s: seq<byte>)
    requires IsBlock(b, s)
    ensures |s| < |b| && b[|s|] == 0 && b[..|s|] == s && Fits(|s|)
    ensures forall k | 0 <= k < |s| :: b[k] == s[k]
  {
    forall k | 0 <= k < |s| ensures b[k] == s[k] { assert b[..|s|][k] == b[k]; }
  }

  /** Filling in the first bytes of a new block. */
  lemma {:induction false} Filled(w: seq<byte>, s: seq<byte>, b: seq<byte>)
    requires Padded(w, |s|) && b == s + w[|s|..]
    ensures IsBlock(b, s)
  {
    forall k | |s| <= k < |b| ensures b[k] == w[k] { assert w[|s|..][k - |s|] == w[k]; }
  }

  /** A block has room for one more byte 0 than its string is long: that byte is padding, or counts no padding. */
  lemma {:induction false} ZeroAfter(b: seq<byte>, len: nat)
    requires Padded(b, len)
    ensures b[len] == 0
  {
  }

  /** The bytes of the string are not initialised; None where the runtime raises Out_of_memory. */
  method AllocString(len: nat) returns (r: array?<byte>)
    ensures r == null <==> !Fits(len)
    ensures r != null ==> fresh(r) && Padded(r[..], len) && r.Length > len
  {
    if len / 8 + 1 > MAX_WORDS { return null; }
    var size := BlockLength(len);
    r := new byte[size];
    var k := size - 8;
    while k < size
      invariant size - 8 <= k <= size
      invariant forall j | size - 8 <= j < k :: r[j] == 0
    {
      r[k] := 0;
      k := k + 1;
    }
    r[size - 1] := size - 1 - len;
  }

  method StringLength(a: array<byte>, ghost s: seq<byte>) returns (len: nat)
    requires IsBlock(a[..], s)
    ensures len == |s|
  {
    len := a.Length - 1 - a[a.Length - 1];
  }

  method Memcpy(r: array<byte>, a: array<byte>, count: nat)
    requires a != r && count <= r.Length && count <= a.Length
    modifies r
    ensures r[..] == a[..count] + old(r[count..])
  {
    for i := 0 to count
      invariant forall k | 0 <= k < i :: r[k] == a[k]
      invariant forall k | i <= k < r.Length :: r[k] == old(r[k])
    {
      r[i] := a[i];
    }
  }

  method Bzero(r: array<byte>, from: nat, count: nat)
    requires from + count <= r.Length
    modifies r
    ensures r[..] == old(r[..from]) + Zeros(count) + old(r[from + count..])
  {
    for i := 0 to count
      invariant forall k | 0 <= k < from :: r[k] == old(r[k])
      invariant forall k | from <= k < from + i :: r[k] == 0
      invariant forall k | from + i <= k < r.Length :: r[k] == old(r[k])
    {
      r[from + i] := 0;
    }
  }
}
