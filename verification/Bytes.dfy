/** Fixed-width unsigned integers, their little-endian byte encodings, and small shared definitions. */
module Bytes {
  type uint8 = x: int | 0 <= x < 0x100
  type uint16 = x: int | 0 <= x < 0x1_0000
  type uint32 = x: int | 0 <= x < 0x1_0000_0000

  type bytes = seq<uint8>

  datatype Option<+T> = None | Some(value: T)

  function Min(a: int, b: int): int {
    if a < b then a else b
  }

  function Max(a: int, b: int): int {
    if a < b then b else a
  }

  function Pow2(n: nat): (r: nat)
    ensures r > 0
  {
    if n == 0 then 1 else 2 * Pow2(n - 1)
  }

  ghost predicate Sorted(ids: seq<nat>) {
    forall i, j | 0 <= i < j < |ids| :: ids[i] < ids[j]
  }

  // The elements of `part` stand in `whole` at increasing places.
  ghost predicate Subsequence<T>(part: seq<T>, whole: seq<T>) {
    exists at: seq<nat> ::
      |at| == |part| && Sorted(at) && forall i | 0 <= i < |at| :: at[i] < |whole| && whole[at[i]] == part[i]
  }

  lemma SubsequenceWithin<T>(part: seq<T>, whole: seq<T>, more: seq<T>)
    requires Subsequence(part, whole) && whole <= more
    ensures Subsequence(part, more)
  {
  }

  lemma SubsequenceNext<T>(part: seq<T>, whole: seq<T>, next: T)
    requires Subsequence(part, whole)
    ensures Subsequence(part + [next], whole + [next])
  {
    var at: seq<nat> :|
      |at| == |part| && Sorted(at) && forall i | 0 <= i < |at| :: at[i] < |whole| && whole[at[i]] == part[i];
    var at' := at + [|whole|];
    assert |at'| == |part + [next]| && Sorted(at')
           && forall i | 0 <= i < |at'| :: at'[i] < |whole + [next]| && (whole + [next])[at'[i]] == (part + [next])[i];
  }

  lemma SubsequenceNone<T>(whole: seq<T>)
    ensures Subsequence([], whole)
  {
    var at: seq<nat> := [];
    assert |at| == 0 && Sorted(at);
  }

  // Behind one element more, kept or not
  lemma SubsequenceBehind<T>(part: seq<T>, whole: seq<T>, first: T)
    requires Subsequence(part, whole)
    ensures Subsequence(part, [first] + whole)
  {
    var at: seq<nat> :|
      |at| == |part| && Sorted(at) && forall i | 0 <= i < |at| :: at[i] < |whole| && whole[at[i]] == part[i];
    var later: seq<nat> := seq(|at|, i requires 0 <= i < |at| => at[i] + 1);
    var all := [first] + whole;
    assert |later| == |part| && Sorted(later)
           && forall i | 0 <= i < |later| :: later[i] < |all| && all[later[i]] == part[i];
  }

  lemma SubsequenceFirst<T>(part: seq<T>, whole: seq<T>, first: T)
    requires Subsequence(part, whole)
    ensures Subsequence([first] + part, [first] + whole)
  {
    var all := [first] + whole;
    var at: seq<nat> :|
      |at| == |part| && Sorted(at) && forall i | 0 <= i < |at| :: at[i] < |whole| && whole[at[i]] == part[i];
    var later: seq<nat> := [0] + seq(|at|, i requires 0 <= i < |at| => at[i] + 1);
    assert |later| == |[first] + part| && Sorted(later)
           && forall i | 0 <= i < |later| :: later[i] < |all| && all[later[i]] == ([first] + part)[i];
  }

  function Zeros(n: nat): (r: bytes)
    ensures |r| == n && forall i | 0 <= i < n :: r[i] == 0
  {
    seq(n, _ => 0)
  }

  // Little-endian halves: a 16-bit value is two bytes, a 32-bit value two 16-bit ones.
  function LE16(x: uint16): (r: bytes)
    ensures |r| == 2
  {
    [x % 0x100, x / 0x100]
  }

  function LE32(x: uint32): (r: bytes)
    ensures |r| == 4
  {
    LE16(x % 0x1_0000) + LE16(x / 0x1_0000)
  }

  function FromLE16(b0: uint8, b1: uint8): uint16 {
    b0 + 0x100 * b1
  }

  function FromLE32(b0: uint8, b1: uint8, b2: uint8, b3: uint8): uint32 {
    FromLE16(b0, b1) + 0x1_0000 * FromLE16(b2, b3)
  }

  lemma LE16RoundTrip(x: uint16)
    ensures var b := LE16(x); FromLE16(b[0], b[1]) == x
  {
  }

  lemma LE16OfBytes(b0: uint8, b1: uint8)
    ensures LE16(FromLE16(b0, b1)) == [b0, b1]
  {
  }

  lemma LE32RoundTrip(x: uint32)
    ensures var b := LE32(x); FromLE32(b[0], b[1], b[2], b[3]) == x
  {
    LE16RoundTrip(x % 0x1_0000);
    LE16RoundTrip(x / 0x1_0000);
    hide LE16, FromLE16;
  }

  lemma LE32OfBytes(b0: uint8, b1: uint8, b2: uint8, b3: uint8)
    ensures LE32(FromLE32(b0, b1, b2, b3)) == [b0, b1, b2, b3]
  {
    LE16OfBytes(b0, b1);
    LE16OfBytes(b2, b3);
    hide LE16, FromLE16;
  }

  // std::memcpy into a buffer
  method CopyInto(a: array<uint8>, at: nat, source: bytes)
    requires at + |source| <= a.Length
    modifies a
    ensures a[..] == old(a[..at]) + source + old(a[at + |source|..])
  {
    forall i | 0 <= i < |source| {
      a[at + i] := source[i];
    }
    assert a[..] == a[..at] + a[at..at + |source|] + a[at + |source|..];
    assert a[at..at + |source|] == source;
  }
}
