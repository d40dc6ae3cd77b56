/** Little-endian words in byte memory, and writes that leave the rest alone. */
module Words {
  type Byte = int

  function Pow256(n: nat): nat { if n == 0 then 1 else 256 * Pow256(n - 1) }

  /** `v` in `n` bytes, low byte first. */
  function Le(v: nat, n: nat): (s: seq<Byte>)
    ensures |s| == n
  {
    if n == 0 then [] else [v % 256] + Le(v / 256, n - 1)
  }

  function FromLe(s: seq<Byte>): int {
    if s == [] then 0 else s[0] + 256 * FromLe(s[1..])
  }

  lemma {:induction false} LeRoundTrip(v: nat, n: nat)
    requires v < Pow256(n)
    ensures FromLe(Le(v, n)) == v
  {
    if n > 0 {
      LeRoundTrip(v / 256, n - 1);
      var s := Le(v, n);
      assert s[1..] == Le(v / 256, n - 1);
      assert v == v % 256 + 256 * (v / 256);
    }
  }

  const WORD: nat := 8

  const WORD_LIMIT: nat := 0x1_0000_0000_0000_0000

  predicate IsWord(v: int) { 0 <= v < WORD_LIMIT }

  lemma WordRoundTrip(v: nat)
    requires IsWord(v)
    ensures FromLe(Le(v, WORD)) == v
  {
    assert Pow256(8) == WORD_LIMIT;
    LeRoundTrip(v, WORD);
  }

  /** `part` over the bytes at `at`. */
  function Put(m: seq<Byte>, at: nat, part: seq<Byte>): (r: seq<Byte>)
    requires at + |part| <= |m|
    ensures |r| == |m|
  {
    m[..at] + part + m[at + |part|..]
  }

  /** `r` agrees with `m` from `at` on. */
  predicate SameFrom(m: seq<Byte>, r: seq<Byte>, at: nat) { |r| == |m| && at <= |m| && r[at..] == m[at..] }

  lemma PutAt(m: seq<Byte>, at: nat, part: seq<Byte>)
    requires at + |part| <= |m|
    ensures Put(m, at, part)[at..at + |part|] == part && SameFrom(m, Put(m, at, part), at + |part|)
    ensures forall i :: 0 <= i < |m| ==> Put(m, at, part)[i] == if at <= i < at + |part| then part[i - at] else m[i]
  {
  }

  lemma SameFromWeaken(m: seq<Byte>, r: seq<Byte>, at: nat, b: nat)
    requires SameFrom(m, r, at) && at <= b <= |m|
    ensures SameFrom(m, r, b)
  {
    assert r[b..] == r[at..][b - at..] && m[b..] == m[at..][b - at..];
  }

  lemma SameFromSlice(m: seq<Byte>, r: seq<Byte>, at: nat, p: nat, q: nat)
    requires SameFrom(m, r, at) && at <= p <= q <= |m|
    ensures r[p..q] == m[p..q]
  {
    SameFromWeaken(m, r, at, p);
    assert r[p..q] == r[p..][..q - p] && m[p..q] == m[p..][..q - p];
  }

  function ReadWord(m: seq<Byte>, p: nat): int
    requires p + 8 <= |m|
  {
    FromLe(m[p..p + 8])
  }
}
