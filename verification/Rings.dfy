/** Circular buffers as sequences. */
module Rings {

  /** Position `p` of a ring of `cap` slots, for `p` less than two laps. */
  function Wrap(p: nat, cap: nat): nat { if p >= cap then p - cap else p }

  /** The `n` elements of the ring `b` from slot `at`, going round. */
  function Window<T>(b: seq<T>, at: nat, n: nat): seq<T>
    requires at < |b| && n <= |b|
  {
    seq(n, i requires 0 <= i < n => b[Wrap(at + i, |b|)])
  }

  lemma WrapIsMod(p: nat, cap: nat)
    requires p < 2 * cap
    ensures p % cap == Wrap(p, cap)
  {
    if p >= cap { assert p == cap + (p - cap); }
  }

  lemma WindowHead<T>(b: seq<T>, at: nat, n: nat)
    requires at < |b| && 0 < n <= |b|
    ensures Window(b, at, n) == [b[at]] + Window(b, Wrap(at + 1, |b|), n - 1)
  {
    var whole := Window(b, at, n);
    var tail := Window(b, Wrap(at + 1, |b|), n - 1);
    assert whole[0] == b[Wrap(at + 0, |b|)] == b[at];
    forall j | 0 <= j < n - 1 ensures whole[j + 1] == tail[j] {
      assert Wrap(Wrap(at + 1, |b|) + j, |b|) == Wrap(at + (j + 1), |b|);
    }
    assert whole[1..] == tail;
  }

  lemma WindowAppend<T>(b: seq<T>, at: nat, n: nat, x: T)
    requires at < |b| && n < |b|
    ensures Window(b[Wrap(at + n, |b|) := x], at, n + 1) == Window(b, at, n) + [x]
  {
    var whole := Window(b[Wrap(at + n, |b|) := x], at, n + 1);
    var parts := Window(b, at, n) + [x];
    forall i | 0 <= i < n + 1 ensures whole[i] == parts[i] {
      assert i < n ==> Wrap(at + i, |b|) != Wrap(at + n, |b|);
    }
  }

  lemma WindowUpdate<T>(b: seq<T>, at: nat, n: nat, k: nat, x: T)
    requires at < |b| && k < n <= |b|
    ensures Window(b[Wrap(at + k, |b|) := x], at, n) == Window(b, at, n)[k := x]
  {
    var whole := Window(b[Wrap(at + k, |b|) := x], at, n);
    var parts := Window(b, at, n)[k := x];
    forall i | 0 <= i < n ensures whole[i] == parts[i] {
      assert i != k ==> Wrap(at + i, |b|) != Wrap(at + k, |b|);
    }
  }

  lemma WindowTrim<T>(b: seq<T>, at: nat, n: nat)
    requires at < |b| && 0 < n <= |b|
    ensures Window(b, at, n - 1) == Window(b, at, n)[..n - 1]
  {
  }
}
