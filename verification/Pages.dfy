/** Bytes kept in separate pages, seen as one sequence. */
module Pages {
  import opened Prelude
  import opened Words

  /** Copy `n` bytes of `src` from `from` into `page` at `at`. */
  method CopyIn(page: array<Byte>, at: nat, src: seq<Byte>, from: nat, n: nat)
    requires at + n <= page.Length && from + n <= |src|
    modifies page
    ensures page[..] == Put(old(page[..]), at, src[from..from + n])
  {
    forall i | 0 <= i < n { page[at + i] := src[from + i]; }
    ghost var want := Put(old(page[..]), at, src[from..from + n]);
    forall i | 0 <= i < page.Length ensures page[i] == want[i] {}
  }

  lemma SliceSlice(b: seq<Byte>, from: nat, len: nat, at: nat, n: nat)
    requires from + len <= |b| && at + n <= len
    ensures b[from..from + len][at..at + n] == b[from + at..from + at + n]
  {
    var mid := b[from..from + len];
    var x := mid[at..at + n];
    var y := b[from + at..from + at + n];
    forall i | 0 <= i < n ensures x[i] == y[i] {
      assert mid[at + i] == b[from + at + i];
    }
  }

  /** An overlay inside page `p` changes that page's slice and no other. */
  lemma PutPage(was: seq<Byte>, pos: nat, part: seq<Byte>, p: nat, q: nat)
    requires pos + |part| <= |was| && PAGE_SIZE * p <= pos && pos + |part| <= PAGE_SIZE * p + PAGE_SIZE
    requires PAGE_SIZE * q + PAGE_SIZE <= |was| && PAGE_SIZE * p + PAGE_SIZE <= |was|
    ensures var a := Put(was, pos, part)[PAGE_SIZE * q..PAGE_SIZE * q + PAGE_SIZE];
            var b := was[PAGE_SIZE * q..PAGE_SIZE * q + PAGE_SIZE];
            a == if q == p then Put(b, pos - PAGE_SIZE * p, part) else b
  {
    var whole := Put(was, pos, part);
    var base := PAGE_SIZE * q;
    var a := whole[base..base + PAGE_SIZE];
    var b := was[base..base + PAGE_SIZE];
    if q == p {
      var at := pos - base;
      var c := Put(b, at, part);
      forall i | 0 <= i < PAGE_SIZE ensures a[i] == c[i] {
        assert a[i] == whole[base + i] && b[i] == was[base + i];
        if at <= i < at + |part| { assert c[i] == part[i - at] == whole[base + i]; }
      }
    } else {
      forall i | 0 <= i < PAGE_SIZE ensures a[i] == b[i] {
        assert a[i] == whole[base + i] && b[i] == was[base + i];
      }
    }
  }

  lemma PutTwice(was: seq<Byte>, off: nat, src: seq<Byte>, n: nat, chunk: nat)
    requires off + |src| <= |was| && n + chunk <= |src|
    ensures Put(Put(was, off, src[..n]), off + n, src[n..n + chunk]) == Put(was, off, src[..n + chunk])
  {
    var a := Put(Put(was, off, src[..n]), off + n, src[n..n + chunk]);
    var b := Put(was, off, src[..n + chunk]);
    forall i | 0 <= i < |was| ensures a[i] == b[i] {}
  }
}
