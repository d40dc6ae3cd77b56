/** Canonicalisation of a path in a 256-byte buffer. */
module Path {
  import opened PathSpec

  /** The character at `i`, or the terminator. */
  function CharAt(p: string, i: nat): char { if i < |p| then p[i] else '\0' }

  predicate EndsHere(p: string, i: nat) { CharAt(p, i) == '/' || i >= |p| }

  lemma WalkOne(p: string, i: nat, dir: seq<string>)
    requires i < |p| && p[i] != '/'
    ensures Walk(dir, Comps(p, i)) == Walk(Enter(dir, p[i..CompEnd(p, i)]), Comps(p, CompEnd(p, i)))
  {
    var cs := Comps(p, i);
    assert cs[1..] == Comps(p, CompEnd(p, i));
  }

  lemma DotEnds(p: string, i: nat, n: nat)
    requires i + n <= |p| && 0 < n && EndsHere(p, i + n) && forall k :: i <= k < i + n ==> p[k] != '/'
    ensures CompEnd(p, i) == i + n
  {
  }

  lemma SkipSlash(p: string, i: nat)
    requires i <= |p| && EndsHere(p, i)
    ensures i < |p| ==> Comps(p, i) == Comps(p, i + 1)
    ensures i == |p| ==> Comps(p, i) == []
  {
  }

  lemma RenderLength(dir: seq<string>)
    requires AllComps(dir)
    ensures |Render(dir)| == 0 <==> dir == []
    ensures dir != [] ==> |Render(dir)| >= 2
  {
    if dir != [] { assert IsComp(dir[|dir| - 1]); }
  }

  /** Drop the last component of the text, leaving its slash. */
  method Up(tmp: string, ghost dir: seq<string>, ghost slash: bool) returns (t: string)
    requires AllComps(dir) && tmp == Text(dir, slash)
    ensures if dir == [] then t == tmp else t == Text(dir[..|dir| - 1], true)
    ensures |t| <= |tmp|
  {
    t := tmp;
    RenderLength(dir);
    if |t| <= 1 { return; }
    ghost var front, last := dir[..|dir| - 1], dir[|dir| - 1];
    assert IsComp(last);
    ghost var base := Render(front) + "/";
    assert Render(dir) == base + last;
    t := t[..|t| - 1];
    while |t| > 1 && t[|t| - 1] != '/'
      invariant |base| <= |t| <= |tmp| && t == (base + last)[..|t|]
      decreases |t|
    {
      t := t[..|t| - 1];
    }
    assert t == base;
  }

  /** Copy the component at `i`, as far as it fits. */
  method CopyComp(p: string, i: nat, tmp: string) returns (t: string, j: nat)
    requires i < |p| && |tmp| < PATH_MAX
    ensures i <= j <= CompEnd(p, i) && t == tmp + p[i..j] && |t| < PATH_MAX
    ensures j < CompEnd(p, i) ==> |t| == PATH_MAX - 1
  {
    t, j := tmp, i;
    while j < |p| && p[j] != '/' && |t| + 1 < PATH_MAX
      invariant i <= j <= CompEnd(p, i) && t == tmp + p[i..j] && |t| < PATH_MAX
      decreases |p| - j
    {
      t := t + [p[j]];
      assert p[i..j + 1] == p[i..j] + [p[j]];
      j := j + 1;
    }
  }

  function Extra(p: string): nat { if CharAt(p, 0) == '/' then 0 else 1 }

  /** The text written so far is never ahead of the text read, and one behind before a
      component. */
  predicate Paced(p: string, i: nat, n: nat) {
    n <= i + Extra(p) && n < PATH_MAX && (0 < i < |p| && p[i] != '/' ==> n + 1 <= i + Extra(p))
  }

  /** Done up to `i` without loss, or the last character did not fit. */
  ghost predicate Going(p: string, i: nat, tmp: string, dir: seq<string>, slash: bool)
    requires i <= |p|
  {
    AllComps(dir) && tmp == Text(dir, slash) && Walk(dir, Comps(p, i)) == Meaning(p) && Paced(p, i, |tmp|)
    && (i == 0 && CharAt(p, 0) != '/' ==> slash)
  }

  ghost predicate Cut(p: string, tmp: string) {
    var full := Render(Meaning(p));
    AllComps(Meaning(p)) && |full| == PATH_MAX && tmp == full[..PATH_MAX - 1]
  }

  lemma DotIs(p: string, i: nat)
    requires i < |p| && p[i] == '.' && EndsHere(p, i + 1)
    ensures CompEnd(p, i) == i + 1 && p[i..i + 1] == "."
  {
    DotEnds(p, i, 1);
  }

  lemma DotDotIs(p: string, i: nat)
    requires i + 1 < |p| && p[i] == '.' && p[i + 1] == '.' && EndsHere(p, i + 2)
    ensures CompEnd(p, i) == i + 2 && p[i..i + 2] == ".."
  {
    DotEnds(p, i, 2);
  }

  /** A component that does not lengthen the text, and the slash after it. */
  lemma DotStep(p: string, i: nat, j: nat, tmp: string, dir: seq<string>, slash: bool, t: string, up: seq<string>,
                upSlash: bool)
    requires i < |p| && p[i] != '/' && j == CompEnd(p, i) && i < j
    requires Going(p, i, tmp, dir, slash) && AllComps(up) && t == Text(up, upSlash) && |t| <= |tmp|
    requires up == Enter(dir, p[i..j])
    ensures var next := if j < |p| then j + 1 else j; Going(p, next, t, up, upSlash)
  {
    WalkOne(p, i, dir);
    SkipSlash(p, j);
  }

  /** A component that fits is appended whole. */
  lemma CompStep(p: string, i: nat, tmp: string, dir: seq<string>, slash: bool, j: nat, t: string)
    requires i < |p| < PATH_MAX && p[i] != '/' && j == CompEnd(p, i) && Going(p, i, tmp, dir, slash)
    requires p[i..j] != "." && p[i..j] != ".."
    requires |t| < PATH_MAX && t == (if slash then tmp else tmp + "/") + p[i..j]
    requires slash || 0 < i
    ensures Going(p, j, t, dir + [p[i..j]], false)
  {
    WalkOne(p, i, dir);
    RenderPush(dir, p[i..j]);
    PushComps(dir, p[i..j]);
  }

  lemma RenderPush(dir: seq<string>, c: string)
    ensures Render(dir + [c]) == Render(dir) + "/" + c
  {
    var next := dir + [c];
    assert next[..|next| - 1] == dir;
  }

  /** The last component is entered and the path is at its end. */
  lemma LastComp(p: string, i: nat, dir: seq<string>)
    requires i < |p| && p[i] != '/' && CompEnd(p, i) == |p| && Walk(dir, Comps(p, i)) == Meaning(p)
    ensures Meaning(p) == Enter(dir, p[i..])
  {
    WalkOne(p, i, dir);
    assert Comps(p, |p|) == [];
    assert p[i..|p|] == p[i..];
  }

  lemma CutPlace(p: string, i: nat, n: nat, slash: bool, j: nat)
    requires i < |p| < PATH_MAX && p[i] != '/' && i <= j < CompEnd(p, i) && Paced(p, i, n) && (slash || 0 < i)
    requires n + (if slash then 0 else 1) + (j - i) == PATH_MAX - 1
    ensures CompEnd(p, i) == |p| && j + 1 == |p|
  {
  }

  lemma CutFacts(p: string, t: string, dir: seq<string>, x: char)
    requires Meaning(p) == dir && AllComps(dir) && Render(dir) == t + [x] && |t| == PATH_MAX - 1
    ensures Cut(p, t)
  {
  }

  /** Only the very last character of a 255-byte relative path can fail to fit. */
  lemma CutStep(p: string, i: nat, tmp: string, dir: seq<string>, slash: bool, j: nat, t: string)
    requires i < |p| < PATH_MAX && p[i] != '/' && i <= j < CompEnd(p, i)
    requires AllComps(dir) && tmp == Text(dir, slash) && Walk(dir, Comps(p, i)) == Meaning(p) && Paced(p, i, |tmp|)
    requires p[i..CompEnd(p, i)] != "." && p[i..CompEnd(p, i)] != ".."
    requires |t| == PATH_MAX - 1 && t == (if slash then tmp else tmp + "/") + p[i..j]
    requires slash || 0 < i
    ensures Cut(p, t)
  {
    CutPlace(p, i, |tmp|, slash, j);
    var c := p[i..];
    assert p[i..CompEnd(p, i)] == c && c == p[i..j] + [p[j]];
    assert Meaning(p) == dir + [c] by { LastComp(p, i, dir); }
    CutText(dir, slash, c, p[i..j], p[j]);
    PushComps(dir, c);
    CutFacts(p, t, dir + [c], p[j]);
  }

  lemma CutText(dir: seq<string>, slash: bool, c: string, a: string, x: char)
    requires c == a + [x]
    ensures Render(dir + [c]) == (if slash then Text(dir, slash) else Text(dir, slash) + "/") + a + [x]
  {
    RenderPush(dir, c);
  }

  lemma NotDots(p: string, i: nat)
    requires i < |p| && p[i] != '/'
    requires !(p[i] == '.' && EndsHere(p, i + 1))
    requires !(p[i] == '.' && CharAt(p, i + 1) == '.' && EndsHere(p, i + 2) && i + 2 <= |p|)
    ensures p[i..CompEnd(p, i)] != "." && p[i..CompEnd(p, i)] != ".."
  {
    var c := p[i..CompEnd(p, i)];
    assert c[0] == p[i] && (|c| > 1 ==> c[1] == p[i + 1]);
  }

  lemma EndsWithSlash(dir: seq<string>, slash: bool)
    requires AllComps(dir)
    ensures var t := Text(dir, slash); slash <==> t != "" && t[|t| - 1] == '/'
  {
    if dir != [] { assert IsComp(dir[|dir| - 1]); }
  }

  /** One component, or one run of slashes, of the loop. */
  method Next(p: string, i: nat, tmp: string, ghost dir: seq<string>, ghost slash: bool)
    returns (j: nat, t: string, ghost up: seq<string>, ghost upSlash: bool, ghost cut: bool)
    requires i < |p| < PATH_MAX && p[i] != '/' && Going(p, i, tmp, dir, slash) && |tmp| + 1 < PATH_MAX
    ensures i <= j <= |p| && (i == j ==> |t| == PATH_MAX - 1)
    ensures !cut ==> Going(p, j, t, up, upSlash)
    ensures cut ==> Cut(p, t)
  {
    cut := false;
    if p[i] == '.' && EndsHere(p, i + 1) {
      j := if CharAt(p, i + 1) == '/' then i + 2 else i + 1;
      t, up, upSlash := tmp, dir, slash;
      DotIs(p, i);
      DotStep(p, i, i + 1, tmp, dir, slash, t, up, upSlash);
      return;
    }
    if p[i] == '.' && CharAt(p, i + 1) == '.' && EndsHere(p, i + 2) && i + 2 <= |p| {
      j, t, up, upSlash := GoUp(p, i, tmp, dir, slash);
      return;
    }
    NotDots(p, i);
    j, t, up, upSlash, cut := AddComp(p, i, tmp, dir, slash);
  }

  method GoUp(p: string, i: nat, tmp: string, ghost dir: seq<string>, ghost slash: bool)
    returns (j: nat, t: string, ghost up: seq<string>, ghost upSlash: bool)
    requires i + 1 < |p| && p[i] == '.' && p[i + 1] == '.' && EndsHere(p, i + 2) && Going(p, i, tmp, dir, slash)
    ensures i < j <= |p| && Going(p, j, t, up, upSlash)
  {
    j := if CharAt(p, i + 2) == '/' then i + 3 else i + 2;
    t := Up(tmp, dir, slash);
    up, upSlash := if dir == [] then dir else dir[..|dir| - 1], dir != [] || slash;
    DotDotIs(p, i);
    if dir != [] { FrontComps(dir); }
    DotStep(p, i, i + 2, tmp, dir, slash, t, up, upSlash);
  }

  method AddComp(p: string, i: nat, tmp: string, ghost dir: seq<string>, ghost slash: bool)
    returns (j: nat, t: string, ghost up: seq<string>, ghost upSlash: bool, ghost cut: bool)
    requires i < |p| < PATH_MAX && p[i] != '/' && Going(p, i, tmp, dir, slash) && |tmp| + 1 < PATH_MAX
    requires p[i..CompEnd(p, i)] != "." && p[i..CompEnd(p, i)] != ".."
    ensures i <= j <= |p| && (i == j ==> |t| == PATH_MAX - 1)
    ensures !cut ==> Going(p, j, t, up, upSlash)
    ensures cut ==> Cut(p, t)
  {
    EndsWithSlash(dir, slash);
    t := if tmp == "" || tmp[|tmp| - 1] != '/' then tmp + "/" else tmp;
    t, j := CopyComp(p, i, t);
    up, upSlash := dir + [p[i..CompEnd(p, i)]], false;
    cut := j < CompEnd(p, i);
    if cut { CutStep(p, i, tmp, dir, slash, j, t); } else { CompStep(p, i, tmp, dir, slash, j, t); }
  }

  lemma SlashStep(p: string, i: nat, tmp: string, dir: seq<string>, slash: bool)
    requires i < |p| && p[i] == '/' && Going(p, i, tmp, dir, slash)
    ensures Going(p, i + 1, tmp, dir, slash)
  {
  }

  /** The canonical text of `p`, in a buffer of 256 bytes. */
  method Canonical(p: string) returns (out: string)
    requires |p| < PATH_MAX
    ensures |out| < PATH_MAX
    ensures |Render(Meaning(p))| < PATH_MAX ==>
              Comps(out, 0) == Meaning(p) && (out == Text(Meaning(p), false) || out == Text(Meaning(p), true))
    ensures |Render(Meaning(p))| >= PATH_MAX ==>
              |Render(Meaning(p))| == PATH_MAX && out == Render(Meaning(p))[..PATH_MAX - 1]
  {
    ghost var cut;
    out, cut := Walked(p);
    if out == "" { out := "/"; }
  }

  /** In place: the text of `path` up to its terminator at `n` is replaced. The result
      means what the path meant if and only if the canonical text fits. */
  method CanonicalizeInPlace(path: array<char>, n: nat) returns (m: nat)
    requires n < PATH_MAX <= path.Length
    modifies path
    ensures m < PATH_MAX && path[m] == '\0'
    ensures Comps(path[..m], 0) == old(Meaning(path[..n])) <==> |Render(old(Meaning(path[..n])))| < PATH_MAX
  {
    var p := path[..n];
    var out := Canonical(p);
    ghost var dir := Meaning(p);
    if |Render(dir)| >= PATH_MAX {
      MeaningComps(p, 0, []);
      CutChangesMeaning(dir);
    }
    m := 0;
    while m < |out|
      invariant m <= |out| && path[..m] == out[..m]
    {
      path[m] := out[m];
      m := m + 1;
    }
    path[m] := '\0';
    assert path[..m] == out;
  }

  lemma MeaningComps(p: string, i: nat, dir: seq<string>)
    requires i <= |p| && AllComps(dir)
    ensures AllComps(Walk(dir, Comps(p, i)))
  {
    MeaningFits(p, i, dir, |Render(dir)| + Gap(p, i));
  }

  method Walked(p: string) returns (out: string, ghost cut: bool)
    requires |p| < PATH_MAX
    ensures |out| < PATH_MAX
    ensures cut ==> Cut(p, out)
    ensures !cut ==>
              && |Render(Meaning(p))| < PATH_MAX && Comps(out, 0) == Meaning(p)
              && (out == Text(Meaning(p), false) || out == Text(Meaning(p), true))
              && (out == "" ==> Comps("/", 0) == Meaning(p))
  {
    out := if CharAt(p, 0) != '/' then "/" else "";
    var i := 0;
    ghost var dir: seq<string>, slash := [], CharAt(p, 0) != '/';
    cut := false;
    while i < |p| && |out| + 1 < PATH_MAX
      invariant i <= |p| && |out| < PATH_MAX
      invariant !cut ==> Going(p, i, out, dir, slash)
      invariant cut ==> Cut(p, out)
      decreases |p| - i, PATH_MAX - |out|
    {
      if p[i] == '/' {
        SlashStep(p, i, out, dir, slash);
        i := i + 1;
      } else {
        i, out, dir, slash, cut := Next(p, i, out, dir, slash);
      }
    }
    if !cut { Finished(p, i, out, dir, slash); }
  }

  lemma Finished(p: string, i: nat, tmp: string, dir: seq<string>, slash: bool)
    requires i <= |p| < PATH_MAX && Going(p, i, tmp, dir, slash) && (i == |p| || |tmp| + 1 >= PATH_MAX)
    ensures Meaning(p) == dir && Comps(tmp, 0) == dir && |Render(dir)| < PATH_MAX
    ensures tmp == "" ==> Comps("/", 0) == dir
  {
    if i < |p| {
      assert i + 1 == |p| && p[i] == '/';
      SkipSlash(p, i);
      assert Comps(p, i + 1) == [];
    }
    RenderRoundTrip(dir, slash);
    RenderLength(dir);
    assert Comps("/", 1) == [];
  }

  /** The buffer decides: the canonical text means what the path means if and only if
      the directory's text fits with its terminator. */
  lemma CutChangesMeaning(dir: seq<string>)
    requires AllComps(dir) && |Render(dir)| == PATH_MAX
    ensures Comps(Render(dir)[..PATH_MAX - 1], 0) != dir
  {
    RenderLength(dir);
    var front, last := dir[..|dir| - 1], dir[|dir| - 1];
    assert IsComp(last);
    FrontComps(dir);
    var cut := Render(dir)[..PATH_MAX - 1];
    if |last| == 1 {
      assert cut == Text(front, true);
      RenderRoundTrip(front, true);
    } else {
      var short := last[..|last| - 1];
      RenderPush(front, short);
      assert cut == Render(front + [short]);
      PushComps(front, short);
      RenderBack(front + [short]);
      assert (front + [short])[|front|] != dir[|front|];
    }
  }

  /** An absolute path, or a relative one of at most 254 bytes, always fits. */
  lemma {:induction false} MeaningFits(p: string, i: nat, dir: seq<string>, n: nat)
    requires i <= |p| && AllComps(dir) && |Render(dir)| + Gap(p, i) <= n
    ensures AllComps(Walk(dir, Comps(p, i))) && |Render(Walk(dir, Comps(p, i)))| <= n + |p| - i
    decreases |p| - i, 1
  {
    if i < |p| {
      if p[i] == '/' {
        MeaningFits(p, i + 1, dir, n + 1);
      } else {
        CompFits(p, i, dir, n);
      }
    }
  }

  /** The slash still to be written before the component at `i`. */
  function Gap(p: string, i: nat): nat { if EndsHere(p, i) then 0 else 1 }

  lemma CompFits(p: string, i: nat, dir: seq<string>, n: nat)
    requires i < |p| && p[i] != '/' && AllComps(dir) && |Render(dir)| + 1 <= n
    ensures AllComps(Walk(dir, Comps(p, i))) && |Render(Walk(dir, Comps(p, i)))| <= n + |p| - i
    decreases |p| - i, 0
  {
    var j := CompEnd(p, i);
    var c := p[i..j];
    WalkOne(p, i, dir);
    assert IsComp(c);
    EnterFits(dir, c);
    MeaningFits(p, j, Enter(dir, c), n + (j - i));
  }

  lemma EnterFits(dir: seq<string>, c: string)
    requires AllComps(dir) && IsComp(c)
    ensures AllComps(Enter(dir, c)) && |Render(Enter(dir, c))| <= |Render(dir)| + 1 + |c|
    ensures |Enter(dir, c)| <= |dir| ==> |Render(Enter(dir, c))| <= |Render(dir)|
  {
    if c == "." {
    } else if c == ".." {
      if dir != [] { FrontComps(dir); }
    } else {
      RenderPush(dir, c);
      PushComps(dir, c);
    }
  }

  lemma ShortEnough(p: string)
    requires |p| < PATH_MAX && (CharAt(p, 0) == '/' || |p| + 1 < PATH_MAX)
    ensures |Render(Meaning(p))| < PATH_MAX
  {
    MeaningFits(p, 0, [], Extra(p));
  }

  lemma NameMeans(c: string)
    requires IsComp(c) && c != "." && c != ".."
    ensures Meaning(c) == [c] && |Render(Meaning(c))| == |c| + 1
  {
    CompEndOfComp(c, 0);
    assert c[0..|c|] == c && Comps(c, |c|) == [];
    var cs: seq<string> := [c];
    assert Comps(c, 0) == cs && cs[1..] == [];
    assert Enter([], c) == [] + [c] == cs;
    assert Walk(cs, []) == cs;
    RenderPush([], c);
  }

  /** A name of 255 bytes, given relative: its directory needs 256 bytes of text, and what
      fits in the buffer means something else. */
  lemma LongNameIsCut(c: string)
    requires IsComp(c) && |c| == PATH_MAX - 1
    ensures |Render(Meaning(c))| == PATH_MAX && Comps(Render(Meaning(c))[..PATH_MAX - 1], 0) != Meaning(c)
  {
    NameMeans(c);
    assert AllComps([c]);
    CutChangesMeaning([c]);
  }

  /** There is one: 255 times the letter a. */
  lemma LettersAreCut()
    ensures var c := seq(PATH_MAX - 1, _ => 'a');
            |c| < PATH_MAX == |Render(Meaning(c))| && Comps(Render(Meaning(c))[..PATH_MAX - 1], 0) != Meaning(c)
  {
    LongNameIsCut(seq(PATH_MAX - 1, _ => 'a'));
  }
}
