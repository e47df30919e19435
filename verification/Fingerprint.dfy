/** The source fingerprint of the acceptance evidence: a directory is hashed as
    the sorted list of its files with their digests. */
module Fingerprint {
  import opened Wrappers
  import opened Text

  type Digest = string

  const EXCLUDED: set<string> := {"target", ".git", "node_modules"}

  predicate HexDigit(c: char) { '0' <= c <= '9' || 'a' <= c <= 'f' }

  predicate IsDigest(d: string) { |d| == 64 && forall i :: 0 <= i < |d| ==> HexDigit(d[i]) }

  /** A path as a file system can hold it: at least one part, no part empty, no
      slash in a part. */
  predicate ValidPath(p: Path) {
    p != [] && forall i :: 0 <= i < |p| ==> p[i] != "" && '/' !in p[i]
  }

  function Render(p: Path): string { Join(p, '/') }

  lemma RenderInjective(p: Path, q: Path)
    requires ValidPath(p) && ValidPath(q) && Render(p) == Render(q)
    ensures p == q
  {
    SplitJoin(p, '/');
    SplitJoin(q, '/');
  }

  // ----- the text that is hashed for a directory -----

  datatype Entry = Entry(path: string, digest: Digest)

  function Line(e: Entry): string { e.path + ":" + e.digest }

  function Content(es: seq<Entry>): string {
    if es == [] then ""
    else if |es| == 1 then Line(es[0])
    else Line(es[0]) + "\n" + Content(es[1..])
  }

  /** A digest between a colon and a line feed starts at `i`. */
  predicate MarkAt(s: string, i: int) {
    0 <= i && i + 65 < |s| && s[i] == ':' && IsDigest(s[i + 1..i + 65]) && s[i + 65] == '\n'
  }

  /** A path with such a mark in it looks like a complete record and the start of
      another one. Every path without a line feed is plain. */
  ghost predicate Plain(path: string) {
    forall i :: !MarkAt(path, i)
  }

  lemma NewlineFreeIsPlain(path: string)
    requires '\n' !in path
    ensures Plain(path)
  {
  }

  ghost predicate Digested(es: seq<Entry>) {
    forall i :: 0 <= i < |es| ==> IsDigest(es[i].digest)
  }

  ghost predicate Decodable(es: seq<Entry>) {
    Digested(es) && forall i :: 0 <= i < |es| ==> Plain(es[i].path)
  }

  /** A record may end with the digest that starts after `i`. */
  predicate EndsAt(s: string, i: int) {
    && 0 <= i && i + 65 <= |s|
    && s[i] == ':' && IsDigest(s[i + 1..i + 65]) && (i + 65 == |s| || s[i + 65] == '\n')
  }

  lemma ContentShape(es: seq<Entry>)
    requires es != [] && Digested(es)
    ensures var s, k := Content(es), |es[0].path|;
            && EndsAt(s, k) && s[..k] == es[0].path && s[k + 1..k + 65] == es[0].digest
            && (|s| == k + 65 <==> |es| == 1)
            && (|es| > 1 ==> |s| > k + 65 && s[k + 65] == '\n' && s[k + 66..] == Content(es[1..]))
  {
    var s, k := Content(es), |es[0].path|;
    assert s[..k + 65] == Line(es[0]);
    assert Line(es[0])[k + 1..] == es[0].digest;
    assert s[k + 1..k + 65] == s[..k + 65][k + 1..];
  }

  /** No record can end inside the path of the first one. */
  lemma FirstEnd(es: seq<Entry>, i: int)
    requires es != [] && Digested(es) && Plain(es[0].path) && 0 <= i < |es[0].path|
    ensures !EndsAt(Content(es), i)
  {
    var s, p := Content(es), es[0].path;
    ContentShape(es);
    assert forall j :: 0 <= j < |p| ==> p[j] == s[..|p|][j] == s[j];
    if i + 65 < |p| {
      assert p[i + 1..i + 65] == s[i + 1..i + 65];
      assert !MarkAt(p, i);
    } else if i + 65 > |p| {
      assert s[i + 1..i + 65][|p| - i - 1] == s[|p|] == ':';
    }
  }

  /** A listing is recovered from its text. */
  lemma {:induction false} ContentInjective(a: seq<Entry>, b: seq<Entry>)
    requires Decodable(a) && Decodable(b) && Content(a) == Content(b)
    ensures a == b
  {
    if a == [] || b == [] {
      if a != [] { ContentShape(a); }
      if b != [] { ContentShape(b); }
    } else {
      ContentShape(a);
      ContentShape(b);
      if |b[0].path| < |a[0].path| { FirstEnd(a, |b[0].path|); }
      if |a[0].path| < |b[0].path| { FirstEnd(b, |a[0].path|); }
      assert a[0] == b[0];
      if |a| > 1 {
        ContentInjective(a[1..], b[1..]);
      }
      assert a == [a[0]] + a[1..] && b == [b[0]] + b[1..];
    }
  }

  /** Plainness is exactly what a path must have: the listing of one file has no
      second reading iff its path is plain. */
  lemma UnambiguousIffPlain(path: string, d: Digest)
    requires IsDigest(d)
    ensures Plain(path) <==>
            forall es :: Digested(es) && Content(es) == Content([Entry(path, d)]) ==> es == [Entry(path, d)]
  {
    if Plain(path) {
      forall es | Digested(es) && Content(es) == Content([Entry(path, d)]) ensures es == [Entry(path, d)] {
        OneReading(path, d, es);
      }
    } else {
      var i :| MarkAt(path, i);
      var es := [Entry(path[..i], path[i + 1..i + 65]), Entry(path[i + 66..], d)];
      assert Digested(es);
      assert path == path[..i] + ":" + path[i + 1..i + 65] + "\n" + path[i + 66..];
      assert es[1..] == [es[1]];
      assert Content(es) == Content([Entry(path, d)]);
    }
  }

  lemma OneReading(path: string, d: Digest, es: seq<Entry>)
    requires IsDigest(d) && Plain(path) && Digested(es) && Content(es) == Content([Entry(path, d)])
    ensures es == [Entry(path, d)]
  {
    ContentShape([Entry(path, d)]);
    if es != [] {
      ContentShape(es);
      NoMark(path, d, |es[0].path|);
      assert es == [es[0]];
    }
  }

  lemma NoMark(path: string, d: Digest, k: nat)
    requires IsDigest(d) && Plain(path)
    ensures !MarkAt(Content([Entry(path, d)]), k)
  {
    var s := path + ":" + d;
    if k + 65 < |path| {
      assert path[k + 1..k + 65] == s[k + 1..k + 65];
      assert !MarkAt(path, k);
    } else if |path| < k + 65 < |s| {
      assert s[k + 65] == d[k + 65 - |path| - 1];
    }
  }

  // ----- the order of the listing -----

  predicate StringLess(a: string, b: string) {
    b != "" && (a == "" || (if a[0] == b[0] then StringLess(a[1..], b[1..]) else a[0] < b[0]))
  }

  /** Paths compare part by part. */
  predicate PathLess(a: Path, b: Path) {
    b != [] && (a == [] || (if a[0] == b[0] then PathLess(a[1..], b[1..]) else StringLess(a[0], b[0])))
  }

  lemma {:induction false} StringTotal(a: string, b: string)
    ensures a != b <==> StringLess(a, b) || StringLess(b, a)
    ensures !(StringLess(a, b) && StringLess(b, a))
  {
    if a != "" && b != "" && a[0] == b[0] {
      StringTotal(a[1..], b[1..]);
      assert a == [a[0]] + a[1..] && b == [b[0]] + b[1..];
    }
  }

  lemma {:induction false} StringTransitive(a: string, b: string, c: string)
    requires StringLess(a, b) && StringLess(b, c)
    ensures StringLess(a, c)
  {
    if a != "" && a[0] == b[0] == c[0] { StringTransitive(a[1..], b[1..], c[1..]); }
  }

  lemma {:induction false} PathTotal(a: Path, b: Path)
    ensures a != b <==> PathLess(a, b) || PathLess(b, a)
    ensures !(PathLess(a, b) && PathLess(b, a))
  {
    if a != [] && b != [] {
      if a[0] == b[0] {
        PathTotal(a[1..], b[1..]);
        assert a == [a[0]] + a[1..] && b == [b[0]] + b[1..];
      } else {
        StringTotal(a[0], b[0]);
      }
    }
  }

  lemma {:induction false} PathTransitive(a: Path, b: Path, c: Path)
    requires PathLess(a, b) && PathLess(b, c)
    ensures PathLess(a, c)
  {
    if a != [] {
      if a[0] == b[0] == c[0] {
        PathTransitive(a[1..], b[1..], c[1..]);
      } else {
        StringTotal(a[0], b[0]);
        StringTotal(b[0], c[0]);
        StringTotal(a[0], c[0]);
        if a[0] != b[0] && b[0] != c[0] { StringTransitive(a[0], b[0], c[0]); }
      }
    }
  }

  ghost predicate Sorted(ps: seq<Path>) {
    forall i, j :: 0 <= i < j < |ps| ==> PathLess(ps[i], ps[j])
  }

  function Insert(p: Path, ps: seq<Path>): (r: seq<Path>)
    ensures forall q :: q in r <==> q == p || q in ps
    ensures |r| == |ps| + 1
  {
    if ps == [] then [p]
    else if PathLess(p, ps[0]) then [p] + ps
    else [ps[0]] + Insert(p, ps[1..])
  }

  lemma {:induction false} InsertSorted(p: Path, ps: seq<Path>)
    requires Sorted(ps) && p !in ps
    ensures Sorted(Insert(p, ps))
  {
    if ps != [] {
      if PathLess(p, ps[0]) {
        forall j | 1 <= j < |ps| ensures PathLess(p, ps[j]) { PathTransitive(p, ps[0], ps[j]); }
      } else {
        var rest := Insert(p, ps[1..]);
        InsertSorted(p, ps[1..]);
        forall j | 0 <= j < |rest| ensures PathLess(ps[0], rest[j]) {
          assert rest[j] in rest;
          if rest[j] == p { PathTotal(p, ps[0]); }
        }
      }
    }
  }

  function SortPaths(ps: seq<Path>): (r: seq<Path>)
    ensures forall q :: q in r <==> q in ps
  {
    if ps == [] then [] else Insert(ps[0], SortPaths(ps[1..]))
  }

  lemma {:induction false} SortPathsSorted(ps: seq<Path>)
    requires Distinct(ps)
    ensures Sorted(SortPaths(ps))
  {
    if ps != [] {
      SortPathsSorted(ps[1..]);
      assert ps[0] !in ps[1..];
      InsertSorted(ps[0], SortPaths(ps[1..]));
    }
  }

  /** A set of paths has one sorted listing. */
  lemma {:induction false} SortedUnique(a: seq<Path>, b: seq<Path>)
    requires Sorted(a) && Sorted(b) && forall p :: p in a <==> p in b
    ensures a == b
  {
    assert a != [] ==> a[0] in b;
    assert b != [] ==> b[0] in a;
    if a != [] {
      assert a[0] == b[0] by { PathTotal(a[0], b[0]); }
      forall p ensures p in a[1..] <==> p in b[1..] {
        PathTotal(a[0], a[0]);
        assert p in a[1..] ==> p in a && p != a[0];
        assert p in b[1..] ==> p in b && p != b[0];
      }
      SortedUnique(a[1..], b[1..]);
      assert a == [a[0]] + a[1..] && b == [b[0]] + b[1..];
    }
  }
}
