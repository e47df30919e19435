/** Exactly which file names make a directory fingerprint ambiguous. */
module Ambiguity {
  import opened Wrappers
  import opened Text
  import opened Fingerprint
  import opened Dependencies

  /** A file that may stand in a listing of `item`. */
  ghost predicate Listable(root: Path, item: Path, p: Path) {
    ValidPath(p) && item < p && Visible(root, p)
  }

  /** The name of `p` spells out the record of a file `a` with text `x`, and then the
      name of a later file `b` that is not below `a`. */
  ghost predicate SplitsInto(root: Path, item: Path, p: Path, a: Path, b: Path, x: string, sha: string -> Digest) {
    && Listable(root, item, a) && Listable(root, item, b) && PathLess(a, b) && !(a < b)
    && Render(p) == Render(a) + ":" + sha(x) + "\n" + Render(b)
  }

  ghost predicate Splits(root: Path, item: Path, p: Path, sha: string -> Digest) {
    exists a, b, x :: SplitsInto(root, item, p, a, b, x, sha)
  }

  /** Under the same root `u` has a directory `item` too, with the same text and files
      with other names. */
  ghost predicate Mistakable(t: Tree, u: Tree, item: Path, sha: string -> Digest)
    requires WellFormed(t) && WellFormed(u)
  {
    && u.root == t.root && item in u.others
    && Preimage(u, item, sha) == Preimage(t, item, sha) && Watched(u, item).Keys != Watched(t, item).Keys
  }

  // ----- several records read as one name -----

  /** The path whose name is that of `q`, then `mid`, then that of `m`. */
  function Glue(q: Path, mid: string, m: Path): Path
    requires q != [] && m != []
  {
    if |q| == 1 then [q[0] + mid + m[0]] + m[1..] else [q[0]] + Glue(q[1..], mid, m)
  }

  lemma {:induction false} RenderGlue(q: Path, mid: string, m: Path)
    requires q != [] && m != []
    ensures Glue(q, mid, m) != [] && Render(Glue(q, mid, m)) == Render(q) + mid + Render(m)
  {
    var g := Glue(q, mid, m);
    if |q| == 1 {
      assert g[1..] == m[1..];
      if |m| > 1 {
        assert Render(g) == (q[0] + mid + m[0]) + "/" + Join(m[1..], '/');
      }
    } else {
      RenderGlue(q[1..], mid, m);
      assert g[1..] == Glue(q[1..], mid, m);
      assert Render(g) == q[0] + "/" + (Render(q[1..]) + mid + Render(m));
    }
  }

  lemma {:induction false} GlueListable(root: Path, item: Path, q: Path, mid: string, m: Path)
    requires q != [] && ValidPath(m) && Visible(root, m) && '\n' in mid && '/' !in mid
    requires forall i :: 0 <= i < |q| ==> q[i] != "" && '/' !in q[i] && q[i] !in EXCLUDED
    ensures ValidPath(Glue(q, mid, m)) && forall part :: part in Glue(q, mid, m) ==> part !in EXCLUDED
    ensures item < q ==> item < Glue(q, mid, m)
    decreases |q|
  {
    forall part | part in m ensures part !in EXCLUDED { assert part in root + m; }
    if |q| == 1 {
      assert '\n' in q[0] + mid + m[0];
      assert item < q ==> item == [];
    } else {
      var rest := Glue(q[1..], mid, m);
      if item != [] && item < q {
        assert item[1..] < q[1..];
        GlueListable(root, item[1..], q[1..], mid, m);
        assert item == [q[0]] + item[1..];
      } else {
        GlueListable(root, [], q[1..], mid, m);
      }
    }
  }

  lemma {:induction false} PrefixLess(a: string, b: string)
    requires b != ""
    ensures StringLess(a, a + b)
  {
    if a != "" {
      PrefixLess(a[1..], b);
      assert (a + b)[1..] == a[1..] + b;
    }
  }

  lemma {:induction false} GlueLess(q: Path, mid: string, m: Path)
    requires q != [] && m != [] && mid != ""
    ensures PathLess(q, Glue(q, mid, m))
  {
    if |q| == 1 {
      PrefixLess(q[0], mid + m[0]);
      assert q[0] + mid + m[0] == q[0] + (mid + m[0]);
    } else {
      GlueLess(q[1..], mid, m);
      assert Glue(q, mid, m)[1..] == Glue(q[1..], mid, m);
    }
  }

  /** What is above a glued path is above its first part or comes after it. */
  lemma {:induction false} AboveGlue(a: Path, q: Path, mid: string, m: Path)
    requires q != [] && m != [] && mid != ""
    ensures a < Glue(q, mid, m) ==> a < q || PathLess(q, a)
  {
    if a < Glue(q, mid, m) && a != [] {
      if |q| == 1 {
        PrefixLess(q[0], mid + m[0]);
        assert a[0] == q[0] + (mid + m[0]);
      } else {
        AboveGlue(a[1..], q[1..], mid, m);
        assert a[1..] < Glue(q, mid, m)[1..];
        assert a == [q[0]] + a[1..] && q == [q[0]] + q[1..];
      }
    }
  }

  lemma HeadOfContent(qs: seq<Path>, text: map<Path, string>, sha: string -> Digest)
    requires |qs| > 1 && forall q :: q in qs ==> q in text
    ensures Content(Entries(qs, text, sha)) ==
            Render(qs[0]) + ":" + sha(text[qs[0]]) + "\n" + Content(Entries(qs[1..], text, sha))
  {
    EntriesAt(qs[1..], text, sha);
    var es := Entries(qs, text, sha);
    assert es[1..] == Entries(qs[1..], text, sha);
  }

  /** Any listing reads as the record of one file, at or after its first one. */
  lemma {:induction false} ReadsAsOne(t: Tree, item: Path, qs: seq<Path>, sha: string -> Digest)
    returns (b: Path, d: Digest)
    requires qs != [] && Digests(sha)
    requires forall q :: q in qs ==> q in t.text && Listable(t.root, item, q)
    ensures d == sha(t.text[qs[|qs| - 1]]) && Content(Entries(qs, t.text, sha)) == Render(b) + ":" + d
    ensures Listable(t.root, item, b) && (b == qs[0] || PathLess(qs[0], b))
    ensures forall a :: PathLess(a, qs[0]) && !(a < qs[0]) ==> !(a < b)
  {
    var x := sha(t.text[qs[0]]);
    if |qs| == 1 {
      b, d := qs[0], x;
      EntriesAt(qs, t.text, sha);
    } else {
      var m;
      m, d := ReadsAsOne(t, item, qs[1..], sha);
      var mid := ":" + x + "\n";
      b := Glue(qs[0], mid, m);
      RenderGlue(qs[0], mid, m);
      GlueStaysListable(t.root, item, qs[0], x, m);
      GlueLess(qs[0], mid, m);
      forall a | PathLess(a, qs[0]) && !(a < qs[0]) ensures !(a < b) {
        AboveGlue(a, qs[0], mid, m);
        PathTotal(a, qs[0]);
      }
      HeadOfContent(qs, t.text, sha);
      Regroup(Render(qs[0]), x, Render(m), d);
    }
  }

  lemma GlueStaysListable(root: Path, item: Path, q: Path, x: Digest, m: Path)
    requires Listable(root, item, q) && Listable(root, item, m) && IsDigest(x)
    ensures Listable(root, item, Glue(q, ":" + x + "\n", m))
  {
    var mid := ":" + x + "\n";
    assert mid[|mid| - 1] == '\n';
    assert '/' !in x by { assert forall i :: 0 <= i < |x| ==> HexDigit(x[i]); }
    forall i | 0 <= i < |q| ensures q[i] !in EXCLUDED { assert q[i] in root + q; }
    GlueListable(root, item, q, mid, m);
    forall part | part in root + Glue(q, mid, m) ensures part !in EXCLUDED {
      if part in root { assert part in root + q; }
    }
  }

  // ----- the condition -----

  /** Which directories can be mistaken for one with other files: every directory of
      two files or more, however plain their names, and a directory of one file iff
      its name splits; an empty one cannot. */
  lemma MistakableIff(t: Tree, item: Path, sha: string -> Digest)
    requires WellFormed(t) && Digests(sha)
    ensures (exists u :: WellFormed(u) && Mistakable(t, u, item, sha)) <==>
            || |Watched(t, item).Keys| >= 2
            || exists p :: Watched(t, item).Keys == {p} && Splits(t.root, item, p, sha)
  {
    var files := Watched(t, item).Keys;
    if |files| >= 2 {
      var u := MergedTree(t, item, sha);
    } else if exists p :: files == {p} && Splits(t.root, item, p, sha) {
      var p :| files == {p} && Splits(t.root, item, p, sha);
      var a, b, x :| SplitsInto(t.root, item, p, a, b, x, sha);
      var u := SplitTree(t, item, p, a, b, x, sha);
    }
    if exists u :: WellFormed(u) && Mistakable(t, u, item, sha) {
      var u :| WellFormed(u) && Mistakable(t, u, item, sha);
      if |files| < 2 { MistakenSplits(t, u, item, sha); }
    }
  }

  /** Mistakable directories have the same fingerprint. */
  lemma MistakableSharesHash(t: Tree, u: Tree, item: Path, sha: string -> Digest)
    requires WellFormed(t) && WellFormed(u) && item in t.others && Mistakable(t, u, item, sha)
    ensures HashOf(t, item, sha) == HashOf(u, item, sha) && HashOf(t, item, sha).Some?
    ensures SourceAt(t, item) != SourceAt(u, item)
  {
  }

  lemma DirectoryReadsAsOne(t: Tree, item: Path, sha: string -> Digest) returns (b: Path, x: string)
    requires WellFormed(t) && Digests(sha) && Watched(t, item).Keys != {}
    ensures Listable(t.root, item, b) && Preimage(t, item, sha) == Render(b) + ":" + sha(x)
  {
    var qs := Listing(t, item);
    var q :| q in Watched(t, item).Keys;
    assert q in qs;
    assert forall q :: q in qs ==> q in Watched(t, item);
    var d;
    b, d := ReadsAsOne(t, item, qs, sha);
    x := t.text[qs[|qs| - 1]];
  }

  lemma MergedTree(t: Tree, item: Path, sha: string -> Digest) returns (u: Tree)
    requires WellFormed(t) && Digests(sha) && |Watched(t, item).Keys| >= 2
    ensures WellFormed(u) && Mistakable(t, u, item, sha) && |Watched(u, item).Keys| == 1
  {
    var b, x := DirectoryReadsAsOne(t, item, sha);
    u := OneFileTree(t.root, b, x);
    OneFileTreeIs(t.root, item, b, x);
    assert Watched(u, item).Keys == {b};
    OneFile(u, item, b, sha);
  }

  lemma SplitTree(t: Tree, item: Path, p: Path, a: Path, b: Path, x: string, sha: string -> Digest)
    returns (u: Tree)
    requires WellFormed(t) && Watched(t, item).Keys == {p} && SplitsInto(t.root, item, p, a, b, x, sha)
    ensures WellFormed(u) && Mistakable(t, u, item, sha)
  {
    PathTotal(a, b);
    if b < a { PrefixIsLess(b, a); }
    u := TwoFileTree(t.root, a, x, b, t.text[p]);
    TwoFileTreeIs(t.root, item, a, x, b, t.text[p]);
    assert Watched(u, item).Keys == {a, b};
    MarkedNameCollides(t, u, item, p, a, b, sha);
    assert |{a, b}| == 2 && |{p}| == 1;
  }

  lemma {:induction false} PrefixIsLess(a: Path, b: Path)
    requires a < b
    ensures PathLess(a, b)
  {
    if a != [] {
      assert a[1..] < b[1..];
      PrefixIsLess(a[1..], b[1..]);
    }
  }

  lemma MistakenSplits(t: Tree, u: Tree, item: Path, sha: string -> Digest)
    requires WellFormed(t) && WellFormed(u) && Digests(sha) && |Watched(t, item).Keys| < 2
    requires Mistakable(t, u, item, sha)
    ensures exists p :: Watched(t, item).Keys == {p} && Splits(t.root, item, p, sha)
  {
    var files := Watched(t, item).Keys;
    if files == {} {
      NoFileNoText(t, u, item, sha);
    } else {
      var p :| p in files;
      assert files == {p} by { assert |files - {p}| == 0; }
      MistakenNameSplits(t, u, item, p, sha);
    }
  }

  lemma ContentLong(es: seq<Entry>)
    requires Digested(es)
    ensures es != [] ==> |Content(es)| >= 65
  {
    if es != [] { ContentShape(es); }
  }

  lemma NoFileNoText(t: Tree, u: Tree, item: Path, sha: string -> Digest)
    requires WellFormed(t) && WellFormed(u) && Digests(sha) && Watched(t, item).Keys == {}
    requires Preimage(u, item, sha) == Preimage(t, item, sha)
    ensures Watched(u, item).Keys == {}
  {
    PreimageOf(t, item, [], sha);
    var qs := Listing(u, item);
    EntriesAt(qs, u.text, sha);
    ContentLong(Entries(qs, u.text, sha));
    assert Watched(u, item).Keys == (set q | q in qs);
  }

  lemma MistakenNameSplits(t: Tree, u: Tree, item: Path, p: Path, sha: string -> Digest)
    requires WellFormed(t) && WellFormed(u) && Watched(t, item).Keys == {p} && Digests(sha)
    requires Mistakable(t, u, item, sha)
    ensures Splits(t.root, item, p, sha)
  {
    var qs := Listing(u, item);
    var d := sha(t.text[p]);
    OneFile(t, item, p, sha);
    assert Content(Entries(qs, u.text, sha)) == Render(p) + ":" + d;
    assert forall q :: q in qs ==> q in Watched(u, item);
    if |qs| == 1 {
      OnlyOneReading(u, qs[0], p, sha, d);
    } else {
      assert qs != [] by { assert Entries([], u.text, sha) == []; }
      NothingBelowFile(u, qs[0], qs[1]);
      ManyReadAsSplit(u, item, qs, p, sha, d);
    }
  }

  lemma OnlyOneReading(u: Tree, q: Path, p: Path, sha: string -> Digest, d: Digest)
    requires q in u.text && ValidPath(q) && ValidPath(p) && Digests(sha) && IsDigest(d)
    requires Content(Entries([q], u.text, sha)) == Render(p) + ":" + d
    ensures p == q
  {
    EntriesAt([q], u.text, sha);
    SameEnd(Render(q), sha(u.text[q]), Render(p), d);
    RenderInjective(q, p);
  }

  lemma ManyReadAsSplit(u: Tree, item: Path, qs: seq<Path>, p: Path, sha: string -> Digest, d: Digest)
    requires |qs| > 1 && PathLess(qs[0], qs[1]) && !(qs[0] < qs[1]) && Digests(sha) && IsDigest(d)
    requires forall q :: q in qs ==> q in u.text && Listable(u.root, item, q)
    requires Content(Entries(qs, u.text, sha)) == Render(p) + ":" + d
    ensures Splits(u.root, item, p, sha)
  {
    var a, x := qs[0], u.text[qs[0]];
    var b, e := ReadsAsOne(u, item, qs[1..], sha);
    if b != qs[1] { PathTransitive(a, qs[1], b); }
    HeadOfContent(qs, u.text, sha);
    LastRecord(Render(a) + ":" + sha(x) + "\n", Render(b), e, Render(p), d);
    assert SplitsInto(u.root, item, p, a, b, x, sha);
  }

  lemma Regroup(p: string, x: Digest, q: string, d: Digest)
    ensures p + ":" + x + "\n" + (q + ":" + d) == (p + (":" + x + "\n") + q) + ":" + d
  {
  }

  lemma LastRecord(head: string, q: string, e: Digest, p: string, d: Digest)
    requires |d| == |e| && head + (q + ":" + e) == p + ":" + d
    ensures p == head + q
  {
    assert head + (q + ":" + e) == (head + q) + ":" + e;
    SameEnd(head + q, e, p, d);
  }

  lemma SameEnd(p: string, d: Digest, q: string, e: Digest)
    requires |d| == |e| && p + ":" + d == q + ":" + e
    ensures p == q && d == e
  {
    var s := p + ":" + d;
    assert s[..|p|] == p && s[..|q|] == q;
    assert s[|p| + 1..] == d && s[|q| + 1..] == e;
  }
}
