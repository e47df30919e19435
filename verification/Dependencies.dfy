/** Which changes of a source tree the dependency fingerprints notice. */
module Dependencies {
  import opened Wrappers
  import opened Fingerprint
  import opened Text

  /** A source tree below `root`: `walk` is every regular file in whatever order
      the directory walk meets it, `others` every path that exists but is not a
      regular file, the root `[]` among them. Paths are relative to the root. */
  datatype Tree = Tree(root: Path, walk: seq<Path>, text: map<Path, string>, others: set<Path>)

  /** What is above a path. */
  ghost function Above(p: Path): set<Path> { set k | 0 <= k < |p| :: p[..k] }

  /** A tree as a file system can hold it: a file is not a directory, and what is
      above a path exists and is not a file. */
  ghost predicate WellFormed(t: Tree) {
    && Distinct(t.walk)
    && (forall p :: p in t.walk <==> p in t.text)
    && (forall p :: p in t.text ==> ValidPath(p) && p !in t.others && Above(p) <= t.others)
    && (forall p :: p in t.others ==> Above(p) <= t.others)
  }

  lemma AboveHas(p: Path, q: Path)
    ensures q in Above(p) <==> q < p
  {
    if q < p { assert p[..|q|] == q; }
  }

  lemma AboveClosed(p: Path, q: Path)
    requires q in Above(p)
    ensures Above(q) <= Above(p)
  {
    AboveHas(p, q);
    forall r | r in Above(q) ensures r in Above(p) {
      AboveHas(q, r);
      AboveHas(p, r);
    }
  }

  /** So no path lies below a file. */
  lemma NothingBelowFile(t: Tree, a: Path, b: Path)
    requires WellFormed(t) && a in t.text && (b in t.text || b in t.others)
    ensures !(a < b)
  {
    AboveHas(b, a);
  }

  ghost predicate PlainNames(t: Tree) {
    forall p :: p in t.text ==> Plain(Render(p))
  }

  /** SHA-256 as far as it matters here: it yields digests, and no two of the
      strings in question collide. */
  ghost predicate Digests(sha: string -> Digest) {
    forall s :: IsDigest(sha(s))
  }

  ghost predicate NoCollision(sha: string -> Digest, among: set<string>) {
    forall a, b :: a in among && b in among && sha(a) == sha(b) ==> a == b
  }

  // ----- what is hashed -----

  /** The exclusion looks at every part of the absolute path, the root's included. */
  predicate Visible(root: Path, p: Path) {
    forall part :: part in root + p ==> part !in EXCLUDED
  }

  function FilesUnder(root: Path, item: Path, walk: seq<Path>): (r: seq<Path>)
    ensures forall p :: p in r <==> p in walk && item < p && Visible(root, p)
  {
    if walk == [] then []
    else
      var rest := FilesUnder(root, item, walk[1..]);
      if item < walk[0] && Visible(root, walk[0]) then [walk[0]] + rest else rest
  }

  function Entries(ps: seq<Path>, text: map<Path, string>, sha: string -> Digest): seq<Entry>
    requires forall p :: p in ps ==> p in text
  {
    if ps == [] then [] else [Entry(Render(ps[0]), sha(text[ps[0]]))] + Entries(ps[1..], text, sha)
  }

  function Preimage(t: Tree, item: Path, sha: string -> Digest): string
    requires forall p :: p in t.walk ==> p in t.text
  {
    Content(Entries(SortPaths(FilesUnder(t.root, item, t.walk)), t.text, sha))
  }

  /** What is hashed for an item: nothing if it is missing, its text if it is a
      file, else the listing. */
  function Hashed(t: Tree, item: Path, sha: string -> Digest): Option<string>
    requires forall p :: p in t.walk ==> p in t.text
  {
    if item !in t.text && item !in t.others then None
    else if item in t.text then Some(t.text[item])
    else Some(Preimage(t, item, sha))
  }

  function HashOf(t: Tree, item: Path, sha: string -> Digest): Option<Digest>
    requires forall p :: p in t.walk ==> p in t.text
  {
    match Hashed(t, item, sha)
    case None => None
    case Some(s) => Some(sha(s))
  }

  method DependencyHashes(items: seq<Path>, t: Tree, sha: string -> Digest) returns (result: map<Path, Option<Digest>>)
    requires forall p :: p in t.walk ==> p in t.text
    ensures forall item :: item in result <==> item in items
    ensures forall item :: item in items ==> result[item] == HashOf(t, item, sha)
  {
    result := map[];
    for i := 0 to |items|
      invariant forall item :: item in result <==> item in items[..i]
      invariant forall item :: item in result ==> result[item] == HashOf(t, item, sha)
    {
      var item := items[i];
      if item !in t.text && item !in t.others {
        result := result[item := None];
        continue;
      }
      if item in t.text {
        result := result[item := Some(sha(t.text[item]))];
        continue;
      }
      var files := SortPaths(FilesUnder(t.root, item, t.walk));
      var content := Content(Entries(files, t.text, sha));
      result := result[item := Some(sha(content))];
    }
    assert items[..|items|] == items;
  }

  // ----- what it says about the tree -----

  /** The part of the tree a directory item stands for. */
  ghost function Watched(t: Tree, item: Path): map<Path, string> {
    map p | p in t.text && item < p && Visible(t.root, p) :: t.text[p]
  }

  /** Every file below the item without a part named target, .git or node_modules, unless
      a directory above the tree has such a name: then no file at all. */
  lemma WatchedIsTree(t: Tree, item: Path)
    ensures forall p :: p in Watched(t, item) <==>
              && p in t.text && item < p
              && forall part :: part in t.root || part in p ==>
                   part != "target" && part != ".git" && part != "node_modules"
    ensures forall p :: p in Watched(t, item) ==> Watched(t, item)[p] == t.text[p]
    ensures (exists part :: part in t.root && part in {"target", ".git", "node_modules"}) ==>
              Watched(t, item) == map[]
  {
    forall p: Path, part ensures part in t.root + p <==> part in t.root || part in p {}
  }

  lemma {:induction false} EntriesAt(ps: seq<Path>, text: map<Path, string>, sha: string -> Digest)
    requires forall p :: p in ps ==> p in text
    ensures |Entries(ps, text, sha)| == |ps|
    ensures forall i :: 0 <= i < |ps| ==> Entries(ps, text, sha)[i] == Entry(Render(ps[i]), sha(text[ps[i]]))
  {
    if ps != [] { EntriesAt(ps[1..], text, sha); }
  }

  lemma {:induction false} FilesDistinct(root: Path, item: Path, walk: seq<Path>)
    requires Distinct(walk)
    ensures Distinct(FilesUnder(root, item, walk))
  {
    if walk != [] {
      FilesDistinct(root, item, walk[1..]);
      assert walk[0] !in walk[1..];
    }
  }

  ghost function Listing(t: Tree, item: Path): (ps: seq<Path>)
    requires WellFormed(t)
    ensures Sorted(ps) && forall p :: p in ps <==> p in Watched(t, item)
  {
    FilesDistinct(t.root, item, t.walk);
    SortPathsSorted(FilesUnder(t.root, item, t.walk));
    SortPaths(FilesUnder(t.root, item, t.walk))
  }

  lemma ListingDecodable(t: Tree, item: Path, sha: string -> Digest)
    requires WellFormed(t) && PlainNames(t) && Digests(sha)
    ensures Decodable(Entries(Listing(t, item), t.text, sha))
  {
    var ps := Listing(t, item);
    EntriesAt(ps, t.text, sha);
    forall i | 0 <= i < |ps| ensures Plain(Render(ps[i])) { assert ps[i] in ps; }
  }

  /** Two trees have the same directory text iff they agree on every watched file:
      no addition, removal or edit is missed, and the walk order does not matter. */
  lemma PreimageIffWatched(t: Tree, u: Tree, item: Path, sha: string -> Digest)
    requires WellFormed(t) && WellFormed(u) && PlainNames(t) && PlainNames(u)
    requires Digests(sha) && NoCollision(sha, t.text.Values + u.text.Values)
    ensures Preimage(t, item, sha) == Preimage(u, item, sha) <==> Watched(t, item) == Watched(u, item)
  {
    var ps, qs := Listing(t, item), Listing(u, item);
    EntriesAt(ps, t.text, sha);
    EntriesAt(qs, u.text, sha);
    if Watched(t, item) == Watched(u, item) {
      SortedUnique(ps, qs);
      forall i | 0 <= i < |ps| ensures t.text[ps[i]] == u.text[ps[i]] {
        assert ps[i] in Watched(t, item) && Watched(t, item)[ps[i]] == Watched(u, item)[ps[i]];
      }
      assert Entries(ps, t.text, sha) == Entries(qs, u.text, sha);
    }
    if Preimage(t, item, sha) == Preimage(u, item, sha) {
      ListingDecodable(t, item, sha);
      ListingDecodable(u, item, sha);
      ContentInjective(Entries(ps, t.text, sha), Entries(qs, u.text, sha));
      SameEntries(t, u, ps, qs, sha);
      assert Watched(t, item).Keys == Watched(u, item).Keys;
    }
  }

  lemma SameEntries(t: Tree, u: Tree, ps: seq<Path>, qs: seq<Path>, sha: string -> Digest)
    requires WellFormed(t) && WellFormed(u) && NoCollision(sha, t.text.Values + u.text.Values)
    requires (forall p :: p in ps ==> p in t.text) && (forall p :: p in qs ==> p in u.text)
    requires Entries(ps, t.text, sha) == Entries(qs, u.text, sha)
    ensures ps == qs && forall p :: p in ps ==> t.text[p] == u.text[p]
  {
    EntriesAt(ps, t.text, sha);
    EntriesAt(qs, u.text, sha);
    forall i | 0 <= i < |ps| ensures ps[i] == qs[i] && t.text[ps[i]] == u.text[qs[i]] {
      assert Entries(ps, t.text, sha)[i] == Entries(qs, u.text, sha)[i];
      RenderInjective(ps[i], qs[i]);
      assert t.text[ps[i]] in t.text.Values && u.text[qs[i]] in u.text.Values;
    }
  }

  datatype Source = Gone | File(text: string) | Folder(files: map<Path, string>)

  ghost function SourceAt(t: Tree, item: Path): Source {
    if item in t.text then File(t.text[item])
    else if item in t.others then Folder(Watched(t, item))
    else Gone
  }

  /** A file whose text is exactly the listing of a directory stands in for it. */
  ghost predicate Masquerade(t: Tree, u: Tree, item: Path, sha: string -> Digest)
    requires WellFormed(t) && WellFormed(u)
  {
    match (SourceAt(t, item), SourceAt(u, item))
    case (File(s), Folder(_)) => s == Preimage(u, item, sha)
    case (Folder(_), File(s)) => s == Preimage(t, item, sha)
    case _ => false
  }

  /** A dependency keeps its fingerprint iff nothing it stands for changed, but for
      a file that masquerades as the directory. */
  lemma HashIffSource(t: Tree, u: Tree, item: Path, sha: string -> Digest)
    requires WellFormed(t) && WellFormed(u) && PlainNames(t) && PlainNames(u) && Digests(sha)
    requires NoCollision(sha, t.text.Values + u.text.Values + {Preimage(t, item, sha), Preimage(u, item, sha)})
    ensures HashOf(t, item, sha) == HashOf(u, item, sha) <==>
            SourceAt(t, item) == SourceAt(u, item) || Masquerade(t, u, item, sha)
  {
    PreimageIffWatched(t, u, item, sha);
    HashIffHashed(t, u, item, sha);
  }

  lemma HashIffHashed(t: Tree, u: Tree, item: Path, sha: string -> Digest)
    requires WellFormed(t) && WellFormed(u)
    requires NoCollision(sha, t.text.Values + u.text.Values + {Preimage(t, item, sha), Preimage(u, item, sha)})
    ensures HashOf(t, item, sha) == HashOf(u, item, sha) <==> Hashed(t, item, sha) == Hashed(u, item, sha)
  {
    assert item in t.text ==> t.text[item] in t.text.Values;
    assert item in u.text ==> u.text[item] in u.text.Values;
  }

  // ----- names that are not plain -----

  lemma PreimageOf(t: Tree, item: Path, ps: seq<Path>, sha: string -> Digest)
    requires WellFormed(t) && Sorted(ps) && forall p :: p in ps <==> p in Watched(t, item)
    ensures Preimage(t, item, sha) == Content(Entries(ps, t.text, sha))
  {
    SortedUnique(Listing(t, item), ps);
  }

  lemma OneFile(t: Tree, item: Path, p: Path, sha: string -> Digest)
    requires WellFormed(t) && Watched(t, item).Keys == {p}
    ensures Preimage(t, item, sha) == Content([Entry(Render(p), sha(t.text[p]))])
  {
    PreimageOf(t, item, [p], sha);
    EntriesAt([p], t.text, sha);
    assert Entries([p], t.text, sha) == [Entry(Render(p), sha(t.text[p]))];
  }

  lemma TwoFiles(u: Tree, item: Path, a: Path, b: Path, sha: string -> Digest)
    requires WellFormed(u) && PathLess(a, b) && Watched(u, item).Keys == {a, b}
    ensures a in u.text && b in u.text
    ensures Preimage(u, item, sha) == Content([Entry(Render(a), sha(u.text[a])), Entry(Render(b), sha(u.text[b]))])
  {
    assert a in Watched(u, item).Keys && b in Watched(u, item).Keys;
    PreimageOf(u, item, [a, b], sha);
    EntriesAt([a, b], u.text, sha);
    assert Entries([a, b], u.text, sha) == [Entry(Render(a), sha(u.text[a])), Entry(Render(b), sha(u.text[b]))];
  }

  /** A path that spells out the record of `a` and the path of `b` collides with
      those two files, whatever the digest function. */
  lemma MarkedNameCollides(t: Tree, u: Tree, item: Path, p: Path, a: Path, b: Path, sha: string -> Digest)
    requires WellFormed(t) && WellFormed(u) && PathLess(a, b)
    requires Watched(t, item).Keys == {p} && Watched(u, item).Keys == {a, b}
    requires Render(p) == Render(a) + ":" + sha(u.text[a]) + "\n" + Render(b) && t.text[p] == u.text[b]
    ensures Preimage(t, item, sha) == Preimage(u, item, sha) && Watched(t, item) != Watched(u, item)
  {
    OneFile(t, item, p, sha);
    TwoFiles(u, item, a, b, sha);
    JoinedRecord(Render(a), sha(u.text[a]), Render(b), sha(u.text[b]));
    PathTotal(a, b);
    assert |{a, b}| == 2 && |{p}| == 1;
  }

  lemma JoinedRecord(p: string, d: Digest, q: string, e: Digest)
    ensures Content([Entry(p + ":" + d + "\n" + q, e)]) == Content([Entry(p, d), Entry(q, e)])
  {
    var es := [Entry(p, d), Entry(q, e)];
    assert es[1..] == [es[1]];
  }

  /** Such names exist: a directory `s` with a sub-directory whose name ends in a
      line feed and `s`. */
  lemma MarkedNameExists(d: Digest)
    requires IsDigest(d)
    ensures var p := ["s", "a:" + d + "\ns", "b"];
            && ValidPath(p) && Visible([], p) && ["s"] < p
            && Render(p) == Render(["s", "a"]) + ":" + d + "\n" + Render(["s", "b"])
            && PathLess(["s", "a"], ["s", "b"])
  {
    var p, a, b := ["s", "a:" + d + "\ns", "b"], ["s", "a"], ["s", "b"];
    assert p[1..][1..] == ["b"] && a[1..] == ["a"] && b[1..] == ["b"];
    assert Join(p[1..], '/') == p[1] + "/" + "b";
    assert Render(a) == "s/a" && Render(b) == "s/b";
    assert |p[1]| == 68 && p[..1] == ["s"];
    assert [] + p == p;
  }

  // ----- the failures, each at an input -----

  /** A tree of one file. */
  ghost function OneFileTree(root: Path, p: Path, x: string): Tree { Tree(root, [p], map[p := x], Above(p)) }

  ghost function TwoFileTree(root: Path, p: Path, x: string, q: Path, y: string): Tree {
    Tree(root, [q, p], map[p := x, q := y], Above(p) + Above(q))
  }

  lemma OneFileTreeIs(root: Path, item: Path, p: Path, x: string)
    requires ValidPath(p) && item < p
    ensures WellFormed(OneFileTree(root, p, x)) && item in OneFileTree(root, p, x).others
    ensures Visible(root, p) ==> Watched(OneFileTree(root, p, x), item) == map[p := x]
  {
    AboveHas(p, item);
    AboveHas(p, p);
    forall o | o in Above(p) ensures Above(o) <= Above(p) { AboveClosed(p, o); }
  }

  lemma TwoFileTreeIs(root: Path, item: Path, p: Path, x: string, q: Path, y: string)
    requires ValidPath(p) && ValidPath(q) && p != q && !(p < q) && !(q < p) && item < p && item < q
    ensures WellFormed(TwoFileTree(root, p, x, q, y)) && item in TwoFileTree(root, p, x, q, y).others
    ensures Visible(root, p) && Visible(root, q) ==>
              Watched(TwoFileTree(root, p, x, q, y), item) == map[p := x, q := y]
  {
    AboveHas(p, item);
    AboveHas(p, p);
    AboveHas(q, q);
    AboveHas(p, q);
    AboveHas(q, p);
    forall o | o in Above(p) ensures Above(o) <= Above(p) { AboveClosed(p, o); }
    forall o | o in Above(q) ensures Above(o) <= Above(q) { AboveClosed(q, o); }
  }

  /** Whatever the digest, a name that spells out a record hides the removal of one
      file and the renaming of another. */
  lemma MarkedNameHides(sha: string -> Digest, x: string, y: string) returns (t: Tree, u: Tree)
    requires Digests(sha)
    ensures WellFormed(t) && WellFormed(u)
    ensures HashOf(t, ["s"], sha) == HashOf(u, ["s"], sha) && Watched(t, ["s"]) != Watched(u, ["s"])
  {
    var p, a, b := ["s", "a:" + sha(x) + "\ns", "b"], ["s", "a"], ["s", "b"];
    MarkedNameExists(sha(x));
    ShortNames();
    t, u := OneFileTree([], p, y), TwoFileTree([], a, x, b, y);
    OneFileTreeIs([], ["s"], p, y);
    TwoFileTreeIs([], ["s"], a, x, b, y);
    MarkedNameCollides(t, u, ["s"], p, a, b, sha);
  }

  lemma ShortNames()
    ensures ValidPath(["s", "a"]) && ValidPath(["s", "b"]) && ["s"] < ["s", "a"] && ["s"] < ["s", "b"]
    ensures Visible([], ["s", "a"]) && Visible([], ["s", "b"]) && ["s", "a"] != ["s", "b"]
  {
    var a, b := ["s", "a"], ["s", "b"];
    assert [] + a == a && [] + b == b && a[1] != b[1];
  }

  /** A directory can be replaced by a file that holds its listing. */
  lemma FileMasquerades(sha: string -> Digest, x: string) returns (t: Tree, u: Tree)
    ensures WellFormed(t) && WellFormed(u)
    ensures SourceAt(t, ["s"]).Folder? && SourceAt(u, ["s"]).File? && Watched(t, ["s"]) != map[]
    ensures HashOf(t, ["s"], sha) == HashOf(u, ["s"], sha)
  {
    ShortNames();
    t := OneFileTree([], ["s", "a"], x);
    OneFileTreeIs([], ["s"], ["s", "a"], x);
    u := OneFileTree([], ["s"], Preimage(t, ["s"], sha));
    OneFileTreeIs([], [], ["s"], Preimage(t, ["s"], sha));
  }

  /** In a checkout below a directory named `target` nothing is watched: any two
      texts of a file have the same fingerprint. */
  lemma ExcludedRootHides(sha: string -> Digest, x: string, y: string) returns (t: Tree, u: Tree)
    ensures WellFormed(t) && WellFormed(u) && ["s", "a"] in t.text && ["s", "a"] in u.text
    ensures t.text[["s", "a"]] == x && u.text[["s", "a"]] == y
    ensures HashOf(t, ["s"], sha) == HashOf(u, ["s"], sha)
  {
    ShortNames();
    t, u := OneFileTree(["target"], ["s", "a"], x), OneFileTree(["target"], ["s", "a"], y);
    OneFileTreeIs(["target"], ["s"], ["s", "a"], x);
    OneFileTreeIs(["target"], ["s"], ["s", "a"], y);
    assert "target" in ["target"] + [];
    WatchedIsTree(t, ["s"]);
    WatchedIsTree(u, ["s"]);
    PreimageOf(t, ["s"], [], sha);
    PreimageOf(u, ["s"], [], sha);
  }
}
