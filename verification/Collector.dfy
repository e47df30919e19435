/** The deduplicating file collector: directory scans and a file list, sharing one
    set of files already seen. */
module Collector {
  import opened Wrappers

  /** The file system, fixed for one run. `resolved` is where a scanned path leads,
      `sources` where the name of a source leads and `named` where the name of a file
      leads, which may start in a home directory; each is absent when resolving fails;
      `text` holds the files that can be read, under their resolved paths;
      `listings` is the sorted recursive listing of every directory. */
  datatype World = World(
    dirs: set<Path>,
    files: set<Path>,
    resolved: map<Path, Path>,
    sources: map<string, Path>,
    named: map<string, Path>,
    text: map<Path, string>,
    listings: map<Path, seq<Path>>)

  datatype Rules = Rules(excludeDirs: set<string>, excludeFiles: set<string>, output: Path)

  predicate Excluded(rules: Rules, p: Path) {
    || (exists part :: part in p && part in rules.excludeDirs)
    || (p != [] && p[|p| - 1] in rules.excludeFiles)
  }

  // ----- how a file is shown -----

  /** With one source relative to it, with several by its path. */
  function Shown(p: Path, source: Path, multiple: bool): Path {
    if source <= p then (if multiple then source + p[|source|..] else p[|source|..]) else p
  }

  function ShownAmong(p: Path, sources: seq<Path>, multiple: bool): Path {
    if sources == [] then p
    else if sources[0] <= p then Shown(p, sources[0], multiple)
    else ShownAmong(p, sources[1..], multiple)
  }

  lemma {:induction false} ShownAmongSeveral(p: Path, sources: seq<Path>)
    ensures ShownAmong(p, sources, true) == p
  {
    if sources != [] { ShownAmongSeveral(p, sources[1..]); }
  }

  // ----- what one mention of a file amounts to, whatever was seen before -----

  datatype Mention = Ignored | Failing | Wanted(path: Path, shown: Path)

  function Scanned(w: World, rules: Rules, source: Path, multiple: bool, p: Path): Mention {
    if p in w.dirs || Excluded(rules, p) then Ignored
    else if p !in w.resolved then Failing
    else if w.resolved[p] == rules.output then Ignored
    else if w.resolved[p] !in w.text then Failing
    else Wanted(w.resolved[p], Shown(p, source, multiple))
  }

  function Named(w: World, rules: Rules, sources: seq<Path>, f: string): Mention {
    if f !in w.named || w.named[f] !in w.files then Failing
    else if w.named[f] == rules.output || Excluded(rules, w.named[f]) then Ignored
    else if w.named[f] !in w.text then Failing
    else Wanted(w.named[f], ShownAmong(w.named[f], sources, |sources| > 1))
  }

  function FlatMap<A, B>(f: A -> seq<B>, s: seq<A>): seq<B> {
    if s == [] then [] else FlatMap(f, s[..|s| - 1]) + f(s[|s| - 1])
  }

  function ScanMentions(w: World, rules: Rules, source: Path, multiple: bool, listing: seq<Path>): seq<Mention> {
    FlatMap(p => [Scanned(w, rules, source, multiple, p)], listing)
  }

  function SourceMentions(w: World, rules: Rules, source: Path, multiple: bool): seq<Mention> {
    if source in w.listings then ScanMentions(w, rules, source, multiple, w.listings[source]) else []
  }

  function ScanAll(w: World, rules: Rules, sources: seq<Path>, multiple: bool): seq<Mention> {
    FlatMap(s => SourceMentions(w, rules, s, multiple), sources)
  }

  function ListMentions(w: World, rules: Rules, sources: seq<Path>, files: seq<string>): seq<Mention> {
    FlatMap(f => [Named(w, rules, sources, f)], files)
  }

  /** Every mention of a file in a run over these sources and this file list. */
  function Mentions(w: World, rules: Rules, sources: seq<Path>, files: seq<string>): seq<Mention> {
    ScanAll(w, rules, sources, |sources| > 1) + ListMentions(w, rules, sources, files)
  }

  datatype Item = Item(shown: Path, text: string)

  /** A collection under way: what was kept, what was seen, what went wrong. */
  datatype Tally = Tally(items: seq<Item>, seen: set<Path>, errors: nat)

  function Count(w: World, t: Tally, m: Mention): Tally {
    match m
    case Ignored => t
    case Failing => t.(errors := t.errors + 1)
    case Wanted(path, shown) =>
      if path in t.seen then t
      else t.(items := t.items + [ItemOf(w, m)], seen := t.seen + {path})
  }

  function ItemOf(w: World, m: Mention): Item
    requires m.Wanted?
  {
    Item(m.shown, if m.path in w.text then w.text[m.path] else "")
  }

  /** The mentions counted one after the other. */
  function Gather(w: World, ms: seq<Mention>, t: Tally): Tally {
    if ms == [] then t else Count(w, Gather(w, ms[..|ms| - 1], t), ms[|ms| - 1])
  }

  function Begin(seen: set<Path>): Tally { Tally([], seen, 0) }

  lemma GatherOneMore(w: World, ms: seq<Mention>, m: Mention, t: Tally)
    ensures Gather(w, ms + [m], t) == Count(w, Gather(w, ms, t), m)
  {
    assert (ms + [m])[..|ms|] == ms;
  }

  lemma {:induction false} GatherSplit(w: World, a: seq<Mention>, b: seq<Mention>, t: Tally)
    ensures Gather(w, a + b, t) == Gather(w, b, Gather(w, a, t))
  {
    if b == [] {
      assert a + b == a;
    } else {
      var n := |b| - 1;
      GatherSplit(w, a, b[..n], t);
      assert (a + b)[..|a + b| - 1] == a + b[..n];
    }
  }

  /** What was kept and what went wrong before is only carried along. */
  lemma {:induction false} GatherCarries(w: World, ms: seq<Mention>, t: Tally)
    ensures var g := Gather(w, ms, Begin(t.seen));
            Gather(w, ms, t) == Tally(t.items + g.items, g.seen, t.errors + g.errors)
  {
    if ms != [] { GatherCarries(w, ms[..|ms| - 1], t); }
  }

  // ----- what a collection amounts to -----

  ghost function WantedIn(ms: seq<Mention>): set<Path> {
    if ms == [] then {}
    else WantedIn(ms[..|ms| - 1]) + if ms[|ms| - 1].Wanted? then {ms[|ms| - 1].path} else {}
  }

  ghost function Failures(ms: seq<Mention>): nat {
    multiset(ms)[Failing]
  }

  /** The first mention of each wanted file that is not seen yet, in order. */
  ghost function Firsts(ms: seq<Mention>, seen: set<Path>): (r: seq<Mention>)
    ensures forall i :: 0 <= i < |r| ==> r[i].Wanted?
  {
    if ms == [] then []
    else
      var rest, last := ms[..|ms| - 1], ms[|ms| - 1];
      Firsts(rest, seen) + if last.Wanted? && last.path !in seen && last.path !in WantedIn(rest) then [last] else []
  }

  ghost function ItemsOf(w: World, ms: seq<Mention>): seq<Item>
    requires forall i :: 0 <= i < |ms| ==> ms[i].Wanted?
  {
    seq(|ms|, i requires 0 <= i < |ms| => ItemOf(w, ms[i]))
  }

  lemma {:induction false} WantedHas(ms: seq<Mention>, p: Path)
    ensures p in WantedIn(ms) <==> exists m :: m in ms && m.Wanted? && m.path == p
  {
    if ms != [] {
      var n := |ms| - 1;
      WantedHas(ms[..n], p);
      assert ms == ms[..n] + [ms[n]];
      assert ms[n] in ms;
    }
  }

  /** A collection keeps the first mention of every wanted file not seen before, in
      order and with its label and text, has then seen exactly those files more, and
      counts every failing mention. */
  lemma {:induction false} GatherIs(w: World, ms: seq<Mention>, seen: set<Path>)
    ensures Gather(w, ms, Begin(seen)) == Tally(ItemsOf(w, Firsts(ms, seen)), seen + WantedIn(ms), Failures(ms))
  {
    if ms != [] {
      var n := |ms| - 1;
      GatherIs(w, ms[..n], seen);
      assert ms == ms[..n] + [ms[n]];
      var m, fs := ms[n], Firsts(ms[..n], seen);
      if m.Wanted? && m.path !in seen && m.path !in WantedIn(ms[..n]) {
        assert ItemsOf(w, fs + [m]) == ItemsOf(w, fs) + [ItemOf(w, m)];
      }
    }
  }

  /** These mentions name exactly these files, each once. */
  ghost predicate Names(fs: seq<Mention>, files: set<Path>) {
    && |fs| == |files|
    && (forall i :: 0 <= i < |fs| ==> fs[i].Wanted? && fs[i].path in files)
    && (forall i, j :: 0 <= i < j < |fs| ==> fs[i].Wanted? && fs[j].Wanted? && fs[i].path != fs[j].path)
  }

  lemma NamesGrow(fs: seq<Mention>, files: set<Path>, m: Mention)
    requires Names(fs, files) && m.Wanted? && m.path !in files
    ensures Names(fs + [m], files + {m.path})
  {
  }

  /** The first mentions name exactly the wanted files not seen before. */
  lemma {:induction false} FirstsAre(ms: seq<Mention>, seen: set<Path>)
    ensures Names(Firsts(ms, seen), WantedIn(ms) - seen)
  {
    if ms != [] {
      var n := |ms| - 1;
      FirstsAre(ms[..n], seen);
      var m, before := ms[n], WantedIn(ms[..n]) - seen;
      if m.Wanted? && m.path !in seen && m.path !in WantedIn(ms[..n]) {
        NamesGrow(Firsts(ms[..n], seen), before, m);
        assert WantedIn(ms) - seen == before + {m.path};
      } else {
        assert WantedIn(ms) - seen == before;
      }
    }
  }

  /** Later mentions only add to what was kept, at the end. */
  lemma {:induction false} FirstsExtend(a: seq<Mention>, b: seq<Mention>, seen: set<Path>)
    ensures Firsts(a, seen) <= Firsts(a + b, seen)
  {
    if b == [] {
      assert a + b == a;
    } else {
      var n := |b| - 1;
      FirstsExtend(a, b[..n], seen);
      assert (a + b)[..|a + b| - 1] == a + b[..n];
    }
  }

  /** Scanned files come before named ones. */
  lemma ScansComeFirst(w: World, rules: Rules, sources: seq<Path>, files: seq<string>, seen: set<Path>)
    ensures Firsts(ScanAll(w, rules, sources, |sources| > 1), seen) <= Firsts(Mentions(w, rules, sources, files), seen)
  {
    FirstsExtend(ScanAll(w, rules, sources, |sources| > 1), ListMentions(w, rules, sources, files), seen);
  }

  // ----- source directories -----

  function SourceOf(w: World, arg: string): Option<Path> {
    if arg in w.sources && w.sources[arg] in w.dirs then Some(w.sources[arg]) else None
  }

  /** The usable sources, each once, in order of first mention. */
  function SourcesOf(w: World, args: seq<string>): (r: seq<Path>)
    ensures Distinct(r)
    ensures forall s :: s in r <==> exists a :: a in args && SourceOf(w, a) == Some(s)
  {
    if args == [] then []
    else
      var rest, last := SourcesOf(w, args[..|args| - 1]), args[|args| - 1];
      assert args == args[..|args| - 1] + [last];
      match SourceOf(w, last)
      case None => rest
      case Some(s) => if s in rest then rest else rest + [s]
  }

  /** Later arguments only add sources, at the end. */
  lemma {:induction false} SourcesExtend(w: World, a: seq<string>, b: seq<string>)
    ensures SourcesOf(w, a) <= SourcesOf(w, a + b)
  {
    if b == [] {
      assert a + b == a;
    } else {
      var n := |b| - 1;
      SourcesExtend(w, a, b[..n]);
      assert (a + b)[..|a + b| - 1] == a + b[..n];
    }
  }

  function Invalid(w: World, args: seq<string>): seq<string> {
    FlatMap(a => if SourceOf(w, a).None? then [a] else [], args)
  }

  // ----- the loops -----

  class SeenFiles {
    var paths: set<Path>

    constructor (output: Path)
      ensures paths == {output}
    {
      paths := {output};
    }

    /** Only files that were kept, and the output itself, count as seen. */
    ghost predicate Valid(w: World, rules: Rules)
      reads this
    {
      rules.output in paths && forall p :: p in paths ==> p == rules.output || p in w.text
    }

    method CollectFromDirectory(w: World, rules: Rules, source: Path, multiple: bool)
      returns (items: seq<Item>, count: nat, errors: nat)
      requires Valid(w, rules) && source in w.listings
      modifies this
      ensures Valid(w, rules) && count == |items|
      ensures Tally(items, paths, errors) == Gather(w, SourceMentions(w, rules, source, multiple), Begin(old(paths)))
    {
      items, count, errors := [], 0, 0;
      var listing := w.listings[source];
      for i := 0 to |listing|
        invariant Valid(w, rules) && count == |items|
        invariant Tally(items, paths, errors) ==
          Gather(w, ScanMentions(w, rules, source, multiple, listing[..i]), Begin(old(paths)))
      {
        var p := listing[i];
        ScanOneMore(w, rules, source, multiple, listing, i, Begin(old(paths)));
        if p in w.dirs || Excluded(rules, p) { continue; }
        if p !in w.resolved {
          errors := errors + 1;
          continue;
        }
        var q := w.resolved[p];
        if q in paths { continue; }
        if q !in w.text {
          errors := errors + 1;
          continue;
        }
        items := items + [Item(Shown(p, source, multiple), w.text[q])];
        count := count + 1;
        paths := paths + {q};
      }
      assert listing[..|listing|] == listing;
    }

    method CollectFromFileList(w: World, rules: Rules, files: seq<string>, sources: seq<Path>)
      returns (items: seq<Item>, count: nat, errors: nat)
      requires Valid(w, rules)
      modifies this
      ensures Valid(w, rules) && count == |items|
      ensures Tally(items, paths, errors) == Gather(w, ListMentions(w, rules, sources, files), Begin(old(paths)))
    {
      items, count, errors := [], 0, 0;
      var multiple := |sources| > 1;
      for i := 0 to |files|
        invariant Valid(w, rules) && count == |items|
        invariant Tally(items, paths, errors) ==
            Gather(w, ListMentions(w, rules, sources, files[..i]), Begin(old(paths)))
      {
        var f := files[i];
        ListOneMore(w, rules, sources, files, i, Begin(old(paths)));
        if f !in w.named {
          errors := errors + 1;
          continue;
        }
        var q := w.named[f];
        if q !in w.files {
          errors := errors + 1;
          continue;
        }
        if q in paths { continue; }
        if Excluded(rules, q) { continue; }
        if q !in w.text {
          errors := errors + 1;
          continue;
        }
        items := items + [Item(ShownAmong(q, sources, multiple), w.text[q])];
        count := count + 1;
        paths := paths + {q};
      }
      assert files[..|files|] == files;
    }
  }

  lemma FlatMapOneMore<A, B>(f: A -> seq<B>, s: seq<A>, i: nat)
    requires i < |s|
    ensures FlatMap(f, s[..i + 1]) == FlatMap(f, s[..i]) + f(s[i])
  {
    assert s[..i + 1][..i] == s[..i];
  }

  lemma ScanOneMore(w: World, rules: Rules, source: Path, multiple: bool, listing: seq<Path>, i: nat, t: Tally)
    requires i < |listing|
    ensures Gather(w, ScanMentions(w, rules, source, multiple, listing[..i + 1]), t) ==
            Count(w, Gather(w, ScanMentions(w, rules, source, multiple, listing[..i]), t),
                  Scanned(w, rules, source, multiple, listing[i]))
  {
    FlatMapOneMore(p => [Scanned(w, rules, source, multiple, p)], listing, i);
    GatherOneMore(w, ScanMentions(w, rules, source, multiple, listing[..i]),
                  Scanned(w, rules, source, multiple, listing[i]), t);
  }

  lemma ListOneMore(w: World, rules: Rules, sources: seq<Path>, files: seq<string>, i: nat, t: Tally)
    requires i < |files|
    ensures Gather(w, ListMentions(w, rules, sources, files[..i + 1]), t) ==
            Count(w, Gather(w, ListMentions(w, rules, sources, files[..i]), t), Named(w, rules, sources, files[i]))
  {
    FlatMapOneMore(f => [Named(w, rules, sources, f)], files, i);
    GatherOneMore(w, ListMentions(w, rules, sources, files[..i]), Named(w, rules, sources, files[i]), t);
  }

  // ----- the whole run -----

  datatype Outcome =
    | OutputUnresolved                   // reported as failure
    | NoSourceGiven                      // an error is raised
    | NoUsableSource                     // reported as failure
    | NotWritten                         // reported as failure
    | Collected(items: seq<Item>, files: nat, errors: nat, ok: bool)

  /** The arguments of one run: `output` is None when the output path does not
      resolve, `writable` says whether writing it succeeds, and `scan` is None when
      only named files are wanted. */
  datatype Request = Request(
    excludeDirs: set<string>,
    excludeFiles: set<string>,
    output: Option<Path>,
    writable: bool,
    scan: Option<seq<string>>,
    named: seq<string>)

  function RulesOf(r: Request): Rules
    requires r.output.Some?
  {
    Rules(r.excludeDirs, r.excludeFiles, r.output.value)
  }

  function Sources(w: World, r: Request): seq<Path> {
    if r.scan.Some? then SourcesOf(w, r.scan.value) else []
  }

  function AllMentions(w: World, r: Request): seq<Mention>
    requires r.output.Some?
  {
    Mentions(w, RulesOf(r), Sources(w, r), r.named)
  }

  ghost function TotalErrors(w: World, r: Request): nat
    requires r.output.Some?
  {
    (if r.scan.Some? then |Invalid(w, r.scan.value)| else 0) + Failures(AllMentions(w, r))
  }

  ghost predicate Listed(w: World) { forall d :: d in w.dirs ==> d in w.listings }

  method NormalizeSources(w: World, args: seq<string>) returns (sources: seq<Path>, invalid: nat)
    ensures sources == SourcesOf(w, args) && invalid == |Invalid(w, args)|
  {
    sources, invalid := [], 0;
    for i := 0 to |args|
      invariant sources == SourcesOf(w, args[..i]) && invalid == |Invalid(w, args[..i])|
    {
      FlatMapOneMore(a => if SourceOf(w, a).None? then [a] else [], args, i);
      assert args[..i + 1][..i] == args[..i];
      if args[i] !in w.sources || w.sources[args[i]] !in w.dirs {
        invalid := invalid + 1;
        continue;
      }
      var source := w.sources[args[i]];
      if source in sources { continue; }
      sources := sources + [source];
    }
    assert args[..|args|] == args;
  }

  method ScanSources(w: World, rules: Rules, seen: SeenFiles, sources: seq<Path>)
    returns (items: seq<Item>, files: nat, errors: nat)
    requires seen.Valid(w, rules) && forall s :: s in sources ==> s in w.listings
    modifies seen
    ensures seen.Valid(w, rules) && files == |items|
    ensures Tally(items, seen.paths, errors) ==
        Gather(w, ScanAll(w, rules, sources, |sources| > 1), Begin(old(seen.paths)))
  {
    items, files, errors := [], 0, 0;
    var multiple := |sources| > 1;
    for i := 0 to |sources|
      invariant seen.Valid(w, rules) && files == |items|
      invariant Tally(items, seen.paths, errors) ==
          Gather(w, ScanAll(w, rules, sources[..i], multiple), Begin(old(seen.paths)))
    {
      ghost var t := Tally(items, seen.paths, errors);
      var more, count, failed := seen.CollectFromDirectory(w, rules, sources[i], multiple);
      FlatMapOneMore(s => SourceMentions(w, rules, s, multiple), sources, i);
      GatherSplit(w, ScanAll(w, rules, sources[..i], multiple), SourceMentions(w, rules, sources[i], multiple),
          Begin(old(seen.paths)));
      GatherCarries(w, SourceMentions(w, rules, sources[i], multiple), t);
      items, files, errors := items + more, files + count, errors + failed;
    }
    assert sources[..|sources|] == sources;
  }

  method CollectAll(w: World, rules: Rules, sources: seq<Path>, named: seq<string>)
    returns (items: seq<Item>, files: nat, errors: nat)
    requires forall s :: s in sources ==> s in w.listings
    ensures var g := Gather(w, Mentions(w, rules, sources, named), Begin({rules.output}));
            items == g.items && errors == g.errors && files == |items|
  {
    var seen := new SeenFiles(rules.output);
    var scanned, count, failed := ScanSources(w, rules, seen, sources);
    ghost var t := Tally(scanned, seen.paths, failed);
    var more, count', failed' := seen.CollectFromFileList(w, rules, named, sources);
    GatherSplit(w, ScanAll(w, rules, sources, |sources| > 1), ListMentions(w, rules, sources, named),
        Begin({rules.output}));
    GatherCarries(w, ListMentions(w, rules, sources, named), t);
    items, files, errors := scanned + more, count + count', failed + failed';
  }

  /** A run collects the first mention of every wanted file, in order, with its label
      and text, and counts exactly the failing mentions and the unusable sources; it
      succeeds iff there were none and the output could be written. */
  method CollectFiles(w: World, r: Request) returns (o: Outcome)
    requires Listed(w)
    ensures o.OutputUnresolved? <==> r.output.None?
    ensures o.NoSourceGiven? <==> r.output.Some? && r.scan == Some([])
    ensures o.NoUsableSource? <==> r.output.Some? && r.scan.Some? && r.scan.value != [] && Sources(w, r) == []
    ensures o.NotWritten? ==> !r.writable
    ensures o.Collected? ==>
              && r.output.Some? && r.writable
              && o.items == ItemsOf(w, Firsts(AllMentions(w, r), {r.output.value}))
              && o.files == |o.items| == |WantedIn(AllMentions(w, r))|
              && o.errors == TotalErrors(w, r)
              && (o.ok <==> o.errors == 0)
  {
    if r.output.None? { return OutputUnresolved; }
    var sources: seq<Path>, invalid := [], 0;
    if r.scan.Some? {
      if r.scan.value == [] { return NoSourceGiven; }
      sources, invalid := NormalizeSources(w, r.scan.value);
      if sources == [] { return NoUsableSource; }
      forall s | s in sources ensures s in w.listings {
        var a :| a in r.scan.value && SourceOf(w, a) == Some(s);
      }
    }
    var items, files, errors := CollectAll(w, RulesOf(r), sources, r.named);
    CollectedIs(w, RulesOf(r), sources, r.named);
    errors := invalid + errors;
    if !r.writable { return NotWritten; }
    o := Collected(items, files, errors, errors == 0);
  }

  lemma CollectedIs(w: World, rules: Rules, sources: seq<Path>, named: seq<string>)
    ensures var ms := Mentions(w, rules, sources, named);
            var g := Gather(w, ms, Begin({rules.output}));
            && g.items == ItemsOf(w, Firsts(ms, {rules.output})) && g.errors == Failures(ms)
            && |g.items| == |WantedIn(ms)|
  {
    var ms := Mentions(w, rules, sources, named);
    NeverOutput(w, rules, sources, named);
    GatherIs(w, ms, {rules.output});
    FirstsAre(ms, {rules.output});
    assert WantedIn(ms) - {rules.output} == WantedIn(ms);
  }

  lemma {:induction false} FlatMapHas<A, B>(f: A -> seq<B>, s: seq<A>, b: B)
    ensures b in FlatMap(f, s) <==> exists a :: a in s && b in f(a)
  {
    if s != [] {
      var n := |s| - 1;
      FlatMapHas(f, s[..n], b);
      assert s == s[..n] + [s[n]];
      assert s[n] in s;
    }
  }

  lemma {:induction false} WantedSplit(a: seq<Mention>, b: seq<Mention>)
    ensures WantedIn(a + b) == WantedIn(a) + WantedIn(b)
  {
    if b == [] {
      assert a + b == a;
    } else {
      var n := |b| - 1;
      WantedSplit(a, b[..n]);
      assert (a + b)[..|a + b| - 1] == a + b[..n];
    }
  }

  lemma WantedOne(m: Mention)
    ensures WantedIn([m]) == if m.Wanted? then {m.path} else {}
  {
    assert [m][..0] == [];
  }

  /** No part of the path is an excluded directory name, and its last part is no
      excluded file name. */
  ghost predicate Admissible(rules: Rules, p: Path) {
    && (forall i :: 0 <= i < |p| ==> p[i] !in rules.excludeDirs)
    && (p != [] ==> p[|p| - 1] !in rules.excludeFiles)
  }

  lemma AdmissibleIff(rules: Rules, p: Path)
    ensures Admissible(rules, p) <==> !Excluded(rules, p)
  {
  }

  /** The scan of `source` meets an admissible file that leads to `q`. */
  ghost predicate MetBy(w: World, rules: Rules, source: Path, q: Path) {
    && source in w.listings
    && exists p :: p in w.listings[source] && p !in w.dirs && Admissible(rules, p) && p in w.resolved &&
        w.resolved[p] == q
  }

  lemma SourceWants(w: World, rules: Rules, source: Path, multiple: bool, m: Mention)
    requires m.Wanted?
    ensures m in SourceMentions(w, rules, source, multiple) <==>
            source in w.listings && exists p :: p in w.listings[source] && Scanned(w, rules, source, multiple, p) == m
  {
    if source in w.listings {
      FlatMapHas(p => [Scanned(w, rules, source, multiple, p)], w.listings[source], m);
      forall p ensures m in [Scanned(w, rules, source, multiple, p)] <==> Scanned(w, rules, source, multiple, p) == m {}
    }
  }

  lemma SourceMeets(w: World, rules: Rules, source: Path, multiple: bool, q: Path)
    ensures q in WantedIn(SourceMentions(w, rules, source, multiple)) <==>
        q in w.text && q != rules.output && MetBy(w, rules, source, q)
  {
    var ms := SourceMentions(w, rules, source, multiple);
    WantedHas(ms, q);
    if q in WantedIn(ms) {
      var m :| m in ms && m.Wanted? && m.path == q;
      SourceWants(w, rules, source, multiple, m);
      var p :| p in w.listings[source] && Scanned(w, rules, source, multiple, p) == m;
      AdmissibleIff(rules, p);
    }
    if q in w.text && q != rules.output && MetBy(w, rules, source, q) {
      var p :| p in w.listings[source] && p !in w.dirs && Admissible(rules, p) && p in w.resolved && w.resolved[p] == q;
      AdmissibleIff(rules, p);
      SourceWants(w, rules, source, multiple, Scanned(w, rules, source, multiple, p));
    }
  }

  lemma {:induction false} ScanMeets(w: World, rules: Rules, sources: seq<Path>, multiple: bool, q: Path)
    ensures q in WantedIn(ScanAll(w, rules, sources, multiple)) <==>
            q in w.text && q != rules.output && exists s :: s in sources && MetBy(w, rules, s, q)
  {
    if sources != [] {
      var n := |sources| - 1;
      ScanMeets(w, rules, sources[..n], multiple, q);
      SourceMeets(w, rules, sources[n], multiple, q);
      WantedSplit(ScanAll(w, rules, sources[..n], multiple), SourceMentions(w, rules, sources[n], multiple));
      assert sources == sources[..n] + [sources[n]] && sources[n] in sources;
    }
  }

  lemma {:induction false} ListMeets(w: World, rules: Rules, sources: seq<Path>, files: seq<string>, q: Path)
    ensures q in WantedIn(ListMentions(w, rules, sources, files)) <==>
            && q in w.text && q != rules.output && q in w.files && Admissible(rules, q)
            && exists f :: f in files && f in w.named && w.named[f] == q
  {
    if files != [] {
      var n := |files| - 1;
      ListMeets(w, rules, sources, files[..n], q);
      WantedSplit(ListMentions(w, rules, sources, files[..n]), [Named(w, rules, sources, files[n])]);
      WantedOne(Named(w, rules, sources, files[n]));
      AdmissibleIff(rules, q);
      assert files == files[..n] + [files[n]] && files[n] in files;
    }
  }

  /** What is collected: the readable files other than the output that some scan
      meets under a name that is not excluded, or that are named and not excluded. */
  lemma WantedIff(w: World, rules: Rules, sources: seq<Path>, files: seq<string>, q: Path)
    ensures q in WantedIn(Mentions(w, rules, sources, files)) <==>
            && q in w.text && q != rules.output
            && (|| (exists s :: s in sources && MetBy(w, rules, s, q))
                || (q in w.files && Admissible(rules, q) && exists f :: f in files && f in w.named && w.named[f] == q))
  {
    ScanMeets(w, rules, sources, |sources| > 1, q);
    ListMeets(w, rules, sources, files, q);
    WantedSplit(ScanAll(w, rules, sources, |sources| > 1), ListMentions(w, rules, sources, files));
  }

  lemma NeverOutput(w: World, rules: Rules, sources: seq<Path>, files: seq<string>)
    ensures rules.output !in WantedIn(Mentions(w, rules, sources, files))
  {
    WantedIff(w, rules, sources, files, rules.output);
  }

  // ----- labels, texts and failures -----

  /** With one source a file below it is shown by the path that leads to it from there;
      in every other case by its path. */
  ghost predicate LabelOf(shown: Path, p: Path, sources: seq<Path>) {
    if |sources| == 1 && sources[0] <= p then sources[0] + shown == p else shown == p
  }

  lemma {:induction false} LabelAmong(p: Path, sources: seq<Path>)
    ensures LabelOf(ShownAmong(p, sources, |sources| > 1), p, sources)
  {
    if |sources| > 1 { ShownAmongSeveral(p, sources); }
  }

  lemma {:induction false} FirstsAmong(ms: seq<Mention>, seen: set<Path>, i: nat)
    requires i < |Firsts(ms, seen)|
    ensures Firsts(ms, seen)[i] in ms
  {
    var n := |ms| - 1;
    if i < |Firsts(ms[..n], seen)| { FirstsAmong(ms[..n], seen, i); }
  }

  /** Where a mention comes from: a scanned path or a name. */
  lemma MentionFrom(w: World, rules: Rules, sources: seq<Path>, files: seq<string>, m: Mention)
    ensures m in Mentions(w, rules, sources, files) <==>
            || (exists s, p :: s in sources && s in w.listings && p in w.listings[s]
                  && m == Scanned(w, rules, s, |sources| > 1, p))
            || (exists f :: f in files && m == Named(w, rules, sources, f))
  {
    var multiple := |sources| > 1;
    FlatMapHas(s => SourceMentions(w, rules, s, multiple), sources, m);
    forall s ensures m in SourceMentions(w, rules, s, multiple) <==>
        s in w.listings && exists p :: p in w.listings[s] && m == Scanned(w, rules, s, multiple, p)
    {
      if s in w.listings {
        FlatMapHas(p => [Scanned(w, rules, s, multiple, p)], w.listings[s], m);
      }
    }
    FlatMapHas(f => [Named(w, rules, sources, f)], files, m);
  }

  /** `p` is listed below a source and leads to `q`, or is `q` itself and was named. */
  ghost predicate Leads(w: World, sources: seq<Path>, files: seq<string>, p: Path, q: Path) {
    || (p in w.resolved && w.resolved[p] == q
        && exists s :: s in sources && s in w.listings && p in w.listings[s])
    || (p == q && exists f :: f in files && f in w.named && w.named[f] == q)
  }

  lemma ScannedShows(w: World, rules: Rules, sources: seq<Path>, files: seq<string>, s: Path, p: Path)
    requires s in sources && s in w.listings && p in w.listings[s]
    ensures var m := Scanned(w, rules, s, |sources| > 1, p);
            m.Wanted? ==> m.path in w.text && LabelOf(m.shown, p, sources) && Leads(w, sources, files, p, m.path)
  {
    assert |sources| == 1 ==> sources[0] == s;
  }

  lemma NamedShows(w: World, rules: Rules, sources: seq<Path>, files: seq<string>, f: string)
    requires f in files
    ensures var m := Named(w, rules, sources, f);
            m.Wanted? ==>
              m.path in w.text && LabelOf(m.shown, m.path, sources) && Leads(w, sources, files, m.path, m.path)
  {
    if f in w.named { LabelAmong(w.named[f], sources); }
  }

  lemma MentionShows(w: World, rules: Rules, sources: seq<Path>, files: seq<string>, m: Mention)
    requires m in Mentions(w, rules, sources, files) && m.Wanted?
    ensures m.path in w.text && exists p :: LabelOf(m.shown, p, sources) && Leads(w, sources, files, p, m.path)
  {
    MentionFrom(w, rules, sources, files, m);
    if s, p :| s in sources && s in w.listings && p in w.listings[s] && m == Scanned(w, rules, s, |sources| > 1, p) {
      ScannedShows(w, rules, sources, files, s, p);
    } else {
      var f :| f in files && m == Named(w, rules, sources, f);
      NamedShows(w, rules, sources, files, f);
    }
  }

  /** Every item kept shows the text of its file under the label of a path that led to it. */
  lemma ItemShows(w: World, rules: Rules, sources: seq<Path>, files: seq<string>, i: nat)
    requires i < |Firsts(Mentions(w, rules, sources, files), {rules.output})|
    ensures var fs := Firsts(Mentions(w, rules, sources, files), {rules.output});
            var item, q := ItemsOf(w, fs)[i], fs[i].path;
            && q in w.text && item.text == w.text[q]
            && exists p :: LabelOf(item.shown, p, sources) && Leads(w, sources, files, p, q)
  {
    var ms := Mentions(w, rules, sources, files);
    FirstsAmong(ms, {rules.output}, i);
    MentionShows(w, rules, sources, files, Firsts(ms, {rules.output})[i]);
  }

  /** A listed path is in order: a directory, excluded, the output, or a readable file. */
  ghost predicate PathInOrder(w: World, rules: Rules, p: Path) {
    || p in w.dirs || !Admissible(rules, p)
    || (p in w.resolved && (w.resolved[p] == rules.output || w.resolved[p] in w.text))
  }

  /** A name is in order: it leads to a file, and that is excluded, the output, or readable. */
  ghost predicate NameInOrder(w: World, rules: Rules, f: string) {
    && f in w.named && w.named[f] in w.files
    && (!Admissible(rules, w.named[f]) || w.named[f] == rules.output || w.named[f] in w.text)
  }

  lemma MentionsFail(w: World, rules: Rules, sources: seq<Path>, files: seq<string>)
    ensures Failures(Mentions(w, rules, sources, files)) == 0 <==>
            && (forall s, p :: s in sources && s in w.listings && p in w.listings[s] ==> PathInOrder(w, rules, p))
            && (forall f :: f in files ==> NameInOrder(w, rules, f))
  {
    var ms := Mentions(w, rules, sources, files);
    assert Failures(ms) == 0 <==> Failing !in ms by { assert Failing in multiset(ms) <==> Failing in ms; }
    MentionFrom(w, rules, sources, files, Failing);
    forall p: Path ensures Admissible(rules, p) <==> !Excluded(rules, p) { AdmissibleIff(rules, p); }
    var multiple := |sources| > 1;
    forall s, p ensures Scanned(w, rules, s, multiple, p) == Failing <==> !PathInOrder(w, rules, p) {}
    forall f ensures Named(w, rules, sources, f) == Failing <==> !NameInOrder(w, rules, f) {}
  }

  lemma InvalidNone(w: World, args: seq<string>)
    ensures |Invalid(w, args)| == 0 <==> forall a :: a in args ==> a in w.sources && w.sources[a] in w.dirs
  {
    var bad := Invalid(w, args);
    forall b ensures b in bad <==> b in args && SourceOf(w, b).None? {
      FlatMapHas(a => if SourceOf(w, a).None? then [a] else [], args, b);
    }
    assert bad != [] ==> bad[0] in bad;
  }

  /** A run counts no error iff every source is a directory, every path listed below one
      is in order, and so is every name. */
  lemma CleanIff(w: World, r: Request)
    requires r.output.Some?
    ensures TotalErrors(w, r) == 0 <==>
            && (r.scan.Some? ==> forall a :: a in r.scan.value ==> a in w.sources && w.sources[a] in w.dirs)
            && (forall s, p :: s in Sources(w, r) && s in w.listings && p in w.listings[s] ==>
                  PathInOrder(w, RulesOf(r), p))
            && (forall f :: f in r.named ==> NameInOrder(w, RulesOf(r), f))
  {
    MentionsFail(w, RulesOf(r), Sources(w, r), r.named);
    if r.scan.Some? { InvalidNone(w, r.scan.value); }
  }

  // ----- order independence -----

  lemma {:induction false} FlatMapSplit<A, B>(f: A -> seq<B>, a: seq<A>, b: seq<A>)
    ensures FlatMap(f, a + b) == FlatMap(f, a) + FlatMap(f, b)
  {
    if b == [] {
      assert a + b == a;
    } else {
      var n := |b| - 1;
      FlatMapSplit(f, a, b[..n]);
      assert (a + b)[..|a + b| - 1] == a + b[..n];
    }
  }

  lemma TakeOut<A>(b: seq<A>, i: nat)
    requires i < |b|
    ensures multiset(b[..i] + b[i + 1..]) == multiset(b) - multiset{b[i]}
  {
    assert b == b[..i] + [b[i]] + b[i + 1..];
  }

  lemma FlatMapTakeOut<A, B>(f: A -> seq<B>, b: seq<A>, i: nat)
    requires i < |b|
    ensures multiset(FlatMap(f, b)) == multiset(FlatMap(f, b[..i] + b[i + 1..])) + multiset(f(b[i]))
  {
    assert b == b[..i + 1] + b[i + 1..];
    FlatMapSplit(f, b[..i + 1], b[i + 1..]);
    FlatMapOneMore(f, b, i);
    FlatMapSplit(f, b[..i], b[i + 1..]);
  }

  lemma Partner<A>(a: seq<A>, b: seq<A>) returns (i: nat)
    requires multiset(a) == multiset(b) && a != []
    ensures i < |b| && b[i] == a[0] && multiset(a[1..]) == multiset(b[..i] + b[i + 1..])
  {
    assert a[0] in multiset(b);
    i :| 0 <= i < |b| && b[i] == a[0];
    TakeOut(b, i);
    assert a == [a[0]] + a[1..];
  }

  lemma PutBack<A, B>(f: A -> seq<B>, a: seq<A>, b: seq<A>, i: nat)
    requires a != [] && i < |b| && b[i] == a[0]
    requires multiset(FlatMap(f, a[1..])) == multiset(FlatMap(f, b[..i] + b[i + 1..]))
    ensures multiset(FlatMap(f, a)) == multiset(FlatMap(f, b))
  {
    FlatMapTakeOut(f, a, 0);
    assert a[..0] + a[1..] == a[1..];
    FlatMapTakeOut(f, b, i);
  }

  lemma {:induction false} FlatMapPermutes<A, B>(f: A -> seq<B>, a: seq<A>, b: seq<A>)
    requires multiset(a) == multiset(b)
    ensures multiset(FlatMap(f, a)) == multiset(FlatMap(f, b))
    decreases |a|
  {
    if a == [] {
      assert |multiset(b)| == |b| == 0;
    } else {
      var i := Partner(a, b);
      FlatMapPermutes(f, a[1..], b[..i] + b[i + 1..]);
      PutBack(f, a, b, i);
    }
  }

  lemma {:induction false} OnceCount(s: seq<Path>, x: Path)
    requires Distinct(s)
    ensures multiset(s)[x] == if x in s then 1 else 0
  {
    if s != [] {
      OnceCount(s[1..], x);
      assert s == [s[0]] + s[1..];
      assert s[0] !in s[1..];
    }
  }

  /** The same arguments in another order give the same sources in some order. */
  lemma SourcesPermute(w: World, a: seq<string>, b: seq<string>)
    requires multiset(a) == multiset(b)
    ensures multiset(SourcesOf(w, a)) == multiset(SourcesOf(w, b))
  {
    forall x ensures x in a <==> x in b { assert x in multiset(a) <==> x in multiset(b); }
    forall s ensures multiset(SourcesOf(w, a))[s] == multiset(SourcesOf(w, b))[s] {
      OnceCount(SourcesOf(w, a), s);
      OnceCount(SourcesOf(w, b), s);
    }
  }

  lemma InvalidPermutes(w: World, a: seq<string>, b: seq<string>)
    requires multiset(a) == multiset(b)
    ensures |Invalid(w, a)| == |Invalid(w, b)|
  {
    FlatMapPermutes(x => if SourceOf(w, x).None? then [x] else [], a, b);
    assert |multiset(Invalid(w, a))| == |Invalid(w, a)|;
    assert |multiset(Invalid(w, b))| == |Invalid(w, b)|;
  }

  lemma LabelsPermute(s: seq<Path>, t: seq<Path>, q: Path)
    requires multiset(s) == multiset(t)
    ensures |s| == |t| && ShownAmong(q, s, |s| > 1) == ShownAmong(q, t, |t| > 1)
  {
    assert |multiset(s)| == |s| && |multiset(t)| == |t|;
    if |s| > 1 {
      ShownAmongSeveral(q, s);
      ShownAmongSeveral(q, t);
    } else if |s| == 1 {
      assert s[0] in multiset(t);
    }
  }

  lemma MentionsPermute(w: World, rules: Rules, s: seq<Path>, t: seq<Path>, a: seq<string>, b: seq<string>)
    requires multiset(s) == multiset(t) && multiset(a) == multiset(b)
    ensures multiset(Mentions(w, rules, s, a)) == multiset(Mentions(w, rules, t, b))
  {
    LabelsPermute(s, t, []);
    FlatMapPermutes(x => SourceMentions(w, rules, x, |s| > 1), s, t);
    FlatMapPermutes(f => [Named(w, rules, s, f)], a, b);
    ListPermutes(w, rules, s, t, b);
  }

  lemma {:induction false} ListPermutes(w: World, rules: Rules, s: seq<Path>, t: seq<Path>, files: seq<string>)
    requires multiset(s) == multiset(t)
    ensures ListMentions(w, rules, s, files) == ListMentions(w, rules, t, files)
  {
    if files != [] {
      var n := |files| - 1;
      ListPermutes(w, rules, s, t, files[..n]);
      if files[n] in w.named { LabelsPermute(s, t, w.named[files[n]]); }
    }
  }

  lemma SameMentions(a: seq<Mention>, b: seq<Mention>)
    requires multiset(a) == multiset(b)
    ensures WantedIn(a) == WantedIn(b) && Failures(a) == Failures(b)
  {
    forall m ensures m in a <==> m in b { assert m in multiset(a) <==> m in multiset(b); }
    forall p ensures p in WantedIn(a) <==> p in WantedIn(b) {
      WantedHas(a, p);
      WantedHas(b, p);
    }
  }

  /** Sources and named files may come in any order: the files collected, how many,
      and the errors counted stay the same. */
  lemma OrderDoesNotMatter(w: World, r: Request, q: Request)
    requires r.output.Some? && q == r.(scan := q.scan, named := q.named)
    requires r.scan.Some? <==> q.scan.Some?
    requires r.scan.Some? ==> multiset(r.scan.value) == multiset(q.scan.value)
    requires multiset(r.named) == multiset(q.named)
    ensures WantedIn(AllMentions(w, r)) == WantedIn(AllMentions(w, q))
    ensures TotalErrors(w, r) == TotalErrors(w, q)
  {
    if r.scan.Some? {
      SourcesPermute(w, r.scan.value, q.scan.value);
      InvalidPermutes(w, r.scan.value, q.scan.value);
    }
    MentionsPermute(w, RulesOf(r), Sources(w, r), Sources(w, q), r.named, q.named);
    SameMentions(AllMentions(w, r), AllMentions(w, q));
  }
}
