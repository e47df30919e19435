/** The audit of one acceptance record against the world as it is now. */
module Evidence {
  import opened Wrappers
  import opened Fingerprint
  import opened Dependencies

  datatype Stamp = Stamp(seconds: real, aware: bool)

  /** Hardware fields as the gate reads them: a missing vendor is empty, and
      `outputs` and `driver` say whether the field is present and not empty. A
      soak time is None when it is missing or does not parse. */
  datatype Hardware = Hardware(
    vendor: string,
    outputs: bool,
    driver: bool,
    softwareRenderer: bool,
    soakStarted: Option<Stamp>,
    soakEnded: Option<Stamp>)

  datatype Artifact = Artifact(path: string, sha256: Digest)

  datatype Record = Record(
    format: Option<int>,
    scenario: Option<string>,
    status: Option<string>,
    level: Option<string>,
    dependencies: seq<Path>,
    expected: seq<(Path, Option<Digest>)>,
    binaries: seq<Artifact>,
    rawEvidence: seq<Artifact>,
    configs: seq<Artifact>,
    hardware: Hardware)

  /** What an audit looks at: the source tree and the regular files elsewhere. */
  datatype World = World(tree: Tree, files: map<string, string>)

  ghost predicate Readable(w: World) { forall p :: p in w.tree.walk ==> p in w.tree.text }

  const LEVELS: set<string> := {"compiled", "runnable", "isolated", "physical"}
  const STATUSES: set<string> := {"pass", "fail", "skip"}

  predicate OneOf(field: Option<string>, names: set<string>) { field.Some? && field.value in names }

  // ----- audit -----

  datatype Reason =
    | UnsupportedFormat
    | NotFingerprinted
    | Changed(name: Path)
    | WasMissing(name: Path)
    | ArtifactChanged(path: string)
    | InvalidStatus
    | InvalidLevel
    | NoRawEvidence
    | NoExecutable

  datatype Report = Report(scenario: Option<string>, historicalStatus: Option<string>, current: bool,
      invalidatedBy: seq<Reason>)

  function Artifacts(r: Record): seq<Artifact> { r.binaries + r.rawEvidence + r.configs }

  predicate Intact(a: Artifact, w: World, sha: string -> Digest) {
    a.path in w.files && sha(w.files[a.path]) == a.sha256
  }

  /** The fingerprint a name has now, None when it is not among the dependencies. */
  function Present(r: Record, name: Path, w: World, sha: string -> Digest): Option<Digest>
    requires Readable(w)
  {
    if name in r.dependencies then HashOf(w.tree, name, sha) else None
  }

  /** Nothing about the record has changed since it was made. */
  ghost predicate IsCurrent(r: Record, w: World, sha: string -> Digest)
    requires Readable(w)
  {
    && r.format == Some(2) && OneOf(r.status, STATUSES) && OneOf(r.level, LEVELS)
    && r.expected != []
    && (forall e :: e in r.expected ==> e.1.Some? && Present(r, e.0, w, sha) == e.1)
    && (forall a :: a in Artifacts(r) ==> Intact(a, w, sha))
    && (r.status == Some("pass") ==> r.rawEvidence != [] && r.binaries != [])
  }

  /** When each finding is justified. */
  ghost predicate Justified(x: Reason, r: Record, w: World, sha: string -> Digest)
    requires Readable(w)
  {
    match x
    case UnsupportedFormat => r.format != Some(2)
    case NotFingerprinted => r.expected == []
    case Changed(name) => exists e :: e in r.expected && e.0 == name && Present(r, name, w, sha) != e.1
    case WasMissing(name) => (name, None) in r.expected
    case ArtifactChanged(path) => exists a :: a in Artifacts(r) && a.path == path && !Intact(a, w, sha)
    case InvalidStatus => !OneOf(r.status, STATUSES)
    case InvalidLevel => !OneOf(r.level, LEVELS)
    case NoRawEvidence => r.status == Some("pass") && r.rawEvidence == []
    case NoExecutable => r.status == Some("pass") && r.binaries == []
  }

  /** Nothing is justified against a record iff it is current. */
  lemma NothingJustifiedIffCurrent(r: Record, w: World, sha: string -> Digest)
    requires Readable(w)
    ensures (forall x :: !Justified(x, r, w, sha)) <==> IsCurrent(r, w, sha)
  {
    if forall x :: !Justified(x, r, w, sha) {
      assert !Justified(UnsupportedFormat, r, w, sha) && !Justified(NotFingerprinted, r, w, sha);
      assert !Justified(InvalidStatus, r, w, sha) && !Justified(InvalidLevel, r, w, sha);
      assert !Justified(NoRawEvidence, r, w, sha) && !Justified(NoExecutable, r, w, sha);
      forall e | e in r.expected ensures e.1.Some? && Present(r, e.0, w, sha) == e.1 {
        assert !Justified(Changed(e.0), r, w, sha) && !Justified(WasMissing(e.0), r, w, sha);
        assert e == (e.0, e.1);
      }
      forall a | a in Artifacts(r) ensures Intact(a, w, sha) {
        assert !Justified(ArtifactChanged(a.path), r, w, sha);
      }
    }
  }

  // ----- the findings in order -----

  function Differing(r: Record, es: seq<(Path, Option<Digest>)>, w: World, sha: string -> Digest): seq<Reason>
    requires Readable(w)
  {
    if es == [] then []
    else
      var rest, (name, value) := Differing(r, es[..|es| - 1], w, sha), es[|es| - 1];
      if Present(r, name, w, sha) != value then rest + [Changed(name)] else rest
  }

  function Unrecorded(es: seq<(Path, Option<Digest>)>): seq<Reason> {
    if es == [] then []
    else
      var rest, (name, value) := Unrecorded(es[..|es| - 1]), es[|es| - 1];
      if value.None? then rest + [WasMissing(name)] else rest
  }

  function Broken(items: seq<Artifact>, w: World, sha: string -> Digest): seq<Reason> {
    if items == [] then []
    else
      var rest, last := Broken(items[..|items| - 1], w, sha), items[|items| - 1];
      if Intact(last, w, sha) then rest else rest + [ArtifactChanged(last.path)]
  }

  function When(cond: bool, x: Reason): seq<Reason> { if cond then [x] else [] }

  function AboutSource(r: Record, w: World, sha: string -> Digest): seq<Reason>
    requires Readable(w)
  {
    When(r.format != Some(2), UnsupportedFormat)
    + if r.expected == [] then [NotFingerprinted] else Differing(r, r.expected, w, sha) + Unrecorded(r.expected)
  }

  function AboutClaim(r: Record): seq<Reason> {
    When(!OneOf(r.status, STATUSES), InvalidStatus) + When(!OneOf(r.level, LEVELS), InvalidLevel)
    + When(r.status == Some("pass") && r.rawEvidence == [], NoRawEvidence)
    + When(r.status == Some("pass") && r.binaries == [], NoExecutable)
  }

  function Findings(r: Record, w: World, sha: string -> Digest): seq<Reason>
    requires Readable(w)
  {
    AboutSource(r, w, sha) + Broken(Artifacts(r), w, sha) + AboutClaim(r)
  }

  function ReportOf(r: Record, w: World, sha: string -> Digest): Report
    requires Readable(w)
  {
    Report(r.scenario, r.status, Findings(r, w, sha) == [], Findings(r, w, sha))
  }

  lemma {:induction false} DifferingHas(r: Record, es: seq<(Path, Option<Digest>)>, w: World,
      sha: string -> Digest, x: Reason)
    requires Readable(w)
    ensures x in Differing(r, es, w, sha) <==>
            x.Changed? && exists e :: e in es && e.0 == x.name && Present(r, x.name, w, sha) != e.1
  {
    if es != [] {
      var n := |es| - 1;
      DifferingHas(r, es[..n], w, sha, x);
      assert es == es[..n] + [es[n]];
      assert es[n] in es;
    }
  }

  lemma {:induction false} UnrecordedHas(es: seq<(Path, Option<Digest>)>, x: Reason)
    ensures x in Unrecorded(es) <==> x.WasMissing? && (x.name, None) in es
  {
    if es != [] {
      var n := |es| - 1;
      UnrecordedHas(es[..n], x);
      assert es == es[..n] + [es[n]] && es[n] == (es[n].0, es[n].1);
    }
  }

  lemma {:induction false} BrokenHas(items: seq<Artifact>, w: World, sha: string -> Digest, x: Reason)
    ensures x in Broken(items, w, sha) <==>
            x.ArtifactChanged? && exists a :: a in items && a.path == x.path && !Intact(a, w, sha)
  {
    if items != [] {
      var n := |items| - 1;
      BrokenHas(items[..n], w, sha, x);
      assert items == items[..n] + [items[n]];
      assert items[n] in items;
    }
  }

  lemma FindingsSplit(r: Record, w: World, sha: string -> Digest, x: Reason)
    requires Readable(w)
    ensures x in Findings(r, w, sha) <==>
            || (x.UnsupportedFormat? && r.format != Some(2))
            || (x.NotFingerprinted? && r.expected == [])
            || (r.expected != [] && (x in Differing(r, r.expected, w, sha) || x in Unrecorded(r.expected)))
            || x in Broken(Artifacts(r), w, sha)
            || x in AboutClaim(r)
  {
  }

  lemma FindingJustified(r: Record, w: World, sha: string -> Digest, x: Reason)
    requires Readable(w)
    ensures x in Findings(r, w, sha) <==> Justified(x, r, w, sha)
  {
    DifferingHas(r, r.expected, w, sha, x);
    UnrecordedHas(r.expected, x);
    BrokenHas(Artifacts(r), w, sha, x);
    FindingsSplit(r, w, sha, x);
  }

  /** The findings are exactly the justified ones; there are none iff the record is
      current. */
  lemma FindingsAreJustified(r: Record, w: World, sha: string -> Digest)
    requires Readable(w)
    ensures forall x :: x in Findings(r, w, sha) <==> Justified(x, r, w, sha)
    ensures Findings(r, w, sha) == [] <==> IsCurrent(r, w, sha)
  {
    forall x ensures x in Findings(r, w, sha) <==> Justified(x, r, w, sha) { FindingJustified(r, w, sha, x); }
    NothingJustifiedIffCurrent(r, w, sha);
    var fs := Findings(r, w, sha);
    assert fs != [] ==> fs[0] in fs;
  }

  // ----- the same on the fields of the record -----

  /** What the audit demands, field by field. */
  lemma CurrentIff(r: Record, w: World, sha: string -> Digest)
    requires Readable(w)
    ensures IsCurrent(r, w, sha) <==>
            && r.format == Some(2)
            && r.status in {Some("pass"), Some("fail"), Some("skip")}
            && r.level in {Some("compiled"), Some("runnable"), Some("isolated"), Some("physical")}
            && r.expected != []
            && (forall e :: e in r.expected ==>
                  e.1.Some? && e.0 in r.dependencies && HashOf(w.tree, e.0, sha) == e.1)
            && (forall a :: a in r.binaries || a in r.rawEvidence || a in r.configs ==>
                  a.path in w.files && sha(w.files[a.path]) == a.sha256)
            && (r.status == Some("pass") ==> r.rawEvidence != [] && r.binaries != [])
  {
    ArtifactsAre(r);
  }

  lemma ArtifactsAre(r: Record)
    ensures forall a :: a in Artifacts(r) <==> a in r.binaries || a in r.rawEvidence || a in r.configs
  {
  }

  /** An executable, a log or a configuration that is gone or has another digest makes
      the record stale and is reported by its path. */
  lemma ChangedArtifactIsFound(r: Record, w: World, sha: string -> Digest, a: Artifact)
    requires Readable(w) && (a in r.binaries || a in r.rawEvidence || a in r.configs)
    requires a.path !in w.files || sha(w.files[a.path]) != a.sha256
    ensures !IsCurrent(r, w, sha) && ArtifactChanged(a.path) in Findings(r, w, sha)
  {
    CurrentIff(r, w, sha);
    FindingsAreJustified(r, w, sha);
    assert a in Artifacts(r);
    assert Justified(ArtifactChanged(a.path), r, w, sha);
  }

  /** So is a dependency that is missing, not among the dependencies of the record, or
      has another fingerprint than the recorded one. */
  lemma ChangedSourceIsFound(r: Record, w: World, sha: string -> Digest, name: Path, value: Option<Digest>)
    requires Readable(w) && (name, value) in r.expected
    requires name !in r.dependencies || HashOf(w.tree, name, sha) != value || value.None?
    ensures !IsCurrent(r, w, sha)
    ensures Changed(name) in Findings(r, w, sha) || WasMissing(name) in Findings(r, w, sha)
  {
    CurrentIff(r, w, sha);
    FindingsAreJustified(r, w, sha);
    assert Justified(Changed(name), r, w, sha) || Justified(WasMissing(name), r, w, sha);
  }

  // ----- the loops -----

  /** The audit reports the findings in order, and calls a record current exactly
      when it is. */
  method Audit(r: Record, w: World, sha: string -> Digest) returns (report: Report)
    requires Readable(w)
    ensures report == ReportOf(r, w, sha)
    ensures report.scenario == r.scenario && report.historicalStatus == r.status
    ensures report.current <==> IsCurrent(r, w, sha)
    ensures forall x :: x in report.invalidatedBy <==> Justified(x, r, w, sha)
  {
    var reasons := AuditSource(r, w, sha);
    var broken := AuditArtifacts(Artifacts(r), w, sha);
    var claims := AuditClaim(r);
    reasons := reasons + broken + claims;
    FindingsAreJustified(r, w, sha);
    return Report(r.scenario, r.status, reasons == [], reasons);
  }

  method AuditSource(r: Record, w: World, sha: string -> Digest) returns (reasons: seq<Reason>)
    requires Readable(w)
    ensures reasons == AboutSource(r, w, sha)
  {
    reasons := [];
    if r.format != Some(2) {
      reasons := reasons + [UnsupportedFormat];
    }
    if r.expected == [] {
      reasons := reasons + [NotFingerprinted];
    } else {
      var current := DependencyHashes(r.dependencies, w.tree, sha);
      var changed := AuditHashes(r, current, w, sha);
      var missing := AuditMissing(r.expected);
      reasons := reasons + (changed + missing);
    }
  }

  method AuditHashes(r: Record, current: map<Path, Option<Digest>>, w: World, sha: string -> Digest)
    returns (reasons: seq<Reason>)
    requires Readable(w)
    requires forall name :: name in current <==> name in r.dependencies
    requires forall name :: name in current ==> current[name] == HashOf(w.tree, name, sha)
    ensures reasons == Differing(r, r.expected, w, sha)
  {
    reasons := [];
    for i := 0 to |r.expected|
      invariant reasons == Differing(r, r.expected[..i], w, sha)
    {
      assert r.expected[..i + 1][..i] == r.expected[..i];
      var (name, value) := r.expected[i];
      if (if name in current then current[name] else None) != value {
        reasons := reasons + [Changed(name)];
      }
    }
    assert r.expected[..|r.expected|] == r.expected;
  }

  method AuditMissing(es: seq<(Path, Option<Digest>)>) returns (reasons: seq<Reason>)
    ensures reasons == Unrecorded(es)
  {
    reasons := [];
    for i := 0 to |es|
      invariant reasons == Unrecorded(es[..i])
    {
      assert es[..i + 1][..i] == es[..i];
      if es[i].1.None? {
        reasons := reasons + [WasMissing(es[i].0)];
      }
    }
    assert es[..|es|] == es;
  }

  method AuditArtifacts(items: seq<Artifact>, w: World, sha: string -> Digest) returns (reasons: seq<Reason>)
    ensures reasons == Broken(items, w, sha)
  {
    reasons := [];
    for i := 0 to |items|
      invariant reasons == Broken(items[..i], w, sha)
    {
      assert items[..i + 1][..i] == items[..i];
      if items[i].path !in w.files || sha(w.files[items[i].path]) != items[i].sha256 {
        reasons := reasons + [ArtifactChanged(items[i].path)];
      }
    }
    assert items[..|items|] == items;
  }

  method AuditClaim(r: Record) returns (reasons: seq<Reason>)
    ensures reasons == AboutClaim(r)
  {
    reasons := [];
    if !OneOf(r.status, STATUSES) {
      reasons := reasons + [InvalidStatus];
    }
    if !OneOf(r.level, LEVELS) {
      reasons := reasons + [InvalidLevel];
    }
    if r.status == Some("pass") && r.rawEvidence == [] {
      reasons := reasons + [NoRawEvidence];
    }
    if r.status == Some("pass") && r.binaries == [] {
      reasons := reasons + [NoExecutable];
    }
  }

  /** An artifact intact in one world is intact in another iff it has the same text there. */
  lemma SameTextIffIntact(w: World, w': World, sha: string -> Digest)
    ensures NoCollision(sha, w.files.Values + w'.files.Values) ==>
              forall a :: Intact(a, w, sha) ==>
                (Intact(a, w', sha) <==> a.path in w'.files && w'.files[a.path] == w.files[a.path])
  {
    forall p ensures p in w.files ==> w.files[p] in w.files.Values {}
    forall p ensures p in w'.files ==> w'.files[p] in w'.files.Values {}
  }

  /** A current record stays current in a changed world iff its artifacts are
      intact there, that is, still have the same texts, and no source it depends on
      has changed (but for a file that masquerades as a directory). So adding,
      removing or editing any watched file makes it stale. */
  lemma StaysCurrentIff(r: Record, w: World, w': World, sha: string -> Digest)
    requires WellFormed(w.tree) && WellFormed(w'.tree) && PlainNames(w.tree) && PlainNames(w'.tree) && Digests(sha)
    requires forall e :: e in r.expected ==>
               NoCollision(sha, w.tree.text.Values + w'.tree.text.Values
                                + {Preimage(w.tree, e.0, sha), Preimage(w'.tree, e.0, sha)})
    requires IsCurrent(r, w, sha)
    ensures IsCurrent(r, w', sha) <==>
            && (forall a :: a in Artifacts(r) ==> Intact(a, w', sha))
            && (forall e :: e in r.expected ==>
                  SourceAt(w.tree, e.0) == SourceAt(w'.tree, e.0) || Masquerade(w.tree, w'.tree, e.0, sha))
    ensures NoCollision(sha, w.files.Values + w'.files.Values) ==>
              (IsCurrent(r, w', sha) <==>
                && (forall a :: a in r.binaries || a in r.rawEvidence || a in r.configs ==>
                      a.path in w.files && a.path in w'.files && w'.files[a.path] == w.files[a.path])
                && (forall e :: e in r.expected ==>
                      SourceAt(w.tree, e.0) == SourceAt(w'.tree, e.0) || Masquerade(w.tree, w'.tree, e.0, sha)))
  {
    ArtifactsAre(r);
    SameTextIffIntact(w, w', sha);
    forall e | e in r.expected
      ensures Present(r, e.0, w', sha) == e.1 <==>
              SourceAt(w.tree, e.0) == SourceAt(w'.tree, e.0) || Masquerade(w.tree, w'.tree, e.0, sha)
    {
      HashIffSource(w.tree, w'.tree, e.0, sha);
    }
  }
}
