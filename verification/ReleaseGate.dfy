/** The release gate: which verdict a set of audited records earns, and what
    waivers can and cannot do about it. */
module ReleaseGate {
  import opened Wrappers
  import opened Fingerprint
  import opened Evidence

  const VENDORS: set<string> := {"intel", "amd", "nvidia"}
  const LIFECYCLE: set<string> := {"login-upgrade", "bad-binary", "rollback", "crash-recovery", "active-exit"}
  const SOAK_SECONDS := 604800.0

  /** Lower-casing of the letters the vendor names are made of. */
  function Lower(s: string): string {
    if s == "" then ""
    else [if 'A' <= s[0] <= 'Z' then s[0] - 'A' + 'a' else s[0]] + Lower(s[1..])
  }

  predicate IsSpace(c: char) {
    || '\t' <= c <= '\r' || '\U{1c}' <= c <= ' ' || c == '\U{85}' || c == '\U{a0}' || c == '\U{1680}'
    || '\U{2000}' <= c <= '\U{200a}' || c == '\U{2028}' || c == '\U{2029}' || c == '\U{202f}'
    || c == '\U{205f}' || c == '\U{3000}'
  }

  predicate Blank(s: string) { forall c :: c in s ==> IsSpace(c) }

  datatype Failure = VendorsShort | CasesMissing(cases: set<string>) | SoakMissing | BadEvidence

  datatype Verdict = Verdict(
    releaseReady: bool,
    candidateReady: bool,
    reasons: seq<Failure>,
    blocking: seq<Failure>,
    waived: map<string, string>)

  // ----- which records count, and for what -----

  predicate GoodHardware(h: Hardware) {
    Lower(h.vendor) in VENDORS && h.outputs && h.driver && !h.softwareRenderer
  }

  predicate Claims(r: Record) {
    r.status == Some("pass") && r.level == Some("physical") && GoodHardware(r.hardware)
  }

  ghost predicate Qualified(r: Record, w: World, sha: string -> Digest)
    requires Readable(w)
  {
    Claims(r) && IsCurrent(r, w, sha)
  }

  ghost predicate Bad(r: Record, w: World, sha: string -> Digest)
    requires Readable(w)
  {
    r.status == Some("fail") || !IsCurrent(r, w, sha)
  }

  /** A soak that is over, lasted seven days and is stated in absolute time. */
  predicate Soaked(h: Hardware, now: real) {
    && h.soakStarted.Some? && h.soakEnded.Some?
    && h.soakStarted.value.aware && h.soakEnded.value.aware
    && now >= h.soakEnded.value.seconds >= h.soakStarted.value.seconds
    && h.soakEnded.value.seconds - h.soakStarted.value.seconds >= SOAK_SECONDS
  }

  ghost function Vendors(rs: seq<Record>, w: World, sha: string -> Digest): set<string>
    requires Readable(w)
  {
    set r | r in rs && Qualified(r, w, sha) :: Lower(r.hardware.vendor)
  }

  ghost predicate Covered(c: string, rs: seq<Record>, w: World, sha: string -> Digest)
    requires Readable(w)
  {
    exists r :: r in rs && Qualified(r, w, sha) && r.scenario == Some(c)
  }

  ghost function Missing(rs: seq<Record>, w: World, sha: string -> Digest): set<string>
    requires Readable(w)
  {
    set c | c in LIFECYCLE && !Covered(c, rs, w, sha)
  }

  ghost predicate HasSoak(rs: seq<Record>, w: World, sha: string -> Digest, now: real)
    requires Readable(w)
  {
    exists r :: r in rs && Qualified(r, w, sha) && r.scenario == Some("daily-soak") && Soaked(r.hardware, now)
  }

  ghost predicate HasBad(rs: seq<Record>, w: World, sha: string -> Digest)
    requires Readable(w)
  {
    exists r :: r in rs && Bad(r, w, sha)
  }

  // ----- the verdict -----

  predicate Waives(waivers: map<string, string>, f: Failure) {
    match f
    case VendorsShort => "second_gpu_vendor" in waivers && !Blank(waivers["second_gpu_vendor"])
    case SoakMissing => "seven_day_soak" in waivers && !Blank(waivers["seven_day_soak"])
    case _ => false
  }

  function Unwaived(fs: seq<Failure>, waivers: map<string, string>): (r: seq<Failure>)
    ensures forall f :: f in r <==> f in fs && !Waives(waivers, f)
  {
    if fs == [] then []
    else if Waives(waivers, fs[0]) then Unwaived(fs[1..], waivers)
    else [fs[0]] + Unwaived(fs[1..], waivers)
  }

  function Effective(waivers: map<string, string>): map<string, string> {
    map k | k in waivers && k in {"second_gpu_vendor", "seven_day_soak"} && !Blank(waivers[k]) :: waivers[k]
  }

  function When(cond: bool, f: Failure): seq<Failure> { if cond then [f] else [] }

  ghost function Failures(rs: seq<Record>, w: World, sha: string -> Digest, now: real): seq<Failure>
    requires Readable(w)
  {
    When(|Vendors(rs, w, sha)| < 2, VendorsShort)
    + When(Missing(rs, w, sha) != {}, CasesMissing(Missing(rs, w, sha)))
    + When(!HasSoak(rs, w, sha, now), SoakMissing)
    + When(HasBad(rs, w, sha), BadEvidence)
  }

  ghost function Gate(rs: seq<Record>, w: World, sha: string -> Digest, now: real, waivers: map<string,
      string>): Verdict
    requires Readable(w)
  {
    var failures := Failures(rs, w, sha, now);
    var blocking := Unwaived(failures, waivers);
    Verdict(failures == [], blocking == [], failures, blocking, Effective(waivers))
  }

  // ----- the computation -----

  method ReleaseGate(rs: seq<Record>, w: World, sha: string -> Digest, now: real, waivers: map<string, string>)
    returns (v: Verdict, cases: seq<Report>)
    requires Readable(w)
    ensures v == Gate(rs, w, sha, now, waivers)
    ensures |cases| == |rs| && forall i :: 0 <= i < |rs| ==> cases[i] == ReportOf(rs[i], w, sha)
  {
    cases := AuditAll(rs, w, sha);
    var qualified := SelectQualified(rs, cases, w, sha);
    var vendors := VendorsOf(qualified, rs, w, sha);
    var missing := LIFECYCLE - ScenariosOf(qualified);
    MissingIs(rs, qualified, w, sha);
    var validSoak := AnySoak(qualified, now);
    var bad := AnyBad(rs, cases, w, sha);
    var failures := ListFailures(vendors, missing, validSoak, bad);
    assert failures == Failures(rs, w, sha, now);
    var blocking := Unwaived(failures, waivers);
    v := Verdict(failures == [], blocking == [], failures, blocking, Effective(waivers));
  }

  method ListFailures(vendors: set<string>, missing: set<string>, validSoak: bool, bad: bool)
    returns (failures: seq<Failure>)
    ensures failures == When(|vendors| < 2, VendorsShort) + When(missing != {}, CasesMissing(missing))
                        + When(!validSoak, SoakMissing) + When(bad, BadEvidence)
  {
    failures := [];
    if |vendors| < 2 {
      failures := failures + [VendorsShort];
    }
    if missing != {} {
      failures := failures + [CasesMissing(missing)];
    }
    if !validSoak {
      failures := failures + [SoakMissing];
    }
    if bad {
      failures := failures + [BadEvidence];
    }
  }

  method VendorsOf(qualified: seq<Record>, ghost rs: seq<Record>, ghost w: World, ghost sha: string -> Digest)
    returns (vendors: set<string>)
    requires Readable(w) && forall r :: r in qualified <==> r in rs && Qualified(r, w, sha)
    ensures vendors == Vendors(rs, w, sha)
  {
    vendors := set r | r in qualified :: Lower(r.hardware.vendor);
  }

  function ScenariosOf(qualified: seq<Record>): set<string> {
    set r | r in qualified && r.scenario.Some? :: r.scenario.value
  }

  method AuditAll(rs: seq<Record>, w: World, sha: string -> Digest) returns (reports: seq<Report>)
    requires Readable(w)
    ensures |reports| == |rs| && forall i :: 0 <= i < |rs| ==> reports[i] == ReportOf(rs[i], w, sha)
    ensures forall i :: 0 <= i < |rs| ==> reports[i].current == IsCurrent(rs[i], w, sha)
  {
    reports := [];
    for i := 0 to |rs|
      invariant |reports| == i && forall j :: 0 <= j < i ==> reports[j] == ReportOf(rs[j], w, sha)
      invariant forall j :: 0 <= j < i ==> reports[j].current == IsCurrent(rs[j], w, sha)
    {
      var report := Audit(rs[i], w, sha);
      reports := reports + [report];
    }
  }

  method SelectQualified(rs: seq<Record>, reports: seq<Report>, w: World, sha: string -> Digest)
    returns (chosen: seq<Record>)
    requires Readable(w) && |reports| == |rs|
    requires forall i :: 0 <= i < |rs| ==> reports[i].current == IsCurrent(rs[i], w, sha)
    ensures forall r :: r in chosen <==> r in rs && Qualified(r, w, sha)
  {
    chosen := [];
    for i := 0 to |rs|
      invariant forall r :: r in chosen <==> r in rs[..i] && Qualified(r, w, sha)
    {
      if reports[i].current && Claims(rs[i]) {
        chosen := chosen + [rs[i]];
      }
    }
    assert rs[..|rs|] == rs;
  }

  lemma MissingIs(rs: seq<Record>, qualified: seq<Record>, w: World, sha: string -> Digest)
    requires Readable(w) && forall r :: r in qualified <==> r in rs && Qualified(r, w, sha)
    ensures LIFECYCLE - ScenariosOf(qualified) == Missing(rs, w, sha)
  {
    var cases := ScenariosOf(qualified);
    forall c ensures c in cases <==> Covered(c, rs, w, sha) {
      if Covered(c, rs, w, sha) {
        var r :| r in rs && Qualified(r, w, sha) && r.scenario == Some(c);
        assert r in qualified;
      }
    }
  }

  method AnySoak(qualified: seq<Record>, now: real) returns (valid: bool)
    ensures valid <==> exists r :: r in qualified && r.scenario == Some("daily-soak") && Soaked(r.hardware, now)
  {
    valid := false;
    for i := 0 to |qualified|
      invariant valid <==>
        (exists r :: r in qualified[..i] && r.scenario == Some("daily-soak") && Soaked(r.hardware, now))
    {
      assert qualified[..i + 1] == qualified[..i] + [qualified[i]];
      if qualified[i].scenario == Some("daily-soak") {
        valid := valid || Soaked(qualified[i].hardware, now);
      }
    }
    assert qualified[..|qualified|] == qualified;
  }

  method AnyBad(rs: seq<Record>, reports: seq<Report>, w: World, sha: string -> Digest) returns (bad: bool)
    requires Readable(w) && |reports| == |rs|
    requires forall i :: 0 <= i < |rs| ==> reports[i].current == IsCurrent(rs[i], w, sha)
    ensures bad <==> HasBad(rs, w, sha)
  {
    bad := false;
    for i := 0 to |rs|
      invariant bad <==> exists r :: r in rs[..i] && Bad(r, w, sha)
    {
      assert rs[..i + 1] == rs[..i] + [rs[i]];
      assert rs[i] in rs[..i + 1];
      bad := bad || rs[i].status == Some("fail") || !reports[i].current;
    }
    assert rs[..|rs|] == rs;
  }

  // ----- what the verdict means -----

  lemma FailuresAre(rs: seq<Record>, w: World, sha: string -> Digest, now: real, f: Failure)
    requires Readable(w)
    ensures f in Failures(rs, w, sha, now) <==>
            match f
            case VendorsShort => |Vendors(rs, w, sha)| < 2
            case CasesMissing(cs) => cs == Missing(rs, w, sha) && cs != {}
            case SoakMissing => !HasSoak(rs, w, sha, now)
            case BadEvidence => HasBad(rs, w, sha)
  {
  }

  /** What makes a record count, field by field. */
  lemma QualifiedIff(r: Record, w: World, sha: string -> Digest)
    requires Readable(w)
    ensures Qualified(r, w, sha) <==>
            && IsCurrent(r, w, sha) && r.status == Some("pass") && r.level == Some("physical")
            && Lower(r.hardware.vendor) in {"intel", "amd", "nvidia"}
            && r.hardware.outputs && r.hardware.driver && !r.hardware.softwareRenderer
  {
  }

  /** Vendor names are compared letter by letter without regard to case. */
  lemma {:induction false} LowerIs(s: string)
    ensures |Lower(s)| == |s|
    ensures forall i :: 0 <= i < |s| ==>
        Lower(s)[i] == if 'A' <= s[i] <= 'Z' then (s[i] as int + 32) as char else s[i]
  {
    if s != "" { LowerIs(s[1..]); }
  }

  lemma SizeTwo(a: set<string>)
    ensures |a| >= 2 <==> exists x, y :: x in a && y in a && x != y
  {
    if |a| >= 2 {
      var x :| x in a;
      assert |a - {x}| >= 1;
      var y :| y in a - {x};
    }
    if x, y :| x in a && y in a && x != y {
      assert a == {x, y} + (a - {x, y});
    }
  }

  lemma TwoVendorsIff(rs: seq<Record>, w: World, sha: string -> Digest)
    requires Readable(w)
    ensures |Vendors(rs, w, sha)| >= 2 <==>
            exists a, b :: a in rs && b in rs && Qualified(a, w, sha) && Qualified(b, w, sha)
                           && Lower(a.hardware.vendor) != Lower(b.hardware.vendor)
  {
    SizeTwo(Vendors(rs, w, sha));
    if a, b :| a in rs && b in rs && Qualified(a, w, sha) && Qualified(b, w, sha)
               && Lower(a.hardware.vendor) != Lower(b.hardware.vendor) {
      assert Lower(a.hardware.vendor) in Vendors(rs, w, sha) && Lower(b.hardware.vendor) in Vendors(rs, w, sha);
    }
  }

  lemma ReleaseReadyIff(rs: seq<Record>, w: World, sha: string -> Digest, now: real, waivers: map<string, string>)
    requires Readable(w)
    ensures Gate(rs, w, sha, now, waivers).releaseReady <==>
            && |Vendors(rs, w, sha)| >= 2
            && (forall c :: c in {"login-upgrade", "bad-binary", "rollback", "crash-recovery", "active-exit"} ==>
                  Covered(c, rs, w, sha))
            && HasSoak(rs, w, sha, now)
            && (forall r :: r in rs ==> IsCurrent(r, w, sha) && r.status != Some("fail"))
  {
    MissingNone(rs, w, sha);
  }

  lemma MissingNone(rs: seq<Record>, w: World, sha: string -> Digest)
    requires Readable(w)
    ensures Missing(rs, w, sha) == {} <==> forall c :: c in LIFECYCLE ==> Covered(c, rs, w, sha)
  {
    forall c ensures c in Missing(rs, w, sha) <==> c in LIFECYCLE && !Covered(c, rs, w, sha) {}
  }

  /** A candidate is ready iff all five lifecycle cases are covered by qualified
      physical records, no record is failed or stale, and each of the two other
      gates is passed or waived for a stated reason. */
  lemma CandidateReadyIff(rs: seq<Record>, w: World, sha: string -> Digest, now: real, waivers: map<string, string>)
    requires Readable(w)
    ensures Gate(rs, w, sha, now, waivers).candidateReady <==>
            && (|Vendors(rs, w, sha)| >= 2
                || ("second_gpu_vendor" in waivers && exists c :: c in waivers["second_gpu_vendor"] && !IsSpace(c)))
            && (forall c :: c in {"login-upgrade", "bad-binary", "rollback", "crash-recovery", "active-exit"} ==>
                  Covered(c, rs, w, sha))
            && (HasSoak(rs, w, sha, now)
                || ("seven_day_soak" in waivers && exists c :: c in waivers["seven_day_soak"] && !IsSpace(c)))
            && (forall r :: r in rs ==> IsCurrent(r, w, sha) && r.status != Some("fail"))
  {
    MissingNone(rs, w, sha);
    var v := Gate(rs, w, sha, now, waivers);
    var cases := CasesMissing(Missing(rs, w, sha));
    forall f ensures f in v.blocking <==> f in v.reasons && !Waives(waivers, f) {}
    assert v.blocking != [] ==> v.blocking[0] in v.blocking;
    FailuresAre(rs, w, sha, now, VendorsShort);
    FailuresAre(rs, w, sha, now, SoakMissing);
    FailuresAre(rs, w, sha, now, BadEvidence);
    FailuresAre(rs, w, sha, now, cases);
    if v.blocking != [] { FailuresAre(rs, w, sha, now, v.blocking[0]); }
  }

  /** A ready release rests on two passing physical records with displays and a driver,
      made without software rendering on hardware of two of the three vendors, and on
      one such record of a soak that is over and took seven days. */
  lemma ReleaseRestsOn(rs: seq<Record>, w: World, sha: string -> Digest, now: real, waivers: map<string, string>)
    returns (a: Record, b: Record, soak: Record)
    requires Readable(w) && Gate(rs, w, sha, now, waivers).releaseReady
    ensures Lower(a.hardware.vendor) != Lower(b.hardware.vendor)
    ensures soak.scenario == Some("daily-soak")
    ensures var h := soak.hardware;
            && h.soakStarted.Some? && h.soakStarted.value.aware && h.soakEnded.Some? && h.soakEnded.value.aware
            && h.soakEnded.value.seconds <= now
            && h.soakEnded.value.seconds >= h.soakStarted.value.seconds + 604800.0
    ensures forall r :: r in {a, b, soak} ==>
              && r in rs && IsCurrent(r, w, sha) && r.status == Some("pass") && r.level == Some("physical")
              && Lower(r.hardware.vendor) in {"intel", "amd", "nvidia"}
              && r.hardware.outputs && r.hardware.driver && !r.hardware.softwareRenderer
  {
    ReleaseReadyIff(rs, w, sha, now, waivers);
    TwoVendorsIff(rs, w, sha);
    a, b :| a in rs && b in rs && Qualified(a, w, sha) && Qualified(b, w, sha)
            && Lower(a.hardware.vendor) != Lower(b.hardware.vendor);
    soak :| soak in rs && Qualified(soak, w, sha) && soak.scenario == Some("daily-soak") && Soaked(soak.hardware, now);
    forall r | r in {a, b, soak} ensures Qualified(r, w, sha) {}
    QualifiedIff(a, w, sha);
    QualifiedIff(b, w, sha);
    QualifiedIff(soak, w, sha);
  }

  /** Under every set of waivers a ready candidate has such a record for each of the five
      lifecycle cases. */
  lemma CandidateRestsOn(rs: seq<Record>, w: World, sha: string -> Digest, now: real, waivers: map<string, string>,
      c: string) returns (r: Record)
    requires Readable(w) && Gate(rs, w, sha, now, waivers).candidateReady
    requires c in {"login-upgrade", "bad-binary", "rollback", "crash-recovery", "active-exit"}
    ensures r in rs && r.scenario == Some(c)
    ensures IsCurrent(r, w, sha) && r.status == Some("pass") && r.level == Some("physical")
    ensures Lower(r.hardware.vendor) in {"intel", "amd", "nvidia"}
    ensures r.hardware.outputs && r.hardware.driver && !r.hardware.softwareRenderer
  {
    CandidateReadyIff(rs, w, sha, now, waivers);
    assert Covered(c, rs, w, sha);
    r :| r in rs && Qualified(r, w, sha) && r.scenario == Some(c);
    QualifiedIff(r, w, sha);
  }

  /** A soak counts iff it is over, both its times are absolute and they lie at least
      seven days apart. */
  lemma SoakIff(rs: seq<Record>, w: World, sha: string -> Digest, now: real)
    requires Readable(w)
    ensures HasSoak(rs, w, sha, now) <==>
            exists r :: r in rs && Qualified(r, w, sha) && r.scenario == Some("daily-soak")
              && r.hardware.soakStarted.Some? && r.hardware.soakStarted.value.aware
              && r.hardware.soakEnded.Some? && r.hardware.soakEnded.value.aware
              && r.hardware.soakEnded.value.seconds <= now
              && r.hardware.soakEnded.value.seconds >= r.hardware.soakStarted.value.seconds + 7.0 * 86400.0
  {
  }

  // ----- order, repetition, growth -----

  /** The verdict depends on which records there are, not on their order or on how
      often one is given. */
  lemma OrderDoesNotMatter(rs: seq<Record>, qs: seq<Record>, w: World, sha: string -> Digest, now: real,
      waivers: map<string, string>)
    requires Readable(w) && forall r :: r in rs <==> r in qs
    ensures Gate(rs, w, sha, now, waivers) == Gate(qs, w, sha, now, waivers)
  {
    assert Vendors(rs, w, sha) == Vendors(qs, w, sha);
    forall c ensures Covered(c, rs, w, sha) <==> Covered(c, qs, w, sha) {}
    assert Missing(rs, w, sha) == Missing(qs, w, sha);
  }

  lemma PermutationDoesNotMatter(rs: seq<Record>, qs: seq<Record>, w: World, sha: string -> Digest, now: real,
      waivers: map<string, string>)
    requires Readable(w) && multiset(rs) == multiset(qs)
    ensures Gate(rs, w, sha, now, waivers) == Gate(qs, w, sha, now, waivers)
  {
    forall r ensures r in rs <==> r in qs {
      assert r in multiset(rs) <==> r in rs;
      assert r in multiset(qs) <==> r in qs;
    }
    OrderDoesNotMatter(rs, qs, w, sha, now, waivers);
  }

  lemma SubsetSize(a: set<string>, b: set<string>)
    requires a <= b
    ensures |a| <= |b|
  {
    assert b == a + (b - a);
  }

  /** Further current records that are not failures, and the passing of time, never
      lose a verdict. */
  lemma GoodEvidenceKeepsVerdict(rs: seq<Record>, qs: seq<Record>, w: World, sha: string -> Digest,
                                 now: real, later: real, waivers: map<string, string>)
    requires Readable(w) && now <= later && (forall r :: r in rs ==> r in qs)
    requires forall r :: r in qs && r !in rs ==> IsCurrent(r, w, sha) && r.status != Some("fail")
    ensures Gate(rs, w, sha, now, waivers).releaseReady ==> Gate(qs, w, sha, later, waivers).releaseReady
    ensures Gate(rs, w, sha, now, waivers).candidateReady ==> Gate(qs, w, sha, later, waivers).candidateReady
  {
    SubsetSize(Vendors(rs, w, sha), Vendors(qs, w, sha));
    forall c | Covered(c, rs, w, sha) ensures Covered(c, qs, w, sha) {}
    assert HasSoak(rs, w, sha, now) ==> HasSoak(qs, w, sha, later);
    ReleaseReadyIff(rs, w, sha, now, waivers);
    ReleaseReadyIff(qs, w, sha, later, waivers);
    CandidateReadyIff(rs, w, sha, now, waivers);
    CandidateReadyIff(qs, w, sha, later, waivers);
  }

  /** One failed or stale record blocks the candidate under every set of waivers. */
  lemma BadEvidenceBlocks(rs: seq<Record>, r: Record, w: World, sha: string -> Digest, now: real,
      waivers: map<string, string>)
    requires Readable(w) && r in rs && Bad(r, w, sha)
    ensures !Gate(rs, w, sha, now, waivers).candidateReady
    ensures BadEvidence in Gate(rs, w, sha, now, waivers).blocking
  {
    FailuresAre(rs, w, sha, now, BadEvidence);
  }

  // ----- waivers -----

  /** Waivers change neither the certified verdict nor its reasons; a certified
      release is a ready candidate; more waivers never lose a candidate; and two
      sets with the same effective entries are the same. */
  lemma WaiversDoNotInterfere(rs: seq<Record>, w: World, sha: string -> Digest, now: real,
                              a: map<string, string>, b: map<string, string>)
    requires Readable(w)
    ensures var v, u := Gate(rs, w, sha, now, a), Gate(rs, w, sha, now, b);
            && v.releaseReady == u.releaseReady && v.reasons == u.reasons
            && (v.releaseReady ==> v.candidateReady)
            && (v.candidateReady && (forall k :: k in a ==> k in b && b[k] == a[k]) ==> u.candidateReady)
            && (Effective(a) == Effective(b) ==> v == u)
  {
    CandidateReadyIff(rs, w, sha, now, a);
    CandidateReadyIff(rs, w, sha, now, b);
    if Effective(a) == Effective(b) {
      forall f ensures Waives(a, f) <==> Waives(b, f) {
        EffectiveDecides(a, f);
        EffectiveDecides(b, f);
      }
      SameUnwaived(Failures(rs, w, sha, now), a, b);
    }
  }

  /** The waivers that are reported as used: the two known ones with a stated reason. */
  lemma WaivedAre(rs: seq<Record>, w: World, sha: string -> Digest, now: real, waivers: map<string, string>, k: string)
    requires Readable(w)
    ensures var waived := Gate(rs, w, sha, now, waivers).waived;
            && (k in waived <==>
                  && k in waivers && (k == "second_gpu_vendor" || k == "seven_day_soak")
                  && exists c :: c in waivers[k] && !IsSpace(c))
            && (k in waived ==> waived[k] == waivers[k])
  {
  }

  lemma EffectiveDecides(a: map<string, string>, f: Failure)
    ensures Waives(a, f) <==>
            (f.VendorsShort? && "second_gpu_vendor" in Effective(a)) || (f.SoakMissing? &&
                "seven_day_soak" in Effective(a))
  {
  }

  lemma {:induction false} SameUnwaived(fs: seq<Failure>, a: map<string, string>, b: map<string, string>)
    requires forall f :: Waives(a, f) <==> Waives(b, f)
    ensures Unwaived(fs, a) == Unwaived(fs, b)
  {
    if fs != [] { SameUnwaived(fs[1..], a, b); }
  }
}
