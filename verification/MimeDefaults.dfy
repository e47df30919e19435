/** Merging the MIME types that desktop entries claim into a defaults file. */
module MimeDefaults {
  import opened Wrappers
  import opened Text

  /** The parsed defaults file: the fallback section and the default applications. */
  datatype Config = Config(fallback: map<string, string>, section: map<string, string>)

  const EMPTY := Config(map[], map[])

  /** A desktop entry by file name; `mimeType` is None when the key is missing. */
  datatype Desktop = Desktop(name: string, mimeType: Option<string>)

  datatype Claim = Claim(mime: string, value: string)

  /** What a lookup in the section can find. */
  function Effective(c: Config): map<string, string> { c.fallback + c.section }

  function Lookup(c: Config, mime: string): Option<string> {
    if mime in c.section then Some(c.section[mime])
    else if mime in c.fallback then Some(c.fallback[mime])
    else None
  }

  function NonEmpty(names: seq<string>): seq<string> {
    if names == [] then []
    else
      var rest, last := NonEmpty(names[..|names| - 1]), names[|names| - 1];
      if last == "" then rest else rest + [last]
  }

  function Owned(names: seq<string>, value: string): seq<Claim> {
    if names == [] then [] else Owned(names[..|names| - 1], value) + [Claim(names[|names| - 1], value)]
  }

  function ClaimsOf(name: string, mimeType: string): seq<Claim> {
    Owned(NonEmpty(Split(mimeType, ';')), name + ";")
  }

  ghost predicate Complete(ds: seq<Desktop>) {
    forall i :: 0 <= i < |ds| ==> ds[i].mimeType.Some?
  }

  /** Every claim in the order it is made. */
  ghost function Claims(ds: seq<Desktop>): seq<Claim>
    requires Complete(ds)
  {
    if ds == [] then []
    else
      var last := ds[|ds| - 1];
      Claims(ds[..|ds| - 1]) + ClaimsOf(last.name, last.mimeType.value)
  }

  lemma ClaimsOneMore(ds: seq<Desktop>, i: nat)
    requires i < |ds| && Complete(ds[..i]) && ds[i].mimeType.Some?
    ensures Complete(ds[..i + 1])
    ensures Claims(ds[..i + 1]) == Claims(ds[..i]) + ClaimsOf(ds[i].name, ds[i].mimeType.value)
  {
    assert ds[..i + 1][..i] == ds[..i];
    var es := ds[..i + 1];
    forall j | 0 <= j < |es| ensures es[j].mimeType.Some? {
      if j < i { assert es[j] == ds[..i][j]; }
    }
  }

  // ----- claims one after the other -----

  function Apply(c: Config, x: Claim): Config {
    if Lookup(c, x.mime) == Some(x.value) then c else c.(section := c.section[x.mime := x.value])
  }

  function After(c: Config, xs: seq<Claim>): Config {
    if xs == [] then c else Apply(After(c, xs[..|xs| - 1]), xs[|xs| - 1])
  }

  /** Some claim found another value than its own. */
  predicate ChangedBy(c: Config, xs: seq<Claim>) {
    && xs != []
    && (|| ChangedBy(c, xs[..|xs| - 1])
        || Lookup(After(c, xs[..|xs| - 1]), xs[|xs| - 1].mime) != Some(xs[|xs| - 1].value))
  }

  /** The last claim for each MIME type. */
  function Overlay(xs: seq<Claim>): map<string, string> {
    if xs == [] then map[] else Overlay(xs[..|xs| - 1])[xs[|xs| - 1].mime := xs[|xs| - 1].value]
  }

  lemma {:induction false} AfterSplit(c: Config, xs: seq<Claim>, ys: seq<Claim>)
    ensures After(c, xs + ys) == After(After(c, xs), ys)
    ensures ChangedBy(c, xs + ys) <==> ChangedBy(c, xs) || ChangedBy(After(c, xs), ys)
  {
    if ys == [] {
      assert xs + ys == xs;
    } else {
      var n := |ys| - 1;
      AfterSplit(c, xs, ys[..n]);
      assert (xs + ys)[..|xs + ys| - 1] == xs + ys[..n];
    }
  }

  // ----- the script -----

  /** The result of a run: the configuration and whether it has to be written. None
      when a desktop entry lacks its MIME types. */
  method Merge(previous: Option<Config>, ds: seq<Desktop>) returns (r: Option<(Config, bool)>)
    ensures r.Some? <==> Complete(ds)
    ensures r.Some? ==>
              var before := if previous.Some? then previous.value else EMPTY;
              r.value == (After(before, Claims(ds)), previous.None? || ChangedBy(before, Claims(ds)))
  {
    var config := if previous.Some? then previous.value else EMPTY;
    ghost var before := config;
    var changed := previous.None?;
    for i := 0 to |ds|
      invariant Complete(ds[..i]) && config == After(before, Claims(ds[..i]))
      invariant changed == (previous.None? || ChangedBy(before, Claims(ds[..i])))
    {
      var desktop := ds[i];
      if desktop.mimeType.None? {
        return None;
      }
      ghost var done := Claims(ds[..i]);
      ghost var mine := ClaimsOf(desktop.name, desktop.mimeType.value);
      var more;
      config, more := MergeOne(config, desktop.name, desktop.mimeType.value);
      changed := changed || more;
      AfterSplit(before, done, mine);
      ClaimsOneMore(ds, i);
    }
    assert ds[..|ds|] == ds;
    return Some((config, changed));
  }

  lemma ClaimOneMore(c: Config, mimes: seq<string>, i: nat, value: string)
    requires i < |mimes|
    ensures var xs, ys := Owned(NonEmpty(mimes[..i]), value), Owned(NonEmpty(mimes[..i + 1]), value);
            if mimes[i] == "" then ys == xs
            else
              var x := Claim(mimes[i], value);
              && After(c, ys) == Apply(After(c, xs), x)
              && (ChangedBy(c, ys) <==> ChangedBy(c, xs) || Lookup(After(c, xs), x.mime) != Some(x.value))
  {
    assert mimes[..i + 1][..i] == mimes[..i];
    if mimes[i] != "" {
      var names := NonEmpty(mimes[..i]);
      assert (names + [mimes[i]])[..|names|] == names;
      var xs := Owned(names, value);
      assert (xs + [Claim(mimes[i], value)])[..|xs|] == xs;
    }
  }

  method MergeOne(start: Config, name: string, mimeType: string) returns (config: Config, changed: bool)
    ensures config == After(start, ClaimsOf(name, mimeType)) && changed == ChangedBy(start, ClaimsOf(name, mimeType))
  {
    config, changed := start, false;
    var value := name + ";";
    var mimes := Split(mimeType, ';');
    for i := 0 to |mimes|
      invariant config == After(start, Owned(NonEmpty(mimes[..i]), value))
      invariant changed == ChangedBy(start, Owned(NonEmpty(mimes[..i]), value))
    {
      var mime := mimes[i];
      ClaimOneMore(start, mimes, i, value);
      if mime == "" { continue; }
      if Lookup(config, mime) != Some(value) {
        config := config.(section := config.section[mime := value]);
        changed := true;
      }
    }
    assert mimes[..|mimes|] == mimes;
  }

  // ----- what a run achieves -----

  lemma ApplyOverlays(c: Config, x: Claim)
    ensures Effective(Apply(c, x)) == Effective(c)[x.mime := x.value]
    ensures Apply(c, x).fallback == c.fallback && Apply(c, x).section - {x.mime} == c.section - {x.mime}
  {
  }

  /** The defaults afterwards are the old ones overlaid by the last claim for each
      MIME type. */
  lemma {:induction false} MergeOverlays(c: Config, xs: seq<Claim>)
    ensures Effective(After(c, xs)) == Effective(c) + Overlay(xs)
  {
    if xs != [] {
      var n, x := |xs| - 1, xs[|xs| - 1];
      MergeOverlays(c, xs[..n]);
      ApplyOverlays(After(c, xs[..n]), x);
      OverlayUpdate(Effective(c), Overlay(xs[..n]), x);
    }
  }

  lemma OverlayUpdate(m: map<string, string>, o: map<string, string>, x: Claim)
    ensures (m + o)[x.mime := x.value] == m + o[x.mime := x.value]
  {
  }

  /** The fallback section, and every entry nobody claims, stay as they were. */
  lemma {:induction false} MergeKeepsRest(c: Config, xs: seq<Claim>)
    ensures After(c, xs).fallback == c.fallback
    ensures After(c, xs).section - Overlay(xs).Keys == c.section - Overlay(xs).Keys
  {
    if xs != [] {
      var n, x := |xs| - 1, xs[|xs| - 1];
      MergeKeepsRest(c, xs[..n]);
      var mid := After(c, xs[..n]);
      ApplyOverlays(mid, x);
      KeepLess(c.section, mid.section, Apply(mid, x).section, Overlay(xs[..n]).Keys, x.mime);
      assert Overlay(xs).Keys == Overlay(xs[..n]).Keys + {x.mime};
    }
  }

  lemma KeepLess(a: map<string, string>, b: map<string, string>, c: map<string, string>, ks: set<string>, k: string)
    requires a - ks == b - ks && b - {k} == c - {k}
    ensures c - (ks + {k}) == a - (ks + {k})
  {
    forall m ensures m !in ks + {k} ==> (m in a <==> m in c) && (m in a ==> a[m] == c[m]) {
      if m !in ks + {k} {
        assert m in a <==> m in a - ks;
        assert m in b <==> m in b - ks;
        assert m in b <==> m in b - {k};
        assert m in c <==> m in c - {k};
        if m in a { assert (a - ks)[m] == (b - ks)[m] && (b - {k})[m] == (c - {k})[m]; }
      }
    }
  }

  lemma {:induction false} OverlayIsLast(xs: seq<Claim>, m: string)
    ensures m in Overlay(xs) <==> exists i :: 0 <= i < |xs| && xs[i].mime == m
    ensures m in Overlay(xs) ==>
            exists i :: 0 <= i < |xs| && xs[i] == Claim(m, Overlay(xs)[m]) && forall j :: i < j < |xs| ==>
                xs[j].mime != m
  {
    if xs != [] {
      var n := |xs| - 1;
      OverlayIsLast(xs[..n], m);
      if m in Overlay(xs) && xs[n].mime != m {
        var i :| 0 <= i < n && xs[..n][i] == Claim(m, Overlay(xs[..n])[m]) && forall j :: i < j < n ==>
            xs[..n][j].mime != m;
        assert xs[i] == Claim(m, Overlay(xs)[m]);
        forall j | i < j < |xs| ensures xs[j].mime != m {
          if j < n { assert xs[j] == xs[..n][j]; }
        }
      }
    }
  }

  ghost predicate Satisfied(c: Config, xs: seq<Claim>) {
    forall i :: 0 <= i < |xs| ==> Lookup(c, xs[i].mime) == Some(xs[i].value)
  }

  /** Nothing is changed iff every claim already holds, and then the configuration
      is left exactly as it is. */
  lemma {:induction false} UnchangedIffSatisfied(c: Config, xs: seq<Claim>)
    ensures !ChangedBy(c, xs) <==> Satisfied(c, xs)
    ensures !ChangedBy(c, xs) ==> After(c, xs) == c
  {
    if xs != [] {
      var n := |xs| - 1;
      UnchangedIffSatisfied(c, xs[..n]);
      assert Satisfied(c, xs) <==> Satisfied(c, xs[..n]) && Lookup(c, xs[n].mime) == Some(xs[n].value) by {
        assert forall i :: 0 <= i < n ==> xs[..n][i] == xs[i];
      }
    }
  }

  /** No MIME type is claimed with two different values. */
  ghost predicate Consistent(xs: seq<Claim>) {
    forall i, j :: 0 <= i < |xs| && 0 <= j < |xs| && xs[i].mime == xs[j].mime ==> xs[i].value == xs[j].value
  }

  lemma LookupIsEffective(c: Config, m: string)
    ensures Lookup(c, m) == if m in Effective(c) then Some(Effective(c)[m]) else None
  {
  }

  /** A second run gives the same defaults, and the same file when there is no
      fallback section. */
  lemma RerunKeepsDefaults(c: Config, xs: seq<Claim>)
    ensures Effective(After(After(c, xs), xs)) == Effective(After(c, xs))
    ensures c.fallback == map[] ==> After(After(c, xs), xs) == After(c, xs)
  {
    var d := After(c, xs);
    MergeOverlays(c, xs);
    MergeOverlays(d, xs);
    OverlayTwice(Effective(c), Overlay(xs));
    MergeKeepsRest(c, xs);
    MergeKeepsRest(d, xs);
    Bare(d);
    Bare(After(d, xs));
  }

  lemma OverlayTwice(m: map<string, string>, o: map<string, string>)
    ensures (m + o) + o == m + o
  {
  }

  lemma Bare(c: Config)
    ensures c.fallback == map[] ==> Effective(c) == c.section
  {
  }

  /** A second run reports no change iff no MIME type is claimed twice with
      different values. */
  lemma RerunQuietIffConsistent(c: Config, xs: seq<Claim>)
    ensures !ChangedBy(After(c, xs), xs) <==> Consistent(xs)
  {
    MergeOverlays(c, xs);
    UnchangedIffSatisfied(After(c, xs), xs);
    SatisfiedIffConsistent(After(c, xs), xs);
  }

  lemma SatisfiedIffConsistent(d: Config, xs: seq<Claim>)
    requires forall m :: m in Overlay(xs) ==> m in Effective(d) && Effective(d)[m] == Overlay(xs)[m]
    ensures Satisfied(d, xs) <==> Consistent(xs)
  {
    forall i | 0 <= i < |xs|
      ensures exists k :: 0 <= k < |xs| && xs[k].mime == xs[i].mime && Lookup(d, xs[i].mime) == Some(xs[k].value)
    {
      OverlayIsLast(xs, xs[i].mime);
      LookupIsEffective(d, xs[i].mime);
    }
  }

  // ----- claims in terms of the desktop entries -----

  predicate Lists(d: Desktop, mime: string) {
    d.mimeType.Some? && mime != "" && mime in Split(d.mimeType.value, ';')
  }

  lemma {:induction false} NonEmptyHas(names: seq<string>, m: string)
    ensures m in NonEmpty(names) <==> m in names && m != ""
  {
    if names != [] {
      var n := |names| - 1;
      NonEmptyHas(names[..n], m);
      assert names == names[..n] + [names[n]];
    }
  }

  lemma {:induction false} OwnedHas(names: seq<string>, value: string, x: Claim)
    ensures x in Owned(names, value) <==> x.value == value && x.mime in names
  {
    if names != [] {
      var n := |names| - 1;
      OwnedHas(names[..n], value, x);
      assert names == names[..n] + [names[n]];
    }
  }

  lemma {:induction false} ClaimsHas(ds: seq<Desktop>, x: Claim)
    requires Complete(ds)
    ensures x in Claims(ds) <==> exists d :: d in ds && x.value == d.name + ";" && Lists(d, x.mime)
  {
    if ds != [] {
      var n := |ds| - 1;
      var d := ds[n];
      ClaimsHas(ds[..n], x);
      assert ds == ds[..n] + [d];
      NonEmptyHas(Split(d.mimeType.value, ';'), x.mime);
      OwnedHas(NonEmpty(Split(d.mimeType.value, ';')), d.name + ";", x);
    }
  }

  /** The claims are consistent iff no MIME type is listed by desktop entries with
      two different file names. */
  lemma ConsistentIffNames(ds: seq<Desktop>)
    requires Complete(ds)
    ensures Consistent(Claims(ds)) <==>
            forall a, b, m :: a in ds && b in ds && Lists(a, m) && Lists(b, m) ==> a.name == b.name
  {
    var xs := Claims(ds);
    forall a, b, m | Consistent(xs) && a in ds && b in ds && Lists(a, m) && Lists(b, m) ensures a.name == b.name {
      ClaimsHas(ds, Claim(m, a.name + ";"));
      ClaimsHas(ds, Claim(m, b.name + ";"));
      assert (a.name + ";")[..|a.name|] == a.name && (b.name + ";")[..|b.name|] == b.name;
    }
    if forall a, b, m :: a in ds && b in ds && Lists(a, m) && Lists(b, m) ==> a.name == b.name {
      forall i, j | 0 <= i < |xs| && 0 <= j < |xs| && xs[i].mime == xs[j].mime ensures xs[i].value == xs[j].value {
        ClaimsHas(ds, xs[i]);
        ClaimsHas(ds, xs[j]);
      }
    }
  }

  // ----- the defaults in terms of the desktop entries -----

  lemma {:induction false} OverlaySplit(xs: seq<Claim>, ys: seq<Claim>)
    ensures Overlay(xs + ys) == Overlay(xs) + Overlay(ys)
  {
    if ys == [] {
      assert xs + ys == xs;
    } else {
      var n := |ys| - 1;
      OverlaySplit(xs, ys[..n]);
      assert (xs + ys)[..|xs + ys| - 1] == xs + ys[..n] && (xs + ys)[|xs + ys| - 1] == ys[n];
      OverlayUpdate(Overlay(xs), Overlay(ys[..n]), ys[n]);
    }
  }

  lemma OverlayOfOne(d: Desktop, m: string)
    requires d.mimeType.Some?
    ensures var o := Overlay(ClaimsOf(d.name, d.mimeType.value));
            (m in o <==> Lists(d, m)) && (m in o ==> o[m] == d.name + ";")
  {
    var names := NonEmpty(Split(d.mimeType.value, ';'));
    var xs := ClaimsOf(d.name, d.mimeType.value);
    NonEmptyHas(Split(d.mimeType.value, ';'), m);
    OwnedHas(names, d.name + ";", Claim(m, d.name + ";"));
    OverlayIsLast(xs, m);
    if m in Overlay(xs) {
      var i :| 0 <= i < |xs| && xs[i] == Claim(m, Overlay(xs)[m]);
      OwnedHas(names, d.name + ";", xs[i]);
    }
  }

  /** No entry from `i` on lists the MIME type. */
  ghost predicate UnlistedFrom(ds: seq<Desktop>, m: string, i: nat) {
    forall j :: i <= j < |ds| ==> !Lists(ds[j], m)
  }

  lemma OverlayOneMore(ds: seq<Desktop>, m: string)
    requires Complete(ds) && ds != []
    ensures var last, rest := ds[|ds| - 1], ds[..|ds| - 1];
            if Lists(last, m) then m in Overlay(Claims(ds)) && Overlay(Claims(ds))[m] == last.name + ";"
            else if m in Overlay(Claims(rest)) then
              m in Overlay(Claims(ds)) && Overlay(Claims(ds))[m] == Overlay(Claims(rest))[m]
            else m !in Overlay(Claims(ds))
  {
    var n, d := |ds| - 1, ds[|ds| - 1];
    OverlaySplit(Claims(ds[..n]), ClaimsOf(d.name, d.mimeType.value));
    OverlayOfOne(d, m);
  }

  lemma {:induction false} OverlayOfUnlisted(ds: seq<Desktop>, m: string)
    requires Complete(ds) && UnlistedFrom(ds, m, 0)
    ensures m !in Overlay(Claims(ds))
  {
    if ds != [] {
      OverlayOfUnlisted(ds[..|ds| - 1], m);
      OverlayOneMore(ds, m);
    }
  }

  lemma {:induction false} OverlayOfLister(ds: seq<Desktop>, m: string, i: nat)
    requires Complete(ds) && i < |ds| && Lists(ds[i], m) && UnlistedFrom(ds, m, i + 1)
    ensures m in Overlay(Claims(ds)) && Overlay(Claims(ds))[m] == ds[i].name + ";"
  {
    OverlayOneMore(ds, m);
    if i < |ds| - 1 {
      var rest := ds[..|ds| - 1];
      assert rest[i] == ds[i] && UnlistedFrom(rest, m, i + 1) && Complete(rest);
      OverlayOfLister(rest, m, i);
    }
  }

  /** After a run the default for a MIME type is the last entry on the command line that
      lists it; a type that none of them lists keeps its default. */
  lemma LastListerWins(c: Config, ds: seq<Desktop>, m: string)
    requires Complete(ds)
    ensures forall i: nat :: i < |ds| && Lists(ds[i], m) && UnlistedFrom(ds, m, i + 1) ==>
              Lookup(After(c, Claims(ds)), m) == Some(ds[i].name + ";")
    ensures UnlistedFrom(ds, m, 0) ==> Lookup(After(c, Claims(ds)), m) == Lookup(c, m)
  {
    MergeOverlays(c, Claims(ds));
    LookupIsEffective(c, m);
    LookupIsEffective(After(c, Claims(ds)), m);
    if UnlistedFrom(ds, m, 0) { OverlayOfUnlisted(ds, m); }
    forall i: nat | i < |ds| && Lists(ds[i], m) && UnlistedFrom(ds, m, i + 1)
      ensures m in Overlay(Claims(ds)) && Overlay(Claims(ds))[m] == ds[i].name + ";"
    {
      OverlayOfLister(ds, m, i);
    }
  }
}
