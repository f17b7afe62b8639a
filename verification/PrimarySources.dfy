/** How many primary sources a subject can have, for every list of fetched sources. */
module PrimarySources {
  import opened Text
  import opened Seqs
  import opened Hosts
  import opened SourceClasses
  import opened Evidence
  import opened SourcePolicies
  import opened EvidenceTheorems

  /** Only the subject's own URLs are classed as official or primary. */
  lemma PrimaryIsOwned(url: Url, content: string, subject: string)
    ensures HeuristicClass(url, content, Usable, subject) in PRIMARY_CLASSES ==> IsSubjectOwned(url, subject)
  {
    hide HostMatches, IsSubjectOwned, Tokens, HostOf, Strip;
  }

  /** A record counted as primary is a usable, subject-owned URL in its own domain's group. */
  lemma PrimaryRecord(fs: seq<Fetched>, subject: string, rules: Rules, i: nat)
    requires HostsOk(fs) && i < |fs| && CountsPrimary(Pipeline(fs, subject, rules)[i])
    ensures var r := Clustered(fs, subject)[i];
            && r.status.Usable? && r.group == RegistrableDomain(HostOf(fs[i].url))
            && IsSubjectOwned(fs[i].url, subject)
  {
    hide Clustered, HostOf, Applied, HeuristicClass, RegistrableDomain, IsSubjectOwned, Tokens, FingerprintOf,
         CanonicalUrl;
    PolicyEligibleIff(Clustered(fs, subject), rules, i);
    LeftUsable(fs, subject, i);
    PrimaryIsOwned(fs[i].url, fs[i].content, subject);
  }

  lemma AtMostOne(fs: seq<Fetched>, subject: string, rules: Rules)
    requires HostsOk(fs) && SubjectAuthority(subject).host !in COMPOUND_TLDS
    ensures Evaluate(Pipeline(fs, subject, rules), rules).primary <= 1
  {
    hide Pipeline, Clustered, HostOf, IsSubjectOwned, RegistrableDomain, SubjectAuthority, CountsPrimary,
         Tokens, FingerprintOf, Similar, Contains, Lower, CountIf;
    var out, rs := Pipeline(fs, subject, rules), Clustered(fs, subject);
    forall i, j | 0 <= i < j < |out| ensures !(CountsPrimary(out[i]) && CountsPrimary(out[j])) {
      if CountsPrimary(out[i]) && CountsPrimary(out[j]) {
        PrimaryRecord(fs, subject, rules, i);
        PrimaryRecord(fs, subject, rules, j);
        OwnedDomain(fs[i].url, subject);
        OwnedDomain(fs[j].url, subject);
        PairwiseIndependence(fs, subject, i, j);
        assert false;
      }
    }
    CountAtMostOne(out, CountsPrimary);
  }

  // Subjects that are themselves a bare compound top-level domain

  function OneLetter(c: string, h: string): Fetched {
    Fetched(Url("", c + "." + h, ""), Usable, "", SeedOrigin)
  }

  lemma UnderNotPlatform(c: string, h: string)
    requires h in COMPOUND_TLDS
    ensures !Platform(c + "." + h)
  {
    hide MatchesSuffix;
    var w := c + "." + h;
    CompoundEnds(h);
    NonEmptyCompound(h);
    assert Last(w) == Last(h);
    forall s | s in SOCIAL_HOSTS || s in COMMUNITY_HOSTS || s in PLATFORM_CODE_HOSTS
      ensures !MatchesSuffix(w, s)
    {
      if MatchesSuffix(w, s) { PlatformEnds(w, s); assert false; }
    }
  }

  lemma NonEmptyCompound(h: string)
    requires h in COMPOUND_TLDS
    ensures h != ""
  {
  }

  lemma OneLetterHost(c: string, h: string, subject: string)
    requires (c == "a" || c == "b") && SubjectAuthority(subject).host == h && h in COMPOUND_TLDS
    ensures HostOf(OneLetter(c, h).url) == c + "." + h
  {
    hide SubjectAuthority, Tidy, LooksLikeHost, Platform;
    AuthorityHost(subject);
    NonEmptyCompound(h);
    TidyUnder(c, h);
  }

  lemma OneLetterClass(c: string, h: string, subject: string)
    requires (c == "a" || c == "b") && SubjectAuthority(subject).host == h && h in COMPOUND_TLDS
    ensures HeuristicClass(OneLetter(c, h).url, "", Usable, subject) == Official
    ensures Base(OneLetter(c, h)).group == c + "." + h
  {
    hide SubjectAuthority, HostMatches, IsSubjectOwned, Tokens, HostOf, RegistrableDomain;
    UnderNotPlatform(c, h);
    OneLetterHost(c, h, subject);
    UnderCompound(c, h, subject);
  }

  lemma NoContent()
    ensures Tokens("") == {} && FingerprintOf("") == "" && Lower("") == ""
  {
  }

  lemma OneLetterKeys(h: string, subject: string)
    requires SubjectAuthority(subject).host == h && h in COMPOUND_TLDS
    ensures KeyOf(OneLetter("a", h)) != KeyOf(OneLetter("b", h))
  {
    hide SubjectAuthority, HostOf;
    OneLetterHost("a", h, subject);
    OneLetterHost("b", h, subject);
    assert KeyOf(OneLetter("a", h))[8] == 'a';
    assert KeyOf(OneLetter("b", h))[8] == 'b';
  }

  /** Both stay usable: nothing links them. */
  lemma BothOfficial(h: string, subject: string)
    requires SubjectAuthority(subject).host == h && h in COMPOUND_TLDS
    ensures var rs := Clustered([OneLetter("a", h), OneLetter("b", h)], subject);
            && (forall i :: 0 <= i < 2 ==> rs[i].status.Usable? && rs[i].cls == Official)
  {
    hide SubjectAuthority, HeuristicClass, CanonicalUrl, RegistrableDomain, Tokens, FingerprintOf, HostOf, Scan, Lower;
    var a, b := OneLetter("a", h), OneLetter("b", h);
    var fs := [a, b];
    CatalogLength(fs);
    CatalogAt(fs, 0);
    assert fs[..1] == [a];
    CatalogAt(fs, 1);
    OneLetterKeys(h, subject);
    var cat, step := Catalog(fs), Clusterer(subject);
    ScanAt(cat, 0, [], step);
    ScanAt(cat, 1, [], step);
    assert cat[..0] == [];
    assert cat[..1] == [cat[0]];
    NoContent();
    OneLetterClass("a", h, subject);
    OneLetterClass("b", h, subject);
    assert cat[0].group[0] != cat[1].group[0];
    assert step(cat[0], []).1 == [RootOf(cat[0])];
    assert ScanEnd(cat[..1], [], step) == [RootOf(cat[0])] by {
      ScanSnoc([], cat[0], [], step);
      ScanNone(subject);
      assert [] + [cat[0]] == cat[..1];
    }
    assert !Repeats(cat[1], RootOf(cat[0]));
    assert FirstRepeat(cat[1], [RootOf(cat[0])]) == "";
    assert Inherited(cat[1], [RootOf(cat[0])]) == "";
  }

  const OPEN_RULES := Rules([], [], 0, 0, false)

  lemma TwoPrimaries(h: string, subject: string)
    requires SubjectAuthority(subject).host == h && h in COMPOUND_TLDS
    ensures var fs := [OneLetter("a", h), OneLetter("b", h)];
            HostsOk(fs) && Evaluate(Pipeline(fs, subject, OPEN_RULES), OPEN_RULES).primary == 2
  {
    hide SubjectAuthority, Clustered, HostOf, Applied;
    var fs := [OneLetter("a", h), OneLetter("b", h)];
    OneLetterHost("a", h, subject);
    OneLetterHost("b", h, subject);
    BothOfficial(h, subject);
    var out := Pipeline(fs, subject, OPEN_RULES);
    PolicyEligibleIff(Clustered(fs, subject), OPEN_RULES, 0);
    PolicyEligibleIff(Clustered(fs, subject), OPEN_RULES, 1);
    assert CountsPrimary(out[0]) && CountsPrimary(out[1]);
    assert out == [] + [out[0]] + [out[1]];
    CountSnoc([], out[0], CountsPrimary);
    CountSnoc([] + [out[0]], out[1], CountsPrimary);
  }

  /**
   Every evaluation of a subject counts at most one primary source exactly when the subject's
   host is not itself a bare compound top-level domain.
  */
  lemma AtMostOnePrimary(subject: string)
    ensures (forall fs, rules :: HostsOk(fs) ==> Evaluate(Pipeline(fs, subject, rules), rules).primary <= 1)
            <==> SubjectAuthority(subject).host !in COMPOUND_TLDS
  {
    hide Pipeline, Evaluate, SubjectAuthority, HostsOk;
    var h := SubjectAuthority(subject).host;
    if h in COMPOUND_TLDS {
      TwoPrimaries(h, subject);
    } else {
      forall fs, rules | HostsOk(fs) ensures Evaluate(Pipeline(fs, subject, rules), rules).primary <= 1 {
        AtMostOne(fs, subject, rules);
      }
    }
  }

  /** The failing side is real: for the subject `co.uk`, two fetched sources both count as primary. */
  lemma TwoPrimariesForCoUk()
    ensures var fs := [OneLetter("a", "co.uk"), OneLetter("b", "co.uk")];
            HostsOk(fs) && Evaluate(Pipeline(fs, "co.uk", OPEN_RULES), OPEN_RULES).primary == 2
  {
    hide Pipeline, Evaluate, SubjectAuthority, HostsOk, OneLetter;
    CompoundAuthority();
    TwoPrimaries("co.uk", "co.uk");
  }

  /** So a policy that wants two primary sources is never satisfied for any other subject. */
  lemma TwoPrimariesNeverMet(fs: seq<Fetched>, subject: string, rules: Rules)
    requires HostsOk(fs) && rules.minPrimary >= 2 && SubjectAuthority(subject).host !in COMPOUND_TLDS
    ensures !Evaluate(Pipeline(fs, subject, rules), rules).ok
  {
    hide Pipeline, SubjectAuthority, HostsOk, CountIf;
    AtMostOne(fs, subject, rules);
  }
}
