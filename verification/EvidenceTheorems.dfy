/** What the evidence pipeline guarantees about every list of fetched sources. */
module EvidenceTheorems {
  import opened Common
  import opened Text
  import opened Seqs
  import opened Hosts
  import opened SourceClasses
  import opened Evidence
  import opened SourcePolicies

  function KeyOf(f: Fetched): string { CanonicalUrl(f.url) }

  function KeysOf(fs: seq<Fetched>): set<string> { set f | f in fs :: KeyOf(f) }

  predicate HostsOk(fs: seq<Fetched>) { forall f :: f in fs ==> HostOf(f.url) != "" }

  /** Fetching only ever reports a source as usable or as unavailable. */
  predicate FetchedStatuses(fs: seq<Fetched>) {
    forall f :: f in fs ==> f.status.Usable? || f.status.Unavailable?
  }

  predicate DistinctKeys(fs: seq<Fetched>) {
    forall i, j :: 0 <= i < j < |fs| ==> KeyOf(fs[i]) != KeyOf(fs[j])
  }

  // The catalogue

  lemma {:induction false} SeenKeys(fs: seq<Fetched>)
    ensures ScanEnd(fs, map[], CatalogStep).Keys == KeysOf(fs)
  {
    hide KeyOf, CatalogStep, ScanEnd, Scan, KeysOf;
    if |fs| == 0 {
      NoneSeen();
    } else {
      var front, f := fs[..|fs| - 1], fs[|fs| - 1];
      assert fs == front + [f];
      SeenKeys(front);
      ScanSnoc(front, f, map[], CatalogStep);
      StepKeys(f, ScanEnd(front, map[], CatalogStep));
      KeysOfSnoc(front, f);
    }
  }

  lemma NoneSeen()
    ensures ScanEnd([], map[], CatalogStep).Keys == {} && KeysOf([]) == {}
  {
    hide KeyOf, CatalogStep;
  }

  lemma StepKeys(f: Fetched, seen: map<string, string>)
    ensures CatalogStep(f, seen).1.Keys == seen.Keys + {KeyOf(f)}
  {
    hide CanonicalUrl, Tokens, FingerprintOf, RegistrableDomain, HostOf;
  }

  lemma KeysOfSnoc(fs: seq<Fetched>, f: Fetched)
    ensures KeysOf(fs + [f]) == KeysOf(fs) + {KeyOf(f)}
  {
    hide KeyOf;
    assert forall g :: g in fs + [f] <==> g in fs || g == f;
  }

  /** A record is a duplicate exactly when its URL occurred before it. */
  lemma CatalogAt(fs: seq<Fetched>, i: nat)
    requires i < |fs|
    ensures var r := Catalog(fs)[i];
            && r.url == fs[i].url && r.canonical == KeyOf(fs[i]) && r.host == HostOf(fs[i].url)
            && (if KeyOf(fs[i]) in KeysOf(fs[..i]) then r.status.Duplicate? && r.cls == Derived
                else r == Base(fs[i]) && r.status == fs[i].status)
  {
    hide CanonicalUrl, Tokens, FingerprintOf, RegistrableDomain, HostOf, Scan, ScanEnd;
    ScanAt(fs, i, map[], CatalogStep);
    SeenKeys(fs[..i]);
  }

  // Linking

  predicate Plain(r: Source) { r.status.Usable? ==> r.cls == Unknown && r.group != "" }

  predicate RootsOk(roots: seq<Root>) { forall p :: p in roots ==> p.group != "" }

  lemma {:induction false} NoRepeat(r: Source, roots: seq<Root>)
    requires RootsOk(roots) && FirstRepeat(r, roots) == ""
    ensures forall p :: p in roots ==> !Repeats(r, p)
  {
    hide Repeats;
    if |roots| > 0 { NoRepeat(r, roots[1..]); }
  }

  lemma {:induction false} NoMention(lower: string, hinted: bool, roots: seq<Root>)
    requires RootsOk(roots) && FirstMention(lower, hinted, roots) == ""
    ensures forall p :: p in roots ==> !Mentions(lower, hinted, p)
  {
    hide Mentions;
    if |roots| > 0 { NoMention(lower, hinted, roots[1..]); }
  }

  /** What it takes for a later source not to be linked to an earlier root. */
  predicate Separate(p: Root, group: string, tokens: set<string>, fingerprint: string, lower: string) {
    && group != p.group
    && (fingerprint == "" || fingerprint != p.fingerprint)
    && !Similar(tokens, p.tokens)
    && (p.host != "" && p.canonical != "" ==> !Contains(lower, p.host) && !Contains(lower, p.canonical))
  }

  lemma ContainsNothing(needle: string)
    requires needle != ""
    ensures !Contains("", needle)
  {
  }

  lemma NotInherited(r: Source, roots: seq<Root>)
    requires RootsOk(roots) && Inherited(r, roots) == ""
    ensures forall p :: p in roots ==> Separate(p, r.group, r.tokens, r.fingerprint, Lower(r.content))
  {
    hide Contains, Similar, Hinted, FirstRepeat, FirstMention;
    var lower := Lower(r.content);
    NoRepeat(r, roots);
    if lower != "" { NoMention(lower, Hinted(lower), roots); }
    forall p | p in roots ensures Separate(p, r.group, r.tokens, r.fingerprint, lower) {
      assert !Repeats(r, p);
      if lower == "" && p.host != "" && p.canonical != "" {
        ContainsNothing(p.host);
        ContainsNothing(p.canonical);
      }
    }
  }

  /** Every record left usable is a root that later records are compared with. */
  lemma {:induction false} RootsAre(cat: seq<Source>, subject: string)
    requires forall r :: r in cat ==> Plain(r)
    ensures var roots := ScanEnd(cat, [], Clusterer(subject));
            && RootsOk(roots)
            && forall k :: 0 <= k < |cat| && Scan(cat, [], Clusterer(subject))[k].status.Usable? ==>
                 RootOf(cat[k]) in roots
  {
    hide Inherited, HeuristicClass, Scan, ScanEnd;
    if |cat| == 0 {
      ScanNone(subject);
    } else {
      var front, r := cat[..|cat| - 1], cat[|cat| - 1];
      assert cat == front + [r];
      RootsAre(front, subject);
      ScanSnoc(front, r, [], Clusterer(subject));
      assert Plain(r);
    }
  }

  /** A record left usable was usable, and was linked to no earlier root. */
  lemma StillUsable(cat: seq<Source>, subject: string, j: nat)
    requires j < |cat| && (forall r :: r in cat ==> Plain(r))
    requires Scan(cat, [], Clusterer(subject))[j].status.Usable?
    ensures var roots := ScanEnd(cat[..j], [], Clusterer(subject));
            && cat[j].status.Usable? && Inherited(cat[j], roots) == ""
            && Scan(cat, [], Clusterer(subject))[j]
               == cat[j].(cls := HeuristicClass(cat[j].url, cat[j].content, Usable, subject))
  {
    hide Inherited, HeuristicClass, Scan, ScanEnd;
    ScanAt(cat, j, [], Clusterer(subject));
    assert Plain(cat[j]);
  }

  lemma RegistrableNonEmpty(host: string)
    requires host != "" && Tidy(host) == host
    ensures RegistrableDomain(host) != ""
  {
    hide Labels, Tidy;
  }

  lemma BasePlain(f: Fetched)
    requires HostOf(f.url) != ""
    ensures Plain(Base(f))
  {
    hide RegistrableDomain, Tokens, FingerprintOf, CanonicalUrl, Tidy;
    TidyTwice(f.url.hostname);
    RegistrableNonEmpty(HostOf(f.url));
  }

  lemma CatalogPlain(fs: seq<Fetched>)
    requires HostsOk(fs)
    ensures forall r :: r in Catalog(fs) ==> Plain(r)
  {
    hide HostOf, Catalog, Base;
    forall i | 0 <= i < |Catalog(fs)| ensures Plain(Catalog(fs)[i]) {
      CatalogLength(fs);
      CatalogAt(fs, i);
      BasePlain(fs[i]);
    }
  }

  lemma CatalogLength(fs: seq<Fetched>)
    ensures |Catalog(fs)| == |fs|
  {
  }

  /** `b` is evidence independent of the earlier `a`. */
  predicate IndependentOf(a: Source, b: Source) {
    && a.group != "" && b.group != "" && a.group != b.group
    && (FingerprintOf(b.content) == "" || FingerprintOf(a.content) != FingerprintOf(b.content))
    && !Similar(Tokens(b.content), Tokens(a.content))
    && !Contains(Lower(b.content), a.host)
    && !Contains(Lower(b.content), a.canonical)
  }

  /** A source left usable, in terms of what was fetched. */
  lemma LeftUsable(fs: seq<Fetched>, subject: string, i: nat)
    requires HostsOk(fs) && i < |fs| && Clustered(fs, subject)[i].status.Usable?
    ensures fs[i].status.Usable? && KeyOf(fs[i]) !in KeysOf(fs[..i])
    ensures Clustered(fs, subject)[i] == Base(fs[i]).(
              cls := HeuristicClass(fs[i].url, fs[i].content, Usable, subject), tokens := {})
  {
    hide HostOf, Catalog, Scan, ScanEnd, HeuristicClass, CanonicalUrl, RegistrableDomain, Tokens, FingerprintOf;
    CatalogLength(fs);
    CatalogPlain(fs);
    CatalogAt(fs, i);
    StillUsable(Catalog(fs), subject, i);
  }

  lemma PrefixOf(cat: seq<Source>, subject: string, i: nat, j: nat)
    requires i < j <= |cat|
    ensures Scan(cat[..j], [], Clusterer(subject))[i] == Scan(cat, [], Clusterer(subject))[i]
  {
    hide *;
    assert cat == cat[..j] + cat[j..];
    ScanAppend(cat[..j], cat[j..], [], Clusterer(subject));
  }

  /**
   Any two sources left usable have different non-empty provenance groups, no shared
   fingerprint and contents below the similarity threshold, and the later content names
   neither the host nor the URL of the earlier.
  */
  lemma PairwiseIndependence(fs: seq<Fetched>, subject: string, i: nat, j: nat)
    requires HostsOk(fs) && i < j < |fs|
    requires Clustered(fs, subject)[i].status.Usable? && Clustered(fs, subject)[j].status.Usable?
    ensures IndependentOf(Clustered(fs, subject)[i], Clustered(fs, subject)[j])
  {
    hide HostOf, Catalog, Scan, ScanEnd, HeuristicClass, RegistrableDomain, Tokens, FingerprintOf, Clusterer,
         Similar, Contains, Inherited, Lower;
    var cat, step := Catalog(fs), Clusterer(subject);
    CatalogLength(fs);
    CatalogPlain(fs);
    LeftUsable(fs, subject, i);
    LeftUsable(fs, subject, j);
    CatalogAt(fs, i);
    CatalogAt(fs, j);
    StillUsable(cat, subject, j);
    PrefixOf(cat, subject, i, j);
    assert forall r :: r in cat[..j] ==> r in cat;
    RootsAre(cat[..j], subject);
    assert cat[..j][i] == cat[i];
    NotInherited(cat[j], ScanEnd(cat[..j], [], step));
    assert Plain(cat[i]) && Plain(cat[j]);
    assert fs[i] in fs && CanonicalUrl(fs[i].url) != "";
  }

  // Exactly which sources are left usable

  /** The later `b` repeats nothing of `a` and does not name it, in terms of what was fetched. */
  predicate Apart(a: Fetched, b: Fetched) {
    && RegistrableDomain(HostOf(b.url)) != RegistrableDomain(HostOf(a.url))
    && (FingerprintOf(b.content) == "" || FingerprintOf(b.content) != FingerprintOf(a.content))
    && !Similar(Tokens(b.content), Tokens(a.content))
    && !Contains(Lower(b.content), HostOf(a.url))
    && !Contains(Lower(b.content), CanonicalUrl(a.url))
  }

  /** Every root is the root of a record left usable. */
  lemma {:induction false} RootKept(cat: seq<Source>, subject: string, p: Root) returns (k: nat)
    requires forall r :: r in cat ==> Plain(r)
    requires p in ScanEnd(cat, [], Clusterer(subject))
    ensures k < |cat| && Scan(cat, [], Clusterer(subject))[k].status.Usable? && p == RootOf(cat[k])
  {
    hide Inherited, HeuristicClass, Scan, ScanEnd;
    if |cat| == 0 {
      ScanNone(subject);
      assert false;
    } else {
      var front, r := cat[..|cat| - 1], cat[|cat| - 1];
      assert cat == front + [r];
      ScanSnoc(front, r, [], Clusterer(subject));
      if p in ScanEnd(front, [], Clusterer(subject)) {
        k := RootKept(front, subject, p);
      } else {
        k := |front|;
      }
    }
  }

  lemma {:induction false} RepeatOf(r: Source, roots: seq<Root>) returns (p: Root)
    requires FirstRepeat(r, roots) != ""
    ensures p in roots && Repeats(r, p) && p.group == FirstRepeat(r, roots)
  {
    hide Repeats;
    if Repeats(r, roots[0]) { p := roots[0]; } else { p := RepeatOf(r, roots[1..]); }
  }

  lemma {:induction false} MentionOf(lower: string, hinted: bool, roots: seq<Root>) returns (p: Root)
    requires FirstMention(lower, hinted, roots) != ""
    ensures p in roots && Mentions(lower, hinted, p) && p.group == FirstMention(lower, hinted, roots)
  {
    hide Mentions;
    if Mentions(lower, hinted, roots[0]) { p := roots[0]; } else { p := MentionOf(lower, hinted, roots[1..]); }
  }

  /** What is inherited is the group of a root that is repeated or named. */
  lemma InheritedFrom(r: Source, roots: seq<Root>) returns (p: Root)
    requires Inherited(r, roots) != ""
    ensures p in roots && p.group == Inherited(r, roots)
    ensures Repeats(r, p) || Contains(Lower(r.content), p.host) || Contains(Lower(r.content), p.canonical)
  {
    hide Contains, Repeats, Hinted, FirstRepeat, FirstMention;
    if FirstRepeat(r, roots) != "" {
      p := RepeatOf(r, roots);
    } else {
      p := MentionOf(Lower(r.content), Hinted(Lower(r.content)), roots);
    }
  }

  /**
   A source is left usable exactly when it was fetched, its URL did not occur before, and it is
   apart from every earlier source left usable; and otherwise, unless its URL occurred before, it is
   put into the provenance group of an earlier one that it repeats or names.
  */
  lemma KeptExactly(fs: seq<Fetched>, subject: string, j: nat)
    requires HostsOk(fs) && j < |fs|
    ensures var out := Clustered(fs, subject);
            && (out[j].status.Usable? <==>
                  && fs[j].status.Usable? && KeyOf(fs[j]) !in KeysOf(fs[..j])
                  && forall i :: 0 <= i < j && out[i].status.Usable? ==> Apart(fs[i], fs[j]))
            && (fs[j].status.Usable? && KeyOf(fs[j]) !in KeysOf(fs[..j]) && !out[j].status.Usable? ==>
                  out[j].status.DerivedStatus? && out[j].cls == Derived && LinkedBefore(fs, out, j))
  {
    hide HostOf, Catalog, Scan, ScanEnd, HeuristicClass, RegistrableDomain, Tokens, FingerprintOf, Clusterer,
         Similar, Contains, Inherited, Lower, CanonicalUrl, Apart, LinkedBefore;
    var out := Clustered(fs, subject);
    if out[j].status.Usable? {
      LeftUsable(fs, subject, j);
      forall i | 0 <= i < j && out[i].status.Usable? ensures Apart(fs[i], fs[j]) { BothLeft(fs, subject, i, j); }
    } else if fs[j].status.Usable? && KeyOf(fs[j]) !in KeysOf(fs[..j]) {
      var i := LinkedTo(fs, subject, j);
    }
  }

  predicate LinkedBefore(fs: seq<Fetched>, out: seq<Source>, j: nat)
    requires j < |fs| == |out|
  {
    exists i :: 0 <= i < j && out[i].status.Usable? && out[j].group == out[i].group && !Apart(fs[i], fs[j])
  }

  lemma BothLeft(fs: seq<Fetched>, subject: string, i: nat, j: nat)
    requires HostsOk(fs) && i < j < |fs|
    requires Clustered(fs, subject)[i].status.Usable? && Clustered(fs, subject)[j].status.Usable?
    ensures Apart(fs[i], fs[j])
  {
    hide HostOf, Clustered, HeuristicClass, RegistrableDomain, Tokens, FingerprintOf, Similar, Contains, Lower,
         CanonicalUrl;
    PairwiseIndependence(fs, subject, i, j);
    LeftUsable(fs, subject, i);
    LeftUsable(fs, subject, j);
  }

  lemma LinkedTo(fs: seq<Fetched>, subject: string, j: nat) returns (i: nat)
    requires HostsOk(fs) && j < |fs| && !Clustered(fs, subject)[j].status.Usable?
    requires fs[j].status.Usable? && KeyOf(fs[j]) !in KeysOf(fs[..j])
    ensures i < j && Clustered(fs, subject)[i].status.Usable?
    ensures Clustered(fs, subject)[j].status.DerivedStatus? && Clustered(fs, subject)[j].cls == Derived
    ensures Clustered(fs, subject)[j].group == Clustered(fs, subject)[i].group && !Apart(fs[i], fs[j])
    ensures LinkedBefore(fs, Clustered(fs, subject), j)
  {
    hide HostOf, Catalog, Scan, ScanEnd, HeuristicClass, RegistrableDomain, Tokens, FingerprintOf,
         Similar, Contains, Inherited, Lower, CanonicalUrl;
    var cat := Catalog(fs);
    CatalogLength(fs);
    CatalogPlain(fs);
    CatalogAt(fs, j);
    ScanAt(cat, j, [], Clusterer(subject));
    var roots := ScanEnd(cat[..j], [], Clusterer(subject));
    assert Plain(cat[j]);
    var p := InheritedFrom(cat[j], roots);
    assert forall r :: r in cat[..j] ==> r in cat;
    i := RootKept(cat[..j], subject, p);
    assert cat[..j][i] == cat[i];
    PrefixOf(cat, subject, i, j);
    LeftUsable(fs, subject, i);
    CatalogAt(fs, i);
  }

  /** The hosts anyone can publish on. */
  predicate OnPlatform(host: string) {
    HostMatches(host, SOCIAL_HOSTS) || HostMatches(host, COMMUNITY_HOSTS) || HostMatches(host, PLATFORM_CODE_HOSTS)
  }

  /**
   The class of a source left usable: the subject's own pages are official, or primary on a
   platform; other pages on social and community hosts are classed by the host; and of the rest
   those with enough text are independent secondary sources.
  */
  lemma ClassExactly(fs: seq<Fetched>, subject: string, i: nat)
    requires HostsOk(fs) && i < |fs| && Clustered(fs, subject)[i].status.Usable?
    ensures var cls, host := Clustered(fs, subject)[i].cls, HostOf(fs[i].url);
            var owned := IsSubjectOwned(fs[i].url, subject);
            && (cls == Official <==> owned && !OnPlatform(host))
            && (cls == Primary <==> owned && OnPlatform(host))
            && (cls == Social <==> !owned && HostMatches(host, SOCIAL_HOSTS))
            && (cls == Community <==>
                  !owned && HostMatches(host, COMMUNITY_HOSTS) && !HostMatches(host, SOCIAL_HOSTS))
            && (cls == IndependentSecondary <==>
                  !owned && !OnPlatform(host) && (|Strip(fs[i].content)| >= 64 || |Tokens(fs[i].content)| >= 6))
            && cls !in {Invalid, Derived}
  {
    hide Clustered, HostOf, HostMatches, IsSubjectOwned, Tokens, Strip, FingerprintOf, RegistrableDomain, CanonicalUrl;
    LeftUsable(fs, subject, i);
  }

  // Merging and duplicates

  lemma TakeKeyDistinct(us: seq<Url>, n: nat)
    requires KeyDistinct(us, CanonicalUrl)
    ensures KeyDistinct(Take(us, n), CanonicalUrl)
  {
    hide CanonicalUrl;
  }

  /** The budget, the order, the origins and the distinctness of a merged list. */
  lemma MergeFacts(seeds: seq<Url>, extras: seq<Url>)
    ensures var m := Merged(seeds, extras);
            var n := |Supplementals(extras)|;
            && |m| <= MAX_TOTAL_RESOLUTION_SOURCES && n <= MAX_SUPPLEMENTAL_SOURCES && n <= |m|
            && (forall i :: 0 <= i < |m| ==> (m[i].origin.SupplementalOrigin? <==> i < n))
            && (forall i :: 0 <= i < |m| ==> m[i].url in if i < n then extras else seeds)
            && (forall i, j :: 0 <= i < j < |m| ==> CanonicalUrl(m[i].url) != CanonicalUrl(m[j].url))
  {
    hide CanonicalUrl, DistinctBy, Keys;
    var all := DistinctBy(extras, CanonicalUrl, {});
    var sup, rest := Supplementals(extras), Remaining(seeds, extras);
    DistinctByFacts(extras, CanonicalUrl, {});
    TakeKeyDistinct(all, MAX_SUPPLEMENTAL_SOURCES);
    DistinctByFacts(seeds, CanonicalUrl, Keys(sup, CanonicalUrl));
    forall i, j | 0 <= i < |sup| && 0 <= j < |rest|
      ensures CanonicalUrl(sup[i]) != CanonicalUrl(rest[j])
    {
      KeyAmong(sup, i);
      assert CanonicalUrl(rest[j]) !in Keys(sup, CanonicalUrl);
    }
    assert forall i :: 0 <= i < |sup| ==> sup[i] in all;
    assert forall j :: 0 <= j < |rest| ==> rest[j] in rest;
  }

  lemma KeyAmong(us: seq<Url>, i: nat)
    requires i < |us|
    ensures CanonicalUrl(us[i]) in Keys(us, CanonicalUrl)
  {
    hide CanonicalUrl;
  }

  /** No source is left out while there is room for it. */
  lemma MergeComplete(seeds: seq<Url>, extras: seq<Url>, u: Url)
    requires (u in extras && |Supplementals(extras)| < MAX_SUPPLEMENTAL_SOURCES)
             || (u in seeds && |Merged(seeds, extras)| < MAX_TOTAL_RESOLUTION_SOURCES)
    ensures exists c :: c in Merged(seeds, extras) && CanonicalUrl(c.url) == CanonicalUrl(u)
  {
    hide CanonicalUrl, DistinctBy;
    var sup, rest, m := Supplementals(extras), Remaining(seeds, extras), Merged(seeds, extras);
    DistinctByFacts(extras, CanonicalUrl, {});
    DistinctByFacts(seeds, CanonicalUrl, Keys(sup, CanonicalUrl));
    MergeFacts(seeds, extras);
    var k := CanonicalUrl(u);
    if k in Keys(sup, CanonicalUrl) {
      var i :| 0 <= i < |sup| && CanonicalUrl(sup[i]) == k;
      assert m[i].url == sup[i];
    } else {
      assert k in Keys(rest, CanonicalUrl);
      var i :| 0 <= i < |rest| && CanonicalUrl(rest[i]) == k;
      assert m[|sup| + i].url == rest[i];
    }
  }

  /** What fetching a merged list gives: one record a candidate, in order. */
  predicate FetchedFrom(cs: seq<Candidate>, fs: seq<Fetched>) {
    && |fs| == |cs|
    && (forall i :: 0 <= i < |fs| ==> fs[i].url == cs[i].url && fs[i].origin == cs[i].origin)
    && FetchedStatuses(fs)
  }

  /** So nothing fetched from a merged list is ever marked as a duplicate. */
  lemma NoDuplicates(seeds: seq<Url>, extras: seq<Url>, fs: seq<Fetched>, subject: string, i: nat)
    requires FetchedFrom(Merged(seeds, extras), fs) && i < |fs|
    ensures DistinctKeys(fs) && !Clustered(fs, subject)[i].status.Duplicate?
  {
    hide Merged, CanonicalUrl, Catalog, Scan, HeuristicClass, Inherited, RegistrableDomain, Tokens, FingerprintOf,
         HostOf;
    var m := Merged(seeds, extras);
    MergeFacts(seeds, extras);
    assert forall i, j :: 0 <= i < j < |fs| ==> m[i].url == fs[i].url && m[j].url == fs[j].url;
    CatalogLength(fs);
    CatalogAt(fs, i);
    ScanAt(Catalog(fs), i, [], Clusterer(subject));
    assert fs[i] in fs;
  }

  // Source isolation

  /** Two tables that agree on the URLs still to come lead to the same catalogue. */
  lemma {:induction false} CatalogAgrees(fs: seq<Fetched>, m: map<string, string>, n: map<string, string>)
    requires forall k :: k in KeysOf(fs) ==> (k in m <==> k in n) && (k in m ==> m[k] == n[k])
    ensures Scan(fs, m, CatalogStep) == Scan(fs, n, CatalogStep)
  {
    hide CanonicalUrl, Tokens, FingerprintOf, RegistrableDomain, HostOf;
    if |fs| > 0 {
      assert KeyOf(fs[0]) in KeysOf(fs);
      assert KeysOf(fs[1..]) <= KeysOf(fs);
      CatalogAgrees(fs[1..], CatalogStep(fs[0], m).1, CatalogStep(fs[0], n).1);
    }
  }

  predicate Harmless(pre: seq<Fetched>, u: Fetched, post: seq<Fetched>) {
    KeyOf(u) in KeysOf(pre) || KeyOf(u) !in KeysOf(post)
  }

  lemma CatalogIsolated(pre: seq<Fetched>, u: Fetched, post: seq<Fetched>)
    returns (front: seq<Source>, x: Source, back: seq<Source>)
    requires Harmless(pre, u, post) && u.status.Unavailable?
    ensures Catalog(pre + [u] + post) == front + [x] + back && Catalog(pre + post) == front + back
    ensures |front| == |pre| && (x.status.Unavailable? || x.status.Duplicate?)
  {
    hide CanonicalUrl, Tokens, FingerprintOf, RegistrableDomain, HostOf, Scan, ScanEnd;
    var m := ScanEnd(pre, map[], CatalogStep);
    var n := ScanEnd(pre + [u], map[], CatalogStep);
    ScanSnoc(pre, u, map[], CatalogStep);
    SeenKeys(pre);
    ScanAppend(pre + [u], post, map[], CatalogStep);
    ScanAppend(pre, post, map[], CatalogStep);
    CatalogAgrees(post, m, n);
    front, x, back := Scan(pre, map[], CatalogStep), CatalogStep(u, m).0, Scan(post, m, CatalogStep);
  }

  lemma WithoutFinish(front: seq<Source>, x: Source, back: seq<Source>)
    ensures FinishAll(front + [x] + back) == FinishAll(front) + [Finish(x)] + FinishAll(back)
    ensures FinishAll(front + back) == FinishAll(front) + FinishAll(back)
  {
    hide Finish;
  }

  lemma SplitWithout(ys: seq<Source>, i: nat, zs: seq<Source>) returns (front: seq<Source>, back: seq<Source>)
    requires i < |ys| && Without(ys, i) == zs
    ensures ys == front + [ys[i]] + back && zs == front + back && |front| == i
  {
    front, back := ys[..i], ys[i + 1..];
  }

  lemma IsolatedWhenHarmless(pre: seq<Fetched>, u: Fetched, post: seq<Fetched>, subject: string, rules: Rules)
    requires u.status.Unavailable? && Harmless(pre, u, post)
    ensures Without(Pipeline(pre + [u] + post, subject, rules), |pre|) == Pipeline(pre + post, subject, rules)
  {
    hide Catalog, Scan, ScanEnd, CanonicalUrl, Inherited, HeuristicClass, FinishAll, Finish, Harmless;
    var front, x, back := CatalogIsolated(pre, u, post);
    var step := Clusterer(subject);
    ScanSkips(front, x, back, [], step);
    var linked, shorter := Scan(front + [x] + back, [], step), Scan(front + back, [], step);
    ScanAt(front + [x] + back, |front|, [], step);
    var f2, b2 := SplitWithout(linked, |front|, shorter);
    WithoutFinish(f2, linked[|front|], b2);
    FinishStatus(x);
    JudgeSkips(Finish(x), FinishAll(f2), rules);
    ScanSkips(FinishAll(f2), Finish(x), FinishAll(b2), {}, Judging(rules));
    assert |FinishAll(f2)| == |f2|;
  }

  lemma FinishStatus(x: Source)
    ensures Finish(x).status == x.status
  {
  }

  lemma JudgeSkips(x: Source, front: seq<Source>, rules: Rules)
    requires x.status.Unavailable? || x.status.Duplicate?
    ensures Judging(rules)(x, ScanEnd(front, {}, Judging(rules))).1 == ScanEnd(front, {}, Judging(rules))
  {
    hide ScanEnd;
  }

  /** The status a record ends with: a duplicate stays one, and nothing else becomes one. */
  lemma FinalStatus(fs: seq<Fetched>, subject: string, rules: Rules, i: nat)
    requires i < |fs|
    ensures Pipeline(fs, subject, rules)[i].status.Duplicate?
            <==> KeyOf(fs[i]) in KeysOf(fs[..i]) || fs[i].status.Duplicate?
  {
    hide Catalog, Scan, ScanEnd, CanonicalUrl, Inherited, HeuristicClass, RegistrableDomain, HostOf, Tokens,
         FingerprintOf, Judge;
    CatalogLength(fs);
    CatalogAt(fs, i);
    ScanAt(Catalog(fs), i, [], Clusterer(subject));
    ScanAt(Clustered(fs, subject), i, {}, Judging(rules));
    JudgeMeaning(Clustered(fs, subject)[i], ScanEnd(Clustered(fs, subject)[..i], {}, Judging(rules)), rules);
  }

  lemma {:induction false} FirstOf(fs: seq<Fetched>, k: string) returns (j: nat)
    requires k in KeysOf(fs)
    ensures j < |fs| && KeyOf(fs[j]) == k && k !in KeysOf(fs[..j])
  {
    hide CanonicalUrl;
    var front, f := fs[..|fs| - 1], fs[|fs| - 1];
    assert fs == front + [f];
    if k in KeysOf(front) {
      j := FirstOf(front, k);
      assert fs[..j] == front[..j];
    } else {
      j := |fs| - 1;
    }
  }

  /** Otherwise the first later source with that URL becomes a duplicate of the unavailable one. */
  lemma SpoiledOtherwise(pre: seq<Fetched>, u: Fetched, post: seq<Fetched>, subject: string, rules: Rules)
    requires u.status.Unavailable? && FetchedStatuses(post) && !Harmless(pre, u, post)
    ensures Without(Pipeline(pre + [u] + post, subject, rules), |pre|) != Pipeline(pre + post, subject, rules)
  {
    hide Pipeline, CanonicalUrl;
    var j := FirstOf(post, KeyOf(u));
    var long, short := pre + [u] + post, pre + post;
    var i := |pre| + j;
    assert long[i + 1] == post[j] && short[i] == post[j] && post[j] in post;
    assert long[..i + 1] == pre + [u] + post[..j] && short[..i] == pre + post[..j];
    assert u in long[..i + 1];
    FinalStatus(long, subject, rules, i + 1);
    FinalStatus(short, subject, rules, i);
    assert Without(Pipeline(long, subject, rules), |pre|)[i] == Pipeline(long, subject, rules)[i + 1];
  }

  /**
   An unavailable source leaves every other record as it would be without it, wherever it
   stands, exactly when no later source repeats its URL for the first time.
  */
  lemma SourceIsolation(pre: seq<Fetched>, u: Fetched, post: seq<Fetched>, subject: string, rules: Rules)
    requires u.status.Unavailable? && FetchedStatuses(post)
    ensures Without(Pipeline(pre + [u] + post, subject, rules), |pre|) == Pipeline(pre + post, subject, rules)
            <==> (KeyOf(u) in KeysOf(pre) || KeyOf(u) !in KeysOf(post))
  {
    hide Pipeline, CanonicalUrl;
    if Harmless(pre, u, post) {
      IsolatedWhenHarmless(pre, u, post, subject, rules);
    } else {
      SpoiledOtherwise(pre, u, post, subject, rules);
    }
  }

  /** What was fetched from a merged list always meets the condition. */
  lemma MergedIsolated(seeds: seq<Url>, extras: seq<Url>, pre: seq<Fetched>, u: Fetched, post: seq<Fetched>,
                       subject: string, rules: Rules)
    requires FetchedFrom(Merged(seeds, extras), pre + [u] + post) && u.status.Unavailable?
    ensures Without(Pipeline(pre + [u] + post, subject, rules), |pre|) == Pipeline(pre + post, subject, rules)
  {
    hide Pipeline, Merged, CanonicalUrl, Clustered;
    var fs := pre + [u] + post;
    NoDuplicates(seeds, extras, fs, subject, |pre|);
    forall f | f in post ensures KeyOf(f) != KeyOf(u) && (f.status.Usable? || f.status.Unavailable?) {
      var j :| 0 <= j < |post| && post[j] == f;
      assert fs[|pre|] == u && fs[|pre| + 1 + j] == f;
      assert f in fs;
    }
    SourceIsolation(pre, u, post, subject, rules);
  }

  // More sources never hurt

  lemma PipelineAppend(fs: seq<Fetched>, more: seq<Fetched>, subject: string, rules: Rules)
    ensures Pipeline(fs, subject, rules) <= Pipeline(fs + more, subject, rules)
  {
    hide CatalogStep, ClusterStep, Judge, Finish, Scan;
    ScanAppend(fs, more, map[], CatalogStep);
    var cat, rest := Catalog(fs), Catalog(fs + more)[|fs|..];
    assert Catalog(fs + more) == cat + rest;
    ScanAppend(cat, rest, [], Clusterer(subject));
    var out, tail := Clustered(fs, subject), Clustered(fs + more, subject)[|fs|..];
    assert Clustered(fs + more, subject) == out + tail;
    ScanAppend(out, tail, {}, Judging(rules));
  }

  /** Appending sources never turns a satisfied policy into an unsatisfied one. */
  lemma AppendKeepsPolicy(fs: seq<Fetched>, more: seq<Fetched>, subject: string, rules: Rules)
    requires Evaluate(Pipeline(fs, subject, rules), rules).ok
    ensures Evaluate(Pipeline(fs + more, subject, rules), rules).ok
  {
    hide Pipeline, CountIf;
    PipelineAppend(fs, more, subject, rules);
    var a, b := Pipeline(fs, subject, rules), Pipeline(fs + more, subject, rules);
    assert b == a + b[|a|..];
    CountAppend(a, b[|a|..], IsEligibleUsable);
    CountAppend(a, b[|a|..], CountsPrimary);
    CountAppend(a, b[|a|..], CountsIndependent);
  }

  // Cross-checks

  /** A satisfied cross-check rests on two pairwise independent usable sources. */
  lemma CrossCheckSound(fs: seq<Fetched>, subject: string, rules: Rules)
    requires HostsOk(fs) && rules.requireCross && Evaluate(Pipeline(fs, subject, rules), rules).ok
    ensures exists i, j :: 0 <= i < j < |fs|
              && IndependentOf(Pipeline(fs, subject, rules)[i], Pipeline(fs, subject, rules)[j])
              && Pipeline(fs, subject, rules)[i].independent && Pipeline(fs, subject, rules)[j].independent
  {
    hide Clustered, HostOf, Applied, Evaluate, IndependentOf, Countable;
    var rs, out := Clustered(fs, subject), Pipeline(fs, subject, rules);
    CrossCheckHasTwo(rs, rules);
    var i, j :| 0 <= i < j < |rs| && CountsIndependent(out[i]) && CountsIndependent(out[j]);
    PolicyEligibleIff(rs, rules, i);
    PolicyEligibleIff(rs, rules, j);
    PairwiseIndependence(fs, subject, i, j);
    SameEvidence(rs, rules, i);
    SameEvidence(rs, rules, j);
    IndependentSame(rs[i], rs[j], out[i], out[j]);
  }

  lemma SameEvidence(rs: seq<Source>, rules: Rules, i: nat)
    requires i < |rs|
    ensures var r, j := rs[i], Applied(rs, rules)[i];
            j.group == r.group && j.content == r.content && j.host == r.host && j.canonical == r.canonical
            && j.url == r.url && j.status == r.status
  {
    hide Judge, Scan, ScanEnd;
    ScanAt(rs, i, {}, Judging(rules));
    JudgeMeaning(rs[i], ScanEnd(rs[..i], {}, Judging(rules)), rules);
  }

  lemma IndependentSame(a: Source, b: Source, c: Source, d: Source)
    requires IndependentOf(a, b)
    requires a.group == c.group && a.content == c.content && a.host == c.host && a.canonical == c.canonical
    requires b.group == d.group && b.content == d.content
    ensures IndependentOf(c, d)
  {
    hide FingerprintOf, Tokens, Similar, Contains, Lower;
  }
}
