/**
 The evidence pipeline of the resolver: merging the URL lists and clustering the fetched
 sources by provenance. Each pass is a scan that carries a state from record to record.
*/
module Evidence {
  import opened Common
  import opened Text
  import opened Seqs
  import opened Hosts
  import opened SourceClasses

  const MAX_TOTAL_RESOLUTION_SOURCES := 12
  const MIN_TOKEN_LEN := 4
  const MIN_FINGERPRINT := 40
  const MAX_FINGERPRINT := 2048
  const MAX_EXCERPT := 4096
  const SIMILARITY_THRESHOLD := 0.62
  const MARKERS: seq<string> := [
    " via ", "source:", "originally published", "reprinted from", "courtesy of", "according to"]

  datatype Origin = SeedOrigin | SupplementalOrigin
  datatype Candidate = Candidate(url: Url, origin: Origin)
  datatype FetchStatus = Usable | Unavailable | BadFetch | Duplicate | DerivedStatus
  datatype Fetched = Fetched(url: Url, status: FetchStatus, content: string, origin: Origin)

  datatype Source = Source(
    url: Url, canonical: string, host: string, status: FetchStatus, content: string,
    origin: Origin, group: string, cls: SourceClass, primary: bool, independent: bool,
    eligible: bool, tokens: set<string>, fingerprint: string, excerpt: Option<string>)

  /** A source not derived from an earlier one, as later sources are compared with it. */
  datatype Root = Root(group: string, host: string, canonical: string, tokens: set<string>,
                       fingerprint: string)

  // Merging the URL lists

  function Take<T>(xs: seq<T>, n: nat): seq<T> { if |xs| <= n then xs else xs[..n] }

  function Tagged(urls: seq<Url>, origin: Origin): (cs: seq<Candidate>)
    ensures |cs| == |urls|
  {
    seq(|urls|, i requires 0 <= i < |urls| => Candidate(urls[i], origin))
  }

  function Supplementals(extras: seq<Url>): seq<Url> {
    Take(DistinctBy(extras, CanonicalUrl, {}), MAX_SUPPLEMENTAL_SOURCES)
  }

  function Remaining(seeds: seq<Url>, extras: seq<Url>): seq<Url> {
    DistinctBy(seeds, CanonicalUrl, Keys(Supplementals(extras), CanonicalUrl))
  }

  function Merged(seeds: seq<Url>, extras: seq<Url>): seq<Candidate> {
    Take(Tagged(Supplementals(extras), SupplementalOrigin)
         + Tagged(Remaining(seeds, extras), SeedOrigin),
         MAX_TOTAL_RESOLUTION_SOURCES)
  }

  lemma KeysSnoc(xs: seq<Url>, x: Url)
    ensures Keys(xs + [x], CanonicalUrl) == Keys(xs, CanonicalUrl) + {CanonicalUrl(x)}
  {
    hide CanonicalUrl;
    var ys := xs + [x];
    assert forall i :: 0 <= i < |xs| ==> ys[i] == xs[i];
    forall k | k in Keys(xs, CanonicalUrl) + {CanonicalUrl(x)} ensures k in Keys(ys, CanonicalUrl) {
      if k == CanonicalUrl(x) {
        assert CanonicalUrl(ys[|xs|]) == k;
      } else {
        var i :| 0 <= i < |xs| && CanonicalUrl(xs[i]) == k;
        assert CanonicalUrl(ys[i]) == k;
      }
    }
  }

  lemma SliceSnoc<T>(xs: seq<T>, i: nat)
    requires i < |xs|
    ensures xs[..i + 1] == xs[..i] + [xs[i]]
  {
  }

  lemma TaggedSnoc(urls: seq<Url>, u: Url, origin: Origin)
    ensures Tagged(urls + [u], origin) == Tagged(urls, origin) + [Candidate(u, origin)]
  {
  }

  lemma NoneTagged()
    ensures forall seen :: DistinctBy<Url>([], CanonicalUrl, seen) == []
    ensures Tagged([], SeedOrigin) == []
  {
  }

  lemma NoKeys()
    ensures Keys<Url>([], CanonicalUrl) == {}
  {
  }

  /** The first loop of the merge: up to six supplemental URLs with distinct keys. */
  method TakeSupplementals(extras: seq<Url>) returns (urls: seq<Url>, seen: set<string>)
    ensures urls == Supplementals(extras) && seen == Keys(urls, CanonicalUrl)
  {
    hide CanonicalUrl, Keys;
    urls, seen := [], {};
    NoKeys();
    var i := 0;
    while i < |extras|
      invariant 0 <= i <= |extras|
      invariant urls == Supplementals(extras[..i])
      invariant seen == Keys(urls, CanonicalUrl)
    {
      var url := extras[i];
      SliceSnoc(extras, i);
      DistinctByAppend(extras[..i], url, CanonicalUrl, {});
      i := i + 1;
      var key := CanonicalUrl(url);
      if key in seen { continue; }
      if |urls| >= MAX_SUPPLEMENTAL_SOURCES { continue; }
      seen := seen + {key};
      KeysSnoc(urls, url);
      urls := urls + [url];
    }
    assert extras[..i] == extras;
  }

  /** The budget is spent on a prefix of the seeds, so the rest cannot show. */
  lemma BudgetSpent(sup: seq<Url>, seeds: seq<Url>, j: nat, seen: set<string>)
    requires j <= |seeds|
    requires var kept := DistinctBy(seeds[..j], CanonicalUrl, seen);
             |sup| + |kept| == MAX_TOTAL_RESOLUTION_SOURCES
             || (|sup| + |kept| <= MAX_TOTAL_RESOLUTION_SOURCES && j == |seeds|)
    ensures Take(Tagged(sup, SupplementalOrigin)
                 + Tagged(DistinctBy(seeds, CanonicalUrl, seen), SeedOrigin), MAX_TOTAL_RESOLUTION_SOURCES)
            == Tagged(sup, SupplementalOrigin)
               + Tagged(DistinctBy(seeds[..j], CanonicalUrl, seen), SeedOrigin)
  {
    hide CanonicalUrl, DistinctBy;
    assert seeds == seeds[..j] + seeds[j..];
    DistinctByPrefix(seeds[..j], seeds[j..], CanonicalUrl, seen);
    if j == |seeds| { assert seeds[..j] == seeds; }
  }

  /** Supplemental evidence first, then the seeds, within the shared budget. */
  method MergeResolutionUrls(seeds: seq<Url>, extras: seq<Url>) returns (out: seq<Candidate>)
    ensures out == Merged(seeds, extras)
  {
    hide CanonicalUrl, Keys, DistinctBy, Tagged;
    var urls, seen := TakeSupplementals(extras);
    out := Tagged(urls, SupplementalOrigin);
    ghost var first := seen;
    ghost var kept: seq<Url> := [];
    NoKeys();
    NoneTagged();
    var j := 0;
    while j < |seeds|
      invariant 0 <= j <= |seeds|
      invariant kept == DistinctBy(seeds[..j], CanonicalUrl, first)
      invariant seen == first + Keys(kept, CanonicalUrl)
      invariant out == Tagged(urls, SupplementalOrigin) + Tagged(kept, SeedOrigin)
      invariant |out| < MAX_TOTAL_RESOLUTION_SOURCES
    {
      var url := seeds[j];
      SliceSnoc(seeds, j);
      DistinctByAppend(seeds[..j], url, CanonicalUrl, first);
      j := j + 1;
      var key := CanonicalUrl(url);
      if key in seen { continue; }
      seen := seen + {key};
      KeysSnoc(kept, url);
      TaggedSnoc(kept, url, SeedOrigin);
      kept := kept + [url];
      out := out + [Candidate(url, SeedOrigin)];
      if |out| >= MAX_TOTAL_RESOLUTION_SOURCES { break; }
    }
    BudgetSpent(urls, seeds, j, first);
  }

  // Comparing contents

  predicate IsAlnum(c: char) { 'a' <= c <= 'z' || 'A' <= c <= 'Z' || '0' <= c <= '9' }

  predicate Breaks(c: char) { !IsAlnum(c) }

  function LongWords(text: string): set<string> {
    set w | w in Split(text, Breaks) && |w| >= MIN_TOKEN_LEN
  }

  function Tokens(text: string): set<string> { LongWords(Lower(text)) }

  lemma LongWordsBreak(buf: string, c: char, rest: string)
    requires Breaks(c) && forall i :: 0 <= i < |buf| ==> IsAlnum(buf[i])
    ensures LongWords(buf + [c] + rest)
            == LongWords(rest) + if |buf| >= MIN_TOKEN_LEN then {buf} else {}
  {
    SplitAppend(buf, c, rest, Breaks);
  }

  /** The words of a text, gathered character by character. */
  method Tokenize(text: string) returns (tokens: set<string>)
    ensures tokens == Tokens(text)
  {
    hide LongWords;
    var lower := Lower(text);
    tokens := {};
    var buf := "";
    assert buf + lower[0..] == lower;
    for i := 0 to |lower|
      invariant forall k :: 0 <= k < |buf| ==> IsAlnum(buf[k])
      invariant LongWords(lower) == tokens + LongWords(buf + lower[i..])
    {
      var ch := lower[i];
      NextCharacter(buf, lower, i);
      if IsAlnum(ch) {
        buf := buf + [ch];
      } else {
        LongWordsBreak(buf, ch, lower[i + 1..]);
        if |buf| >= MIN_TOKEN_LEN { tokens := tokens + {buf}; }
        buf := "";
      }
    }
    assert buf + lower[|lower|..] == buf;
    LastWord(buf);
    if |buf| >= MIN_TOKEN_LEN { tokens := tokens + {buf}; }
  }

  lemma NextCharacter(buf: string, text: string, i: nat)
    requires i < |text|
    ensures buf + text[i..] == buf + [text[i]] + text[i + 1..]
    ensures "" + text[i + 1..] == text[i + 1..]
  {
    assert text[i..] == [text[i]] + text[i + 1..];
  }

  lemma LastWord(buf: string)
    requires forall i :: 0 <= i < |buf| ==> IsAlnum(buf[i])
    ensures LongWords(buf) == if |buf| >= MIN_TOKEN_LEN then {buf} else {}
  {
    SplitNoSep(buf, Breaks);
  }

  function Jaccard(a: set<string>, b: set<string>): real {
    if a == {} || b == {} then 0.0
    else
      var inter := |a * b|;
      var union := |a| + |b| - inter;
      if union <= 0 then 0.0 else (inter as real) / (union as real)
  }

  /** A ratio of shared to all words: symmetric, at most one, and one exactly for equal word sets. */
  lemma JaccardMeaning(a: set<string>, b: set<string>)
    ensures Jaccard(a, b) == Jaccard(b, a) && 0.0 <= Jaccard(a, b) <= 1.0
    ensures Jaccard(a, b) == 1.0 <==> a == b && a != {}
    ensures a != {} && b != {} ==> Jaccard(a, b) == (|a * b| as real) / (|a + b| as real)
  {
    assert a * b == b * a && a + b == b + a;
    assert |a + b| == |a| + |b| - |a * b|;
    if a != {} && b != {} {
      SharedWords(a, b);
      SomeWord(a, b);
      RatioBounds(|a * b|, |a + b|);
    }
  }

  lemma SomeWord(a: set<string>, b: set<string>)
    requires a != {}
    ensures |a + b| > 0
  {
    var w :| w in a;
    assert w in a + b;
  }

  lemma RatioBounds(n: nat, m: nat)
    requires n <= m && m > 0
    ensures 0.0 <= (n as real) / (m as real) <= 1.0
    ensures (n as real) / (m as real) == 1.0 <==> n == m
  {
    var x, y := n as real, m as real;
    assert x / y * y == x;
  }

  lemma SharedWords(a: set<string>, b: set<string>)
    ensures |a * b| <= |a + b| && (|a * b| == |a + b| <==> a == b)
  {
    var extra := (a + b) - (a * b);
    assert a + b == a * b + extra && a * b !! extra;
    assert |a + b| == |a * b| + |extra|;
    if extra == {} {
      assert forall w :: w in a + b ==> w in a * b;
      assert a == b;
    } else {
      assert a != b;
    }
  }

  predicate Similar(a: set<string>, b: set<string>) { Jaccard(a, b) >= SIMILARITY_THRESHOLD }

  /** Collapsed lower-case text, cut to length; empty when there is too little of it. */
  function FingerprintOf(text: string): string {
    var compact := Collapse(Lower(text), 0, AtStart);
    var cut := if |compact| > MAX_FINGERPRINT then compact[..MAX_FINGERPRINT] else compact;
    if |cut| < MIN_FINGERPRINT then "" else cut
  }

  /** Two word sets are similar when at least 62 of 100 of all their words are shared. */
  lemma SimilarMeans(a: set<string>, b: set<string>)
    ensures Similar(a, b) <==> a != {} && b != {} && 100 * |a * b| >= 62 * |a + b|
  {
    JaccardMeaning(a, b);
    if a != {} && b != {} {
      SomeWord(a, b);
      ShareBound(|a * b|, |a + b|);
    }
  }

  lemma ShareBound(n: nat, m: nat)
    requires m > 0
    ensures (n as real) / (m as real) >= 0.62 <==> 100 * n >= 62 * m
  {
    QuotientBound(n as real, m as real, 0.62);
    WholeBound(n, m);
  }

  lemma WholeBound(n: nat, m: nat)
    ensures n as real >= 0.62 * (m as real) <==> 100 * n >= 62 * m
  {
    assert (100 * n) as real == 100.0 * (n as real) && (62 * m) as real == 62.0 * (m as real);
  }

  lemma QuotientBound(x: real, y: real, c: real)
    requires y > 0.0
    ensures x / y >= c <==> x >= c * y
  {
    TimesBound(x / y, c, y);
  }

  lemma TimesBound(q: real, c: real, y: real)
    requires y > 0.0
    ensures q >= c <==> q * y >= c * y
  {
    assert (q - c) * y == q * y - c * y;
  }

  /** A fingerprint is the lower-case words joined by single blanks, from 40 characters on and up to 2048. */
  lemma FingerprintMeans(text: string)
    ensures var t := Join(Words(Lower(text)), " ");
            FingerprintOf(text) == if |t| < 40 then "" else if |t| <= 2048 then t else t[..2048]
  {
    hide Words, Join, Collapse, Lower;
    CollapseJoins(Lower(text));
  }

  // Clustering

  function HeuristicClass(url: Url, content: string, status: FetchStatus, subject: string): SourceClass {
    if status == Unavailable || status == BadFetch then Invalid
    else if status == Duplicate || status == DerivedStatus then Derived
    else
      var host := HostOf(url);
      if HostMatches(host, SOCIAL_HOSTS) then
        if IsSubjectOwned(url, subject) then Primary else Social
      else if HostMatches(host, COMMUNITY_HOSTS) then
        if IsSubjectOwned(url, subject) then Primary else Community
      else if HostMatches(host, PLATFORM_CODE_HOSTS) then
        if IsSubjectOwned(url, subject) then Primary else Unknown
      else if IsSubjectOwned(url, subject) then Official
      else if |Strip(content)| >= 64 || |Tokens(content)| >= 6 then IndependentSecondary
      else Unknown
  }

  /** The part of a content its evidence hash is taken of. */
  function ExcerptOf(content: string): string {
    if |content| > MAX_EXCERPT then content[..MAX_EXCERPT] else content
  }

  function Base(f: Fetched): Source {
    var content := if f.status.Usable? then f.content else "";
    Source(f.url, CanonicalUrl(f.url), HostOf(f.url), f.status, content, f.origin,
           RegistrableDomain(HostOf(f.url)), Unknown, false, false, false,
           if f.status.Usable? then Tokens(content) else {},
           if f.status.Usable? then FingerprintOf(content) else "",
           if f.status.Usable? then Some(ExcerptOf(content)) else None)
  }

  /** The first pass marks a URL seen before as a duplicate of its first occurrence. */
  function CatalogStep(f: Fetched, seen: map<string, string>): (Source, map<string, string>) {
    var r := Base(f);
    if r.canonical in seen
    then (r.(status := Duplicate, content := "", tokens := {}, cls := Derived,
             group := seen[r.canonical]), seen)
    else (r, seen[r.canonical := r.group])
  }

  function Catalog(fetched: seq<Fetched>): seq<Source> { Scan(fetched, map[], CatalogStep) }

  predicate Repeats(r: Source, p: Root) {
    || r.group == p.group
    || (r.fingerprint != "" && r.fingerprint == p.fingerprint)
    || Similar(r.tokens, p.tokens)
  }

  function FirstRepeat(r: Source, roots: seq<Root>): string {
    if |roots| == 0 then ""
    else if Repeats(r, roots[0]) then roots[0].group
    else FirstRepeat(r, roots[1..])
  }

  predicate Hinted(lower: string) { exists m :: m in MARKERS && Contains(lower, m) }

  predicate Mentions(lower: string, hinted: bool, p: Root) {
    || (p.host != "" && Contains(lower, p.host) && (hinted || p.canonical != ""))
    || (p.canonical != "" && Contains(lower, p.canonical))
  }

  function FirstMention(lower: string, hinted: bool, roots: seq<Root>): string {
    if |roots| == 0 then ""
    else if Mentions(lower, hinted, roots[0]) then roots[0].group
    else FirstMention(lower, hinted, roots[1..])
  }

  function Attributed(content: string, roots: seq<Root>): string {
    var lower := Lower(content);
    if lower == "" then "" else FirstMention(lower, Hinted(lower), roots)
  }

  function Inherited(r: Source, roots: seq<Root>): string {
    var g := FirstRepeat(r, roots);
    if g != "" then g else Attributed(r.content, roots)
  }

  function RootOf(r: Source): Root { Root(r.group, r.host, r.canonical, r.tokens, r.fingerprint) }

  /** The second pass links a usable record to an earlier root, or makes it a root. */
  function ClusterStep(r: Source, roots: seq<Root>, subject: string): (Source, seq<Root>) {
    if !r.status.Usable? then (r, roots)
    else
      var g := Inherited(r, roots);
      if g != "" then
        (r.(group := g, status := if r.cls != Official then DerivedStatus else r.status,
            cls := Derived), roots)
      else
        (r.(cls := HeuristicClass(r.url, r.content, r.status, subject)), roots + [RootOf(r)])
  }

  function Clusterer(subject: string): (Source, seq<Root>) -> (Source, seq<Root>) {
    (r, roots) => ClusterStep(r, roots, subject)
  }

  function Linked(fetched: seq<Fetched>, subject: string): (rs: seq<Source>)
    ensures |rs| == |fetched|
  {
    Scan(Catalog(fetched), [], Clusterer(subject))
  }

  function Finish(r: Source): Source {
    r.(cls := if r.status.Duplicate? then Derived else r.cls, tokens := {})
  }

  function FinishAll(rs: seq<Source>): (out: seq<Source>)
    ensures |out| == |rs| && forall i :: 0 <= i < |rs| ==> out[i] == Finish(rs[i])
  {
    seq(|rs|, i requires 0 <= i < |rs| => Finish(rs[i]))
  }

  function Clustered(fetched: seq<Fetched>, subject: string): (rs: seq<Source>)
    ensures |rs| == |fetched|
  {
    FinishAll(Linked(fetched, subject))
  }

  method FindRepeat(r: Source, roots: seq<Root>) returns (group: string)
    ensures group == FirstRepeat(r, roots)
  {
    hide Repeats;
    for i := 0 to |roots|
      invariant FirstRepeat(r, roots) == FirstRepeat(r, roots[i..])
    {
      assert roots[i..][1..] == roots[i + 1..];
      if Repeats(r, roots[i]) { return roots[i].group; }
    }
    group := "";
  }

  method AttributionTarget(content: string, candidates: seq<Root>) returns (group: string)
    ensures group == Attributed(content, candidates)
  {
    hide Mentions, Contains;
    var lower := Lower(content);
    if lower == "" { return ""; }
    var hinted := false;
    var m := 0;
    while m < |MARKERS| && !hinted
      invariant 0 <= m <= |MARKERS|
      invariant hinted == exists k :: 0 <= k < m && Contains(lower, MARKERS[k])
    {
      hinted := Contains(lower, MARKERS[m]);
      m := m + 1;
    }
    assert hinted == Hinted(lower);
    for i := 0 to |candidates|
      invariant FirstMention(lower, hinted, candidates) == FirstMention(lower, hinted, candidates[i..])
    {
      assert candidates[i..][1..] == candidates[i + 1..];
      if Mentions(lower, hinted, candidates[i]) { return candidates[i].group; }
    }
    group := "";
  }

  /** The first loop of the clustering. */
  method CatalogSources(fetched: seq<Fetched>) returns (out: seq<Source>)
    ensures out == Catalog(fetched)
  {
    hide Base;
    var seen: map<string, string> := map[];
    out := [];
    for i := 0 to |fetched|
      invariant out == Scan(fetched[..i], map[], CatalogStep)
      invariant seen == ScanEnd(fetched[..i], map[], CatalogStep)
    {
      SliceSnoc(fetched, i);
      ScanSnoc(fetched[..i], fetched[i], map[], CatalogStep);
      var rec := Base(fetched[i]);
      if rec.canonical in seen {
        rec := rec.(status := Duplicate, content := "", tokens := {}, cls := Derived,
                    group := seen[rec.canonical]);
      } else {
        seen := seen[rec.canonical := rec.group];
      }
      out := out + [rec];
    }
    assert fetched[..|fetched|] == fetched;
  }

  /** The second loop: each record is rewritten in place and may become a root. */
  method LinkSources(cat: seq<Source>, subject: string) returns (out: seq<Source>)
    ensures out == Scan(cat, [], Clusterer(subject))
  {
    hide *;
    out := cat;
    ghost var step := Clusterer(subject);
    var roots: seq<Root> := [];
    ScanNone(subject);
    for i := 0 to |cat|
      invariant |out| == |cat|
      invariant out == Scan(cat[..i], [], step) + cat[i..]
      invariant roots == ScanEnd(cat[..i], [], step)
    {
      SliceSnoc(cat, i);
      ScanSnoc(cat[..i], cat[i], [], step);
      assert cat[i..] == [cat[i]] + cat[i + 1..];
      ClustererIs(cat[i], roots, subject);
      var rec, next := LinkOne(out[i], roots, subject);
      out := out[i := rec];
      roots := next;
    }
    assert cat[..|cat|] == cat;
  }

  lemma ClustererIs(r: Source, roots: seq<Root>, subject: string)
    ensures Clusterer(subject)(r, roots) == ClusterStep(r, roots, subject)
  {
    hide ClusterStep;
  }

  lemma ScanNone(subject: string)
    ensures Scan([], [], Clusterer(subject)) == [] && ScanEnd([], [], Clusterer(subject)) == []
  {
  }

  /** The body of the second loop. */
  method LinkOne(rec: Source, roots: seq<Root>, subject: string) returns (r: Source, next: seq<Root>)
    ensures (r, next) == ClusterStep(rec, roots, subject)
  {
    hide HeuristicClass, FirstRepeat, Attributed;
    r, next := rec, roots;
    if !rec.status.Usable? { return; }
    var inherited := FindRepeat(rec, roots);
    if inherited == "" { inherited := AttributionTarget(rec.content, roots); }
    if inherited != "" {
      r := r.(group := inherited);
      if r.cls != Official { r := r.(status := DerivedStatus); }
    } else {
      next := next + [RootOf(rec)];
    }
    r := r.(cls := HeuristicClass(r.url, r.content, r.status, subject));
    if inherited != "" || r.status.DerivedStatus? || r.status.Duplicate? { r := r.(cls := Derived); }
  }

  /** The clustering: catalogue, link, and clear the working fields. */
  method ClusterSources(fetched: seq<Fetched>, subject: string) returns (out: seq<Source>)
    ensures out == Clustered(fetched, subject)
  {
    hide Scan, ScanEnd, Finish;
    var cat := CatalogSources(fetched);
    out := LinkSources(cat, subject);
    ghost var linked := out;
    for i := 0 to |out|
      invariant |out| == |linked|
      invariant forall k :: 0 <= k < i ==> out[k] == Finish(linked[k])
      invariant forall k :: i <= k < |out| ==> out[k] == linked[k]
    {
      out := out[i := Finish(out[i])];
    }
  }
}
