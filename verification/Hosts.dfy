/** Hosts, registrable domains, and which URLs belong to the subject of a claim. */
module Hosts {
  import opened Text

  /** A URL with the parts the URL parser finds in it. */
  datatype Url = Url(text: string, hostname: string, path: string)

  const SOCIAL_HOSTS: seq<string> := [
    "x.com", "twitter.com", "facebook.com", "instagram.com", "tiktok.com", "reddit.com",
    "youtube.com", "t.me"]
  const COMMUNITY_HOSTS: seq<string> := [
    "wikipedia.org", "medium.com", "blogspot.com", "wordpress.com", "substack.com", "tumblr.com"]
  const PLATFORM_CODE_HOSTS: seq<string> := ["github.com", "gitlab.com", "bitbucket.org"]
  const COMPOUND_TLDS: seq<string> := [
    "co.uk", "org.uk", "gov.uk", "ac.uk", "co.jp", "com.au", "net.au", "org.au", "co.nz",
    "co.za", "com.br", "co.in", "com.mx"]

  predicate IsDot(c: char) { c == '.' }

  function Tidy(host: string): string { Trim(Lower(host), IsDot) }

  function HostOf(u: Url): string { Tidy(u.hostname) }

  /** The path as a canonical URL has it. */
  function PathOf(path: string): string {
    if path == "" then "/"
    else if path != "/" && EndsWith(path, "/") then path[..|path| - 1]
    else path
  }

  function CanonicalUrl(u: Url): string { "https://" + HostOf(u) + PathOf(u.path) }

  lemma SlashDropped(p: string)
    requires p != "" && !EndsWith(p, "/")
    ensures PathOf(p + "/") == p == PathOf(p)
  {
    var q := p + "/";
    assert q[..|q| - 1] == p && q[|q| - 1..] == "/" && |q| >= 2;
  }

  lemma PathsApart(front: string, p: string, q: string)
    ensures front + p == front + q <==> p == q
  {
    assert (front + p)[|front|..] == p && (front + q)[|front|..] == q;
  }

  /** Paths are told apart up to one slash at their end; scheme, query and fragment play no part. */
  lemma CanonicalMeans(u: Url, v: Url)
    requires HostOf(u) == HostOf(v)
    ensures u.path == "" && v.path == "/" ==> CanonicalUrl(u) == CanonicalUrl(v)
    ensures u.path != "" && !EndsWith(u.path, "/") && v.path == u.path + "/" ==> CanonicalUrl(u) == CanonicalUrl(v)
    ensures !EndsWith(u.path, "/") && !EndsWith(v.path, "/") && u.path != "" && v.path != "" ==>
              (CanonicalUrl(u) == CanonicalUrl(v) <==> u.path == v.path)
  {
    hide HostOf, EndsWith;
    if u.path != "" && !EndsWith(u.path, "/") { SlashDropped(u.path); }
    if v.path != "" && !EndsWith(v.path, "/") { SlashDropped(v.path); }
    PathsApart("https://" + HostOf(u), PathOf(u.path), PathOf(v.path));
  }

  predicate MatchesSuffix(host: string, suffix: string) {
    host == suffix || EndsWith(host, "." + suffix)
  }

  predicate HostMatches(host: string, suffixes: seq<string>) {
    exists s :: s in suffixes && MatchesSuffix(host, s)
  }

  function Labels(host: string): (ls: seq<string>)
    ensures |ls| > 0
  {
    Split(host, IsDot)
  }

  function RegistrableDomain(raw: string): string {
    var host := Tidy(raw);
    var parts := Labels(host);
    var n := |parts|;
    if raw == "" then ""
    else if n < 2 then host
    else
      var lastTwo := parts[n - 2] + "." + parts[n - 1];
      if lastTwo in COMPOUND_TLDS && n >= 3 then parts[n - 3] + "." + lastTwo else lastTwo
  }

  function StripWww(raw: string): string {
    var h := Tidy(raw);
    if StartsWith(h, "www.") then h[4..] else h
  }

  predicate LooksLikeHost(token: string) {
    && token != "" && '.' in token && token[0] != '.' && token[|token| - 1] != '.'
    && |Labels(token)| >= 2
    && (var tld := Labels(token)[|Labels(token)| - 1];
        |tld| >= 2 && forall i :: 0 <= i < |tld| ==> 'a' <= tld[i] <= 'z' || '0' <= tld[i] <= '9')
  }

  // Subject authority

  datatype Authority = Authority(host: string, owner: string)

  function CutAt(s: string, stop: char -> bool): string {
    if s == "" || stop(s[0]) then "" else [s[0]] + CutAt(s[1..], stop)
  }

  predicate IsSlash(c: char) { c == '/' }
  predicate EndsSubject(c: char) { c == ' ' || c == '?' || c == '#' }

  function Segments(path: string): seq<string> {
    Filter(Split(path, IsSlash), NonEmpty)
  }

  function SubjectText(subject: string): string {
    var t := Lower(Strip(subject));
    var u := if StartsWith(t, "https://") then t[8..]
             else if StartsWith(t, "http://") then t[7..] else t;
    var v := Trim(CutAt(u, EndsSubject), IsSlash);
    if StartsWith(v, "www.") then v[4..] else v
  }

  predicate Platform(host: string) {
    HostMatches(host, PLATFORM_CODE_HOSTS) || HostMatches(host, SOCIAL_HOSTS)
    || HostMatches(host, COMMUNITY_HOSTS)
  }

  function AuthorityOf(parts: seq<string>): Authority {
    if |parts| == 0 then Authority("", "")
    else
      var host := StripWww(Trim(parts[0], IsDot));
      if !LooksLikeHost(host) then Authority("", "")
      else Authority(host, if Platform(host) && |parts| >= 2 then Trim(parts[1], IsDot) else "")
  }

  function SubjectAuthority(subject: string): Authority { AuthorityOf(Segments(SubjectText(subject))) }

  predicate IsSubjectOwned(u: Url, subject: string) {
    var auth := SubjectAuthority(subject);
    var host := StripWww(HostOf(u));
    var parts := Segments(Lower(u.path));
    && auth.host != "" && host != ""
    && MatchesSuffix(host, auth.host)
    && (auth.owner != "" ==> |parts| > 0 && parts[0] == auth.owner)
  }

  lemma TidyStripped(raw: string)
    requires LooksLikeHost(StripWww(raw))
    ensures Tidy(StripWww(raw)) == StripWww(raw)
  {
    hide Labels, Trim, Lower;
    var t, h := Tidy(raw), StripWww(raw);
    LowerTwice(raw);
    assert t[|t| - |h|..] == h;
    assert forall i :: 0 <= i < |h| ==> h[i] == t[|t| - |h| + i];
    LowerFixed(h);
    TrimFixed(h, IsDot);
  }

  lemma LowerFixed(s: string)
    requires forall i :: 0 <= i < |s| ==> LowerChar(s[i]) == s[i]
    ensures Lower(s) == s
  {
  }

  /** The subject's host, when there is one, is a tidy host name with at least two labels. */
  lemma AuthorityHost(subject: string)
    ensures var a := SubjectAuthority(subject);
            && (a.host != "" ==> LooksLikeHost(a.host) && Tidy(a.host) == a.host)
            && (a.owner != "" ==> a.host != "" && Platform(a.host))
  {
    hide Segments, SubjectText, LooksLikeHost, Platform, StripWww, Tidy;
    var parts := Segments(SubjectText(subject));
    if |parts| > 0 && LooksLikeHost(StripWww(Trim(parts[0], IsDot))) {
      TidyStripped(Trim(parts[0], IsDot));
      HostNonEmpty(StripWww(Trim(parts[0], IsDot)));
    }
  }

  /** At least two labels, the last of two or more letters and digits. */
  predicate HostShaped(ls: seq<string>) {
    && |ls| >= 2
    && var tld := ls[|ls| - 1];
       |tld| >= 2 && forall i :: 0 <= i < |tld| ==> 'a' <= tld[i] <= 'z' || '0' <= tld[i] <= '9'
  }

  lemma AuthorityShape(subject: string)
    ensures var a := SubjectAuthority(subject);
            a.host != "" ==> HostShaped(Labels(a.host)) && a.host[0] != '.' && a.host[|a.host| - 1] != '.'
  {
    hide LooksLikeHost, Labels, Segments, SubjectText, StripWww, Platform, Trim, HostShaped;
    var parts := Segments(SubjectText(subject));
    if |parts| > 0 && LooksLikeHost(StripWww(Trim(parts[0], IsDot))) { HostShape(StripWww(Trim(parts[0], IsDot))); }
  }

  lemma HostShape(h: string)
    requires LooksLikeHost(h)
    ensures HostShaped(Labels(h)) && h != "" && h[0] != '.' && h[|h| - 1] != '.'
  {
    hide Labels;
  }

  lemma HostNonEmpty(h: string)
    requires LooksLikeHost(h)
    ensures h != "" && |Labels(h)| >= 2
  {
    hide Labels;
  }

  lemma TrimWithin(s: string, drop: char -> bool)
    ensures forall c :: c in Trim(s, drop) ==> c in s
  {
    var t, k := Trim(s, drop), Front(s, 0, drop);
    assert forall i :: 0 <= i < |t| ==> t[i] == s[k + i];
  }

  lemma LowerTwice(raw: string)
    ensures forall i :: 0 <= i < |Tidy(raw)| ==> LowerChar(Tidy(raw)[i]) == Tidy(raw)[i]
  {
    hide Trim;
    TrimWithin(Lower(raw), IsDot);
    forall i | 0 <= i < |Tidy(raw)| ensures LowerChar(Tidy(raw)[i]) == Tidy(raw)[i] {
      assert Tidy(raw)[i] in Lower(raw);
      var k :| 0 <= k < |Lower(raw)| && Lower(raw)[k] == Tidy(raw)[i];
      assert Lower(raw)[k] == LowerChar(raw[k]);
    }
  }

  lemma TidyTwice(raw: string)
    ensures Tidy(Tidy(raw)) == Tidy(raw)
  {
    LowerTwice(raw);
    assert Lower(Tidy(raw)) == Tidy(raw);
    TrimIdempotent(Lower(raw), IsDot);
  }

  // Dotted suffixes are label suffixes

  lemma {:induction false} SplitConcat(a: string, c: char, b: string, sep: char -> bool)
    requires sep(c)
    ensures Split(a + [c] + b, sep) == Split(a, sep) + Split(b, sep)
  {
    var s := a + [c] + b;
    var rb := Split(b, sep);
    if a == "" {
      assert s[0] == c && s[1..] == b;
    } else {
      assert s[0] == a[0] && s[1..] == a[1..] + [c] + b;
      SplitConcat(a[1..], c, b, sep);
      SplitStep(s, sep, Split(a[1..], sep) + rb);
      SplitStep(a, sep, Split(a[1..], sep));
      GlueConcat(a[0], Split(a[1..], sep), rb, sep);
    }
  }

  /** What one more leading character does to the pieces. */
  function Glue(c: char, rest: seq<string>, sep: char -> bool): seq<string>
    requires |rest| > 0
  {
    if sep(c) then [""] + rest else [[c] + rest[0]] + rest[1..]
  }

  lemma SplitStep(s: string, sep: char -> bool, rest: seq<string>)
    requires s != "" && rest == Split(s[1..], sep)
    ensures Split(s, sep) == Glue(s[0], rest, sep)
  {
  }

  lemma GlueConcat(c: char, ra: seq<string>, rb: seq<string>, sep: char -> bool)
    requires |ra| > 0
    ensures Glue(c, ra + rb, sep) == Glue(c, ra, sep) + rb
  {
  }

  lemma {:induction false} JoinConcat(a: seq<string>, b: seq<string>)
    requires |a| > 0 && |b| > 0
    ensures Join(a + b, ".") == Join(a, ".") + "." + Join(b, ".")
  {
    if |a| == 1 {
      assert (a + b)[1..] == b;
    } else {
      assert (a + b)[1..] == a[1..] + b;
      JoinConcat(a[1..], b);
    }
  }

  lemma JoinLabels(host: string)
    ensures Join(Labels(host), ".") == host
  {
    JoinSplit(host, '.');
    SplitSame(host, IsDot, c => c == '.');
  }

  lemma {:induction false} SplitSame(s: string, f: char -> bool, g: char -> bool)
    requires forall c :: f(c) == g(c)
    ensures Split(s, f) == Split(s, g)
  {
    if s != "" { SplitSame(s[1..], f, g); }
  }

  predicate LabelSuffix(ls: seq<string>, suffix: seq<string>) {
    |suffix| <= |ls| && ls[|ls| - |suffix|..] == suffix
  }

  /** A dotted suffix of a host is exactly a suffix of its list of labels. */
  lemma SuffixIsLabelSuffix(host: string, suffix: string)
    ensures MatchesSuffix(host, suffix) <==> LabelSuffix(Labels(host), Labels(suffix))
  {
    hide Labels;
    var ls, ss := Labels(host), Labels(suffix);
    if MatchesSuffix(host, suffix) && host != suffix {
      var front := host[..|host| - |suffix| - 1];
      assert host == front + "." + suffix;
      LabelsConcat(front, suffix);
    }
    if LabelSuffix(ls, ss) {
      JoinLabels(host);
      JoinLabels(suffix);
      var front := ls[..|ls| - |ss|];
      assert ls == front + ss;
      if |front| > 0 {
        JoinConcat(front, ss);
        assert host == Join(front, ".") + "." + suffix;
      }
    }
  }

  lemma LabelsConcat(a: string, b: string)
    ensures Labels(a + "." + b) == Labels(a) + Labels(b)
  {
    SplitConcat(a, '.', b, IsDot);
  }

  // One registrable domain per subject

  lemma SuffixTransLabels(ls: seq<string>, mid: seq<string>, ss: seq<string>)
    requires LabelSuffix(ls, mid) && LabelSuffix(mid, ss)
    ensures LabelSuffix(ls, ss)
  {
    assert ls[|ls| - |ss|..] == ls[|ls| - |mid|..][|mid| - |ss|..];
  }

  /** The labels of a host end with those of the host without its `www.`. */
  lemma WwwLabels(host: string)
    requires Tidy(host) == host
    ensures LabelSuffix(Labels(host), Labels(StripWww(host)))
  {
    hide Labels, Tidy;
    var s := StripWww(host);
    if StartsWith(host, "www.") {
      assert host == "www" + "." + s;
      LabelsConcat("www", s);
    }
  }

  lemma OwnedLabels(u: Url, subject: string)
    requires IsSubjectOwned(u, subject)
    ensures LabelSuffix(Labels(HostOf(u)), Labels(SubjectAuthority(subject).host))
  {
    hide Labels, Tidy, SubjectAuthority;
    var h, w := SubjectAuthority(subject).host, HostOf(u);
    TidyTwice(u.hostname);
    WwwLabels(w);
    SuffixIsLabelSuffix(StripWww(w), h);
    SuffixTransLabels(Labels(w), Labels(StripWww(w)), Labels(h));
  }

  /** The registrable domain only looks at the last two labels, or three under a compound TLD. */
  lemma SameRegistrable(host: string, h: string)
    requires Tidy(host) == host && Tidy(h) == h && host != "" && h != ""
    requires LabelSuffix(Labels(host), Labels(h)) && |Labels(h)| >= 2
    requires h !in COMPOUND_TLDS
    ensures RegistrableDomain(host) == RegistrableDomain(h)
  {
    hide Labels, Tidy, RegistrableDomain;
    var ls, ss := Labels(host), Labels(h);
    LastLabels(ls, ss);
    DomainOf(host);
    DomainOf(h);
    if |ss| == 2 { TwoLabels(h); }
  }

  lemma LastLabels(ls: seq<string>, ss: seq<string>)
    requires LabelSuffix(ls, ss) && |ss| >= 2
    ensures ls[|ls| - 1] == ss[|ss| - 1] && ls[|ls| - 2] == ss[|ss| - 2]
    ensures |ss| >= 3 ==> ls[|ls| - 3] == ss[|ss| - 3]
  {
    assert forall i :: 0 <= i < |ss| ==> ss[i] == ls[|ls| - |ss| + i];
  }

  /** The registrable domain of a tidy host, from its last labels. */
  lemma DomainOf(host: string)
    requires Tidy(host) == host && host != "" && |Labels(host)| >= 2
    ensures var ls := Labels(host);
            var n := |ls|;
            var lastTwo := ls[n - 2] + "." + ls[n - 1];
            RegistrableDomain(host)
            == if lastTwo in COMPOUND_TLDS && n >= 3 then ls[n - 3] + "." + lastTwo else lastTwo
  {
    hide Labels, Tidy;
  }

  lemma TwoLabels(h: string)
    requires |Labels(h)| == 2
    ensures h == Labels(h)[0] + "." + Labels(h)[1]
  {
    hide Labels;
    JoinLabels(h);
    var ls := Labels(h);
    assert ls == [ls[0]] + [ls[1]];
    assert Join(ls[1..], ".") == ls[1];
  }

  /** All URLs owned by one subject share the subject's registrable domain. */
  lemma OwnedDomain(u: Url, subject: string)
    requires IsSubjectOwned(u, subject) && SubjectAuthority(subject).host !in COMPOUND_TLDS
    ensures RegistrableDomain(HostOf(u)) == RegistrableDomain(SubjectAuthority(subject).host)
  {
    hide Labels, Tidy, Segments, RegistrableDomain, SubjectAuthority, LooksLikeHost;
    var h := SubjectAuthority(subject).host;
    AuthorityHost(subject);
    HostNonEmpty(h);
    OwnedLabels(u, subject);
    TidyTwice(u.hostname);
    OwnedHasHost(u, subject);
    SameRegistrable(HostOf(u), h);
  }

  lemma OwnedHasHost(u: Url, subject: string)
    requires IsSubjectOwned(u, subject)
    ensures HostOf(u) != ""
  {
    hide Labels, SubjectAuthority, Segments;
    assert HostOf(u) == "" ==> StripWww(HostOf(u)) == "";
  }

  // The one family of subjects without a single domain: bare compound top-level domains

  lemma TwoPart(h: string, x: string, y: string)
    requires h == x + "." + y
    requires (forall i :: 0 <= i < |x| ==> x[i] != '.') && (forall i :: 0 <= i < |y| ==> y[i] != '.')
    ensures Labels(h) == [x, y]
  {
    LabelsConcat(x, y);
    SplitNoSep(x, IsDot);
    SplitNoSep(y, IsDot);
  }

  lemma CompoundLabels(h: string)
    requires h in COMPOUND_TLDS
    ensures |Labels(h)| == 2
  {
    hide Labels;
    if h in COMPOUND_TLDS[..6] { FirstCompounds(h); } else { LastCompounds(h); }
  }

  lemma FirstCompounds(h: string)
    requires h in ["co.uk", "org.uk", "gov.uk", "ac.uk", "co.jp", "com.au"]
    ensures |Labels(h)| == 2
  {
    hide Labels;
    if h == "co.uk" { TwoPart(h, "co", "uk"); }
    else if h == "org.uk" { TwoPart(h, "org", "uk"); }
    else if h == "gov.uk" { TwoPart(h, "gov", "uk"); }
    else if h == "ac.uk" { TwoPart(h, "ac", "uk"); }
    else if h == "co.jp" { TwoPart(h, "co", "jp"); }
    else { TwoPart(h, "com", "au"); }
  }

  lemma LastCompounds(h: string)
    requires h in ["net.au", "org.au", "co.nz", "co.za", "com.br", "co.in", "com.mx"]
    ensures |Labels(h)| == 2
  {
    hide Labels;
    if h == "net.au" { TwoPart(h, "net", "au"); }
    else if h == "org.au" { TwoPart(h, "org", "au"); }
    else if h == "co.nz" { TwoPart(h, "co", "nz"); }
    else if h == "co.za" { TwoPart(h, "co", "za"); }
    else if h == "com.br" { TwoPart(h, "com", "br"); }
    else if h == "co.in" { TwoPart(h, "co", "in"); }
    else { TwoPart(h, "com", "mx"); }
  }

  function Last(s: string): char { if s == "" then ' ' else s[|s| - 1] }

  lemma CompoundEnds(h: string)
    requires h in COMPOUND_TLDS
    ensures Last(h) != 'm' && Last(h) != 'e' && Last(h) != 'g'
  {
  }

  lemma PlatformEnds(h: string, s: string)
    requires s in SOCIAL_HOSTS || s in COMMUNITY_HOSTS || s in PLATFORM_CODE_HOSTS
    requires MatchesSuffix(h, s)
    ensures Last(h) == 'm' || Last(h) == 'e' || Last(h) == 'g'
  {
    assert Last(s) == 'm' || Last(s) == 'e' || Last(s) == 'g';
    assert Last(h) == Last(s);
  }

  lemma CompoundNotPlatform(h: string)
    requires h in COMPOUND_TLDS
    ensures !Platform(h)
  {
    hide MatchesSuffix;
    CompoundEnds(h);
    forall s | s in SOCIAL_HOSTS || s in COMMUNITY_HOSTS || s in PLATFORM_CODE_HOSTS
      ensures !MatchesSuffix(h, s)
    {
      if MatchesSuffix(h, s) { PlatformEnds(h, s); assert false; }
    }
  }

  /** A one-letter host under a compound TLD: owned by that TLD as subject, and its own domain. */
  lemma UnderCompound(c: string, h: string, subject: string)
    requires c == "a" || c == "b"
    requires SubjectAuthority(subject).host == h && h in COMPOUND_TLDS
    ensures var u := Url("", c + "." + h, "");
            IsSubjectOwned(u, subject) && RegistrableDomain(HostOf(u)) == c + "." + h
  {
    hide SubjectAuthority, RegistrableDomain, Platform, Tidy, Segments, LooksLikeHost;
    AuthorityHost(subject);
    CompoundNotPlatform(h);
    var w := c + "." + h;
    assert h != "";
    TidyUnder(c, h);
    assert w[0] == c[0];
    assert w[|w| - |h| - 1..] == "." + h;
    UnderDomain(c, h);
  }

  lemma UnderDomain(c: string, h: string)
    requires (c == "a" || c == "b") && h in COMPOUND_TLDS && Tidy(c + "." + h) == c + "." + h
    ensures RegistrableDomain(c + "." + h) == c + "." + h
  {
    hide Labels, Tidy;
    CompoundLabels(h);
    LabelsOfOne(c);
    LabelsConcat(c, h);
    TwoLabels(h);
  }

  lemma LabelsOfOne(c: string)
    requires forall i :: 0 <= i < |c| ==> c[i] != '.'
    ensures Labels(c) == [c]
  {
    SplitNoSep(c, IsDot);
  }

  lemma TidyUnder(c: string, h: string)
    requires (c == "a" || c == "b") && Tidy(h) == h && h != ""
    ensures Tidy(c + "." + h) == c + "." + h
  {
    hide Front, Back;
    var w := c + "." + h;
    LowerTwice(h);
    assert forall i :: 0 <= i < |w| ==> LowerChar(w[i]) == w[i];
    LowerFixed(w);
    TrimEnds(Lower(h), IsDot);
    TrimFixed(w, IsDot);
  }

  /**
   All URLs owned by a subject share one registrable domain exactly when the subject's host is
   not itself a bare compound top-level domain.
  */
  lemma OneRegistrableDomain(subject: string)
    ensures (forall u, v :: IsSubjectOwned(u, subject) && IsSubjectOwned(v, subject) ==>
               RegistrableDomain(HostOf(u)) == RegistrableDomain(HostOf(v)))
            <==> SubjectAuthority(subject).host !in COMPOUND_TLDS
  {
    hide IsSubjectOwned, RegistrableDomain, HostOf, SubjectAuthority;
    var h := SubjectAuthority(subject).host;
    if h in COMPOUND_TLDS {
      UnderCompound("a", h, subject);
      UnderCompound("b", h, subject);
      var u, v := Url("", "a" + "." + h, ""), Url("", "b" + "." + h, "");
      assert ("a" + "." + h)[0] != ("b" + "." + h)[0];
      assert IsSubjectOwned(u, subject) && IsSubjectOwned(v, subject);
      assert RegistrableDomain(HostOf(u)) != RegistrableDomain(HostOf(v));
    } else {
      forall u, v | IsSubjectOwned(u, subject) && IsSubjectOwned(v, subject)
        ensures RegistrableDomain(HostOf(u)) == RegistrableDomain(HostOf(v))
      {
        OwnedDomain(u, subject);
        OwnedDomain(v, subject);
      }
    }
  }

  // A subject that is one

  lemma {:induction false} CutNothing(s: string, stop: char -> bool)
    requires forall i :: 0 <= i < |s| ==> !stop(s[i])
    ensures CutAt(s, stop) == s
  {
    if s != "" {
      CutNothing(s[1..], stop);
      assert s == [s[0]] + s[1..];
    }
  }

  // Subjects on a platform

  predicate PlainChar(c: char) { 'a' <= c <= 'z' || '0' <= c <= '9' || c == '-' }

  /** A user or organisation name as platforms allow them. */
  predicate PlainName(o: string) { o != "" && forall i :: 0 <= i < |o| ==> PlainChar(o[i]) }

  /** A host name in lower case. */
  predicate PlainHostName(h: string) {
    && h != "" && LooksLikeHost(h) && !StartsWith(h, "www.")
    && forall i :: 0 <= i < |h| ==> PlainChar(h[i]) || h[i] == '.'
  }

  /** What reading a subject leaves as it is. */
  predicate Untouched(s: string) {
    && NoSpaces(s)
    && forall i :: 0 <= i < |s| ==> LowerChar(s[i]) == s[i] && s[i] != ':'
  }

  lemma NamePlain(h: string, o: string)
    requires PlainHostName(h) && PlainName(o)
    ensures var s := h + "/" + o;
            && Untouched(s) && s[0] != '/' && s[|s| - 1] != '/' && !StartsWith(s, "www.")
            && forall i :: 0 <= i < |s| ==> !EndsSubject(s[i])
  {
    hide LooksLikeHost;
    var s := h + "/" + o;
    assert s[0] == h[0] && s[|s| - 1] == o[|o| - 1];
    forall i | 0 <= i < |s| ensures !IsSpace(s[i]) && LowerChar(s[i]) == s[i] && s[i] != ':' && !EndsSubject(s[i]) {
      if i > |h| { assert s[i] == o[i - |h| - 1]; }
    }
    assert |h| >= 4 ==> s[..4] == h[..4];
    assert |h| < 4 <= |s| ==> s[..4][|h|] == '/';
  }

  lemma PlatformSegments(h: string, o: string)
    requires PlainHostName(h) && PlainName(o)
    ensures Segments(h + "/" + o) == [h, o]
  {
    hide Split, Filter, LooksLikeHost;
    assert h + ['/'] + o == h + "/" + o;
    SplitAppend(h, '/', o, IsSlash);
    SplitNoSep(o, IsSlash);
    assert [h] + [o] == [h, o];
    FilterAll([h, o], NonEmpty);
  }

  lemma PlainHostKept(h: string)
    requires PlainHostName(h)
    ensures StripWww(Trim(h, IsDot)) == h
  {
    hide Trim, Labels;
    TrimFixed(h, IsDot);
    LowerFixed(h);
  }

  /** Of a host and a name, the name is the owner exactly on the hosts anyone can publish on. */
  lemma PlatformAuthority(h: string, o: string)
    requires PlainHostName(h) && PlainName(o)
    ensures AuthorityOf(Segments(h + "/" + o))
            == Authority(h, if HostMatches(h, PLATFORM_CODE_HOSTS) || HostMatches(h, SOCIAL_HOSTS)
                               || HostMatches(h, COMMUNITY_HOSTS) then o else "")
  {
    hide Segments, StripWww, LooksLikeHost, Trim, HostMatches;
    PlatformSegments(h, o);
    PlainHostKept(h);
    TrimFixed(o, IsDot);
  }

  const SCHEMES: seq<string> := ["", "https://", "http://"]
  const TAILS: seq<string> := ["", "/", "?", "#"]

  /** A scheme, a leading `www.` and what follows the name make no difference. */
  lemma SubjectForms(scheme: string, www: string, h: string, o: string, tail: string)
    requires PlainHostName(h) && PlainName(o) && scheme in SCHEMES && www in ["", "www."] && tail in TAILS
    ensures SubjectAuthority(scheme + www + (h + "/" + o) + tail)
            == Authority(h, if HostMatches(h, PLATFORM_CODE_HOSTS) || HostMatches(h, SOCIAL_HOSTS)
                               || HostMatches(h, COMMUNITY_HOSTS) then o else "")
  {
    hide SubjectText, AuthorityOf, Segments, HostMatches, PlainHostName, PlainName;
    FormText(scheme, www, h, o, tail);
    PlatformAuthority(h, o);
  }

  /** The steps of reading a subject, one by one. */
  lemma SubjectTextBy(subject: string, t: string, u: string, v: string)
    requires Lower(Strip(subject)) == t
    requires u == if StartsWith(t, "https://") then t[8..] else if StartsWith(t, "http://") then t[7..] else t
    requires v == Trim(CutAt(u, EndsSubject), IsSlash)
    ensures SubjectText(subject) == if StartsWith(v, "www.") then v[4..] else v
  {
    hide Lower, Strip, Trim, CutAt;
  }

  lemma FormText(scheme: string, www: string, h: string, o: string, tail: string)
    requires PlainHostName(h) && PlainName(o) && scheme in SCHEMES && www in ["", "www."] && tail in TAILS
    ensures SubjectText(scheme + www + (h + "/" + o) + tail) == h + "/" + o
  {
    hide Trim, CutAt, Strip, Lower, SubjectText, StartsWith, Untouched, PlainHostName, PlainName, EndsSubject;
    var name := h + "/" + o;
    var core, s := www + name, scheme + www + name + tail;
    NamePlain(h, o);
    CoreChars(www, name);
    assert s == scheme + (core + tail);
    FormChars(scheme, core, tail);
    UntouchedKept(scheme, core + tail);
    CutTrimmed(core, tail);
    SubjectTextBy(s, s, core + tail, core);
    DropWww(www, name);
  }

  lemma CoreChars(www: string, name: string)
    requires www in ["", "www."] && Untouched(name) && name != "" && name[0] != '/' && name[|name| - 1] != '/'
    requires forall i :: 0 <= i < |name| ==> !EndsSubject(name[i])
    ensures var core := www + name;
            && Untouched(core) && core != "" && core[0] != '/' && core[|core| - 1] != '/'
            && forall i :: 0 <= i < |core| ==> !EndsSubject(core[i])
  {
    var core := www + name;
    assert core[|core| - 1] == name[|name| - 1] && (www == "" ==> core == name);
    forall i | 0 <= i < |core|
      ensures !IsSpace(core[i]) && LowerChar(core[i]) == core[i] && core[i] != ':' && !EndsSubject(core[i])
    {
      if i >= |www| { assert core[i] == name[i - |www|]; }
    }
  }

  lemma FormChars(scheme: string, core: string, tail: string)
    requires scheme in SCHEMES && tail in TAILS && Untouched(core)
    ensures Untouched(core + tail)
    ensures var s := scheme + (core + tail);
            NoSpaces(s) && forall i :: 0 <= i < |s| ==> LowerChar(s[i]) == s[i]
  {
    var t, s := core + tail, scheme + (core + tail);
    assert forall i :: 0 <= i < |t| ==> t[i] == if i < |core| then core[i] else tail[i - |core|];
    assert forall i :: 0 <= i < |s| ==> s[i] == if i < |scheme| then scheme[i] else t[i - |scheme|];
  }

  /** Lower-casing, stripping and the two scheme tests of a subject leave what follows the scheme. */
  lemma UntouchedKept(scheme: string, rest: string)
    requires scheme in SCHEMES && Untouched(rest)
    requires var s := scheme + rest; NoSpaces(s) && forall i :: 0 <= i < |s| ==> LowerChar(s[i]) == s[i]
    ensures var s := scheme + rest;
            && Lower(Strip(s)) == s
            && rest == if StartsWith(s, "https://") then s[8..] else if StartsWith(s, "http://") then s[7..] else s
  {
    hide Lower, Strip, LowerChar, IsSpace;
    var s := scheme + rest;
    StripNoSpaces(s);
    LowerFixed(s);
    NoScheme(scheme, rest);
  }

  lemma NoScheme(scheme: string, rest: string)
    requires scheme in SCHEMES && forall i :: 0 <= i < |rest| ==> rest[i] != ':'
    ensures var t := scheme + rest;
            (if StartsWith(t, "https://") then t[8..] else if StartsWith(t, "http://") then t[7..] else t) == rest
  {
    var t := scheme + rest;
    assert t[..|scheme|] == scheme && t[|scheme|..] == rest;
    if scheme == "" {
      assert t == rest;
      if |t| >= 8 { assert t[..8][5] != ':'; }
      if |t| >= 7 { assert t[..7][4] != ':'; }
    } else if scheme == "http://" && |t| >= 8 {
      assert t[..8][4] == ':';
    }
  }

  lemma CutTrimmed(core: string, tail: string)
    requires tail in TAILS && core != "" && core[0] != '/' && core[|core| - 1] != '/'
    requires forall i :: 0 <= i < |core| ==> !EndsSubject(core[i])
    ensures Trim(CutAt(core + tail, EndsSubject), IsSlash) == core
  {
    hide Trim, CutAt;
    CutTail(core, tail);
    if tail == "/" {
      TrimSlash(core);
    } else {
      assert core + "" == core;
      TrimFixed(core, IsSlash);
    }
  }

  lemma {:induction false} CutTail(core: string, tail: string)
    requires tail in TAILS && forall i :: 0 <= i < |core| ==> !EndsSubject(core[i])
    ensures CutAt(core + tail, EndsSubject) == core + if tail == "/" then "/" else ""
  {
    if core == "" {
      assert core + tail == tail;
    } else {
      assert (core + tail)[1..] == core[1..] + tail;
      CutTail(core[1..], tail);
      assert [core[0]] + core[1..] == core;
    }
  }

  lemma TrimSlash(core: string)
    requires core != "" && !IsSlash(core[0]) && !IsSlash(core[|core| - 1])
    ensures Trim(core + "/", IsSlash) == core
  {
    var s := core + "/";
    assert s[0] == core[0] && s[|s| - 1] == '/' && s[|s| - 2] == core[|core| - 1] && s[..|core|] == core;
    assert Front(s, 0, IsSlash) == 0;
    assert Back(s, 0, |s|, IsSlash) == Back(s, 0, |core|, IsSlash) == |core|;
    assert s[0..|core|] == core;
  }

  lemma DropWww(www: string, name: string)
    requires www in ["", "www."] && !StartsWith(name, "www.")
    ensures var v := www + name;
            (if StartsWith(v, "www.") then v[4..] else v) == name
  {
    var v := www + name;
    assert v[..|www|] == www && v[|www|..] == name;
    if www == "" { assert v == name; }
  }

  /** On a platform a subject owns exactly the pages under its own name: so two names share none. */
  lemma PlatformOwned(u: Url, h: string, o: string)
    requires PlainHostName(h) && PlainName(o)
    requires HostMatches(h, PLATFORM_CODE_HOSTS) || HostMatches(h, SOCIAL_HOSTS) || HostMatches(h, COMMUNITY_HOSTS)
    ensures IsSubjectOwned(u, h + "/" + o) <==>
            && (StripWww(HostOf(u)) == h || EndsWith(StripWww(HostOf(u)), "." + h))
            && Segments(Lower(u.path)) != [] && Segments(Lower(u.path))[0] == o
    ensures forall p :: PlainName(p) && p != o ==>
              !(IsSubjectOwned(u, h + "/" + o) && IsSubjectOwned(u, h + "/" + p))
  {
    hide SubjectAuthority, Segments, StripWww, HostOf, HostMatches, PlainHostName, PlainName, Lower, EndsWith;
    forall p | PlainName(p) && p != o
      ensures !(IsSubjectOwned(u, h + "/" + o) && IsSubjectOwned(u, h + "/" + p))
    {
      BareForm(h, p);
      BareForm(h, o);
    }
    BareForm(h, o);
    NotBlank(u, h, o);
  }

  lemma BareForm(h: string, o: string)
    requires PlainHostName(h) && PlainName(o)
    requires HostMatches(h, PLATFORM_CODE_HOSTS) || HostMatches(h, SOCIAL_HOSTS) || HostMatches(h, COMMUNITY_HOSTS)
    ensures SubjectAuthority(h + "/" + o) == Authority(h, o) && h != "" && o != ""
  {
    hide SubjectAuthority, HostMatches, LooksLikeHost;
    var name := h + "/" + o;
    assert "" + "" + name + "" == name;
    SubjectForms("", "", h, o, "");
  }

  lemma NotBlank(u: Url, h: string, o: string)
    requires h != ""
    ensures (StripWww(HostOf(u)) == h || EndsWith(StripWww(HostOf(u)), "." + h)) ==> StripWww(HostOf(u)) != ""
  {
    hide StripWww, HostOf;
  }

  lemma PlainSubject()
    ensures SubjectText("co.uk") == "co.uk"
  {
    hide Trim, CutAt, Strip, Lower;
    StripNoSpaces("co.uk");
    LowerFixed("co.uk");
    CutNothing("co.uk", EndsSubject);
    TrimFixed("co.uk", IsSlash);
  }

  lemma PlainSegments()
    ensures Segments("co.uk") == ["co.uk"]
  {
    hide Split, Filter;
    SplitNoSep("co.uk", IsSlash);
    FilterAll(["co.uk"], NonEmpty);
  }

  lemma PlainHost()
    ensures StripWww(Trim("co.uk", IsDot)) == "co.uk" && LooksLikeHost("co.uk")
  {
    hide Trim, Labels;
    TrimFixed("co.uk", IsDot);
    LowerFixed("co.uk");
    TwoPart("co.uk", "co", "uk");
  }

  /** There are such subjects: `co.uk`, whose URLs do not share one registrable domain. */
  lemma BareCompoundSubject()
    ensures SubjectAuthority("co.uk") == Authority("co.uk", "") && "co.uk" in COMPOUND_TLDS
    ensures var u, v := Url("", "a.co.uk", ""), Url("", "b.co.uk", "");
            && IsSubjectOwned(u, "co.uk") && IsSubjectOwned(v, "co.uk")
            && RegistrableDomain(HostOf(u)) == "a.co.uk" && RegistrableDomain(HostOf(v)) == "b.co.uk"
  {
    hide SubjectAuthority, IsSubjectOwned, RegistrableDomain, HostOf;
    CompoundAuthority();
    OneLetterUnder("a");
    OneLetterUnder("b");
    assert "a" + ".co.uk" == "a.co.uk" && "b" + ".co.uk" == "b.co.uk";
  }

  lemma CompoundAuthority()
    ensures SubjectAuthority("co.uk") == Authority("co.uk", "")
  {
    hide SubjectText, Segments, StripWww, LooksLikeHost, Trim, Platform;
    PlainSubject();
    PlainSegments();
    PlainHost();
  }

  lemma OneLetterUnder(c: string)
    requires c == "a" || c == "b"
    ensures var u := Url("", c + ".co.uk", "");
            IsSubjectOwned(u, "co.uk") && RegistrableDomain(HostOf(u)) == c + ".co.uk"
  {
    hide SubjectAuthority, IsSubjectOwned, RegistrableDomain, HostOf;
    CompoundAuthority();
    UnderCompound(c, "co.uk", "co.uk");
    assert c + "." + "co.uk" == c + ".co.uk";
  }
}
