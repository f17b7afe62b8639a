/** The evidence manifest of a verdict, and the JSON text the resolver sends it as. */
module Manifests {
  import opened Text
  import opened Seqs
  import opened Hosts
  import opened SourceClasses
  import opened Evidence

  const MAX_URL_LEN := 2048

  /** One source as the manifest lists it; `excerpt` is what its evidence hash is taken of. */
  datatype Entry = Entry(url: string, group: string, cls: SourceClass, status: FetchStatus,
                         primary: bool, independent: bool, eligible: bool, origin: Origin,
                         excerpt: Option<string>)

  /** The hexadecimal digest of a text. */
  type Hex = string -> string

  function EntryOf(r: Source): Entry {
    Entry(r.url.text, r.group, r.cls, r.status, r.primary, r.independent, r.eligible, r.origin, r.excerpt)
  }

  function ManifestOf(sources: seq<Source>): seq<Entry> {
    seq(|sources|, i requires 0 <= i < |sources| => EntryOf(sources[i]))
  }

  // JSON text: sorted keys, no blanks, everything outside printable ASCII escaped

  function HexDigit(n: nat): char
    requires n < 16
  {
    if n < 10 then ('0' as int + n) as char else ('a' as int + n - 10) as char
  }

  function UnicodeEscape(n: nat): (s: string)
    requires n < 0x10000
    ensures |s| == 6
  {
    ['\\', 'u', HexDigit(n / 4096), HexDigit(n / 256 % 16), HexDigit(n / 16 % 16), HexDigit(n % 16)]
  }

  function EscapeChar(c: char): (s: string)
    ensures |s| >= 1
  {
    if c == '\"' then "\\\""
    else if c == '\\' then "\\\\"
    else if c == '\n' then "\\n"
    else if c == '\r' then "\\r"
    else if c == '\t' then "\\t"
    else if c as int == 8 then "\\b"
    else if c as int == 12 then "\\f"
    else if ' ' <= c <= '~' then [c]
    else
      var n := c as int;
      if n < 0x10000 then UnicodeEscape(n)
      else UnicodeEscape(0xD800 + (n - 0x10000) / 0x400 % 0x400) + UnicodeEscape(0xDC00 + (n - 0x10000) % 0x400)
  }

  function Escape(s: string): (t: string)
    ensures |t| >= |s|
  {
    if s == "" then "" else EscapeChar(s[0]) + Escape(s[1..])
  }

  function Quote(s: string): (t: string)
    ensures |t| >= |s|
  {
    "\"" + Escape(s) + "\""
  }

  function BoolText(b: bool): string { if b then "true" else "false" }

  function StatusText(s: FetchStatus): string {
    match s
    case Usable => "USABLE"
    case Unavailable => "UNAVAILABLE"
    case BadFetch => "INVALID"
    case Duplicate => "DUPLICATE"
    case DerivedStatus => "DERIVED"
  }

  function OriginText(o: Origin): string { if o.SeedOrigin? then "seed" else "supplemental" }

  function EntryText(e: Entry, hex: Hex): (t: string)
    ensures |t| >= |e.url|
  {
    "{\"category\":\"web\",\"evidence_hash\":" + Quote(if e.excerpt.Some? then hex(e.excerpt.value) else "")
    + ",\"fetch_status\":" + Quote(StatusText(e.status))
    + ",\"is_independent\":" + BoolText(e.independent)
    + ",\"is_primary\":" + BoolText(e.primary)
    + ",\"policy_eligible\":" + BoolText(e.eligible)
    + ",\"provenance_group\":" + Quote(e.group)
    + ",\"relevant_timestamp\":\"\",\"source_class\":" + Quote(Name(e.cls))
    + ",\"source_origin\":" + Quote(OriginText(e.origin))
    + ",\"url\":" + Quote(e.url) + "}"
  }

  function EntryTexts(es: seq<Entry>, hex: Hex): seq<string> {
    seq(|es|, i requires 0 <= i < |es| => EntryText(es[i], hex))
  }

  function ManifestText(es: seq<Entry>, hex: Hex): string { "[" + Join(EntryTexts(es, hex), ",") + "]" }

  /** There is nothing to strip from it. */
  lemma ManifestStripped(es: seq<Entry>, hex: Hex)
    ensures Strip(ManifestText(es, hex)) == ManifestText(es, hex)
  {
    hide Join, EntryTexts, Trim;
    var t := ManifestText(es, hex);
    assert t[0] == '[' && t[|t| - 1] == ']';
    TrimFixed(t, IsSpace);
  }

  lemma {:induction false} JoinLength(parts: seq<string>, least: nat)
    requires forall i :: 0 <= i < |parts| ==> |parts[i]| >= least
    ensures |Join(parts, ",")| >= |parts| * least
  {
    if |parts| > 1 {
      JoinLength(parts[1..], least);
      assert |parts| * least == (|parts| - 1) * least + least;
    }
  }

  /** A manifest is at least as long as the URLs it lists. */
  lemma ManifestLength(es: seq<Entry>, least: nat, hex: Hex)
    requires forall i :: 0 <= i < |es| ==> |es[i].url| >= least
    ensures |ManifestText(es, hex)| >= |es| * least
  {
    hide EntryText;
    JoinLength(EntryTexts(es, hex), least);
  }

  // Twelve URLs of the greatest length the registry accepts

  function Letter(i: nat): char
    requires i < 12
  {
    ('a' as int + i) as char
  }

  function HostName(i: nat): string
    requires i < 12
  {
    [Letter(i)] + ".example"
  }

  function LongPath(): string { "/" + seq(MAX_URL_LEN - 18, i => 'x') }

  function LongUrl(i: nat): (u: Url)
    requires i < 12
    ensures |u.text| == MAX_URL_LEN
  {
    Url("https://" + HostName(i) + LongPath(), HostName(i), LongPath())
  }

  function LongUrls(first: nat, n: nat): (us: seq<Url>)
    requires first + n <= 12
    ensures |us| == n
  {
    seq(n, i requires 0 <= i < n => LongUrl(first + i))
  }

  lemma LongHost(i: nat)
    requires i < 12
    ensures HostOf(LongUrl(i)) == HostName(i)
  {
    hide Trim, LongPath;
    var h := HostName(i);
    assert forall k :: 0 <= k < |h| ==> LowerChar(h[k]) == h[k];
    LowerFixed(h);
    TrimFixed(h, IsDot);
  }

  /** Their canonical keys differ. */
  lemma LongKey(i: nat)
    requires i < 12
    ensures |CanonicalUrl(LongUrl(i))| > 8 && CanonicalUrl(LongUrl(i))[8] == Letter(i)
  {
    hide HostOf, LongPath;
    LongHost(i);
  }

  lemma LongDistinct(first: nat, n: nat)
    requires first + n <= 12
    ensures KeyDistinct(LongUrls(first, n), CanonicalUrl)
  {
    hide CanonicalUrl, LongUrl;
    var us := LongUrls(first, n);
    forall i, j | 0 <= i < j < n ensures CanonicalUrl(us[i]) != CanonicalUrl(us[j]) {
      LongKey(first + i);
      LongKey(first + j);
    }
  }

  lemma LongAvoids()
    ensures Avoids(LongUrls(0, 6), CanonicalUrl, Keys(LongUrls(6, 6), CanonicalUrl))
  {
    hide CanonicalUrl, LongUrl;
    var a, b := LongUrls(0, 6), LongUrls(6, 6);
    forall i | 0 <= i < 6 ensures CanonicalUrl(a[i]) !in Keys(b, CanonicalUrl) {
      LongKey(i);
      forall j | 0 <= j < 6 ensures CanonicalUrl(b[j]) != CanonicalUrl(a[i]) { LongKey(6 + j); }
    }
  }

  /** Merging them keeps all twelve. */
  lemma LongMerged()
    ensures var cs := Merged(LongUrls(0, 6), LongUrls(6, 6));
            |cs| == 12 && forall i :: 0 <= i < 12 ==> |cs[i].url.text| == MAX_URL_LEN
  {
    hide CanonicalUrl, LongUrl, DistinctBy;
    var a, b := LongUrls(0, 6), LongUrls(6, 6);
    LongDistinct(0, 6);
    LongDistinct(6, 6);
    LongAvoids();
    DistinctByKeeps(b, CanonicalUrl, {});
    DistinctByKeeps(a, CanonicalUrl, Keys(b, CanonicalUrl));
    var cs := Merged(a, b);
    forall i | 0 <= i < 12 ensures |cs[i].url.text| == MAX_URL_LEN {
      assert cs[i].url == if i < 6 then LongUrl(6 + i) else LongUrl(i - 6);
    }
  }
}
