/**
 Evidence source classes and the two parsers of a policy's class lists: the strict one the
 policy registry publishes through and the lenient one the resolver reads back with.
 `json` stands for the JSON decoder: Some(items) exactly when the text is a JSON list.
*/
module SourceClasses {
  import opened Text

  datatype SourceClass =
    | Official | Primary | IndependentSecondary | Derived
    | Community | Social | Unknown | Invalid

  datatype ParseError = InvalidPolicyClass | DuplicatePolicyClass | ContradictoryPolicyClass
  datatype Parsed = Classes(list: seq<SourceClass>) | Rejected(error: ParseError)

  type Json = string -> Option<seq<string>>

  function Name(c: SourceClass): string {
    match c
    case Official => "OFFICIAL"
    case Primary => "PRIMARY"
    case IndependentSecondary => "INDEPENDENT_SECONDARY"
    case Derived => "DERIVED"
    case Community => "COMMUNITY"
    case Social => "SOCIAL"
    case Unknown => "UNKNOWN"
    case Invalid => "INVALID"
  }

  function ByName(s: string): Option<SourceClass> {
    if s == "OFFICIAL" then Some(Official)
    else if s == "PRIMARY" then Some(Primary)
    else if s == "INDEPENDENT_SECONDARY" then Some(IndependentSecondary)
    else if s == "DERIVED" then Some(Derived)
    else if s == "COMMUNITY" then Some(Community)
    else if s == "SOCIAL" then Some(Social)
    else if s == "UNKNOWN" then Some(Unknown)
    else if s == "INVALID" then Some(Invalid)
    else None
  }

  function Alias(s: string): Option<SourceClass> {
    if s == "official" then Some(Official)
    else if s == "primary" || s == "docs" || s == "documentation" then Some(Primary)
    else if s == "independent" || s == "independent_secondary" || s == "secondary"
      then Some(IndependentSecondary)
    else if s == "derived" || s == "mirror" then Some(Derived)
    else if s == "community" then Some(Community)
    else if s == "social" then Some(Social)
    else if s == "unverified" || s == "unknown" then Some(Unknown)
    else if s == "invalid" then Some(Invalid)
    else None
  }

  function ClassOf(token: string): Option<SourceClass> { ClassOfNorm(Norm(token)) }

  function ClassOfNorm(n: string): Option<SourceClass> {
    match Alias(n)
    case Some(c) => Some(c)
    case None => ByName(Replace(Upper(n), ' ', '_'))
  }

  function CommaTokens(text: string): seq<string> {
    Filter(Split(Replace(text, ';', ','), x => x == ','), (p: string) => Strip(p) != "")
  }

  function Names(cs: seq<SourceClass>): (ns: seq<string>)
    ensures |ns| == |cs|
  {
    seq(|cs|, i requires 0 <= i < |cs| => Name(cs[i]))
  }

  function ListText(cs: seq<SourceClass>): string { Join(Names(cs), ",") }

  predicate Distinct<T(==)>(xs: seq<T>) {
    forall i, j :: 0 <= i < j < |xs| ==> xs[i] != xs[j]
  }

  /** The class each token names, if it names one. */
  function Read(tokens: seq<string>): (rs: seq<Option<SourceClass>>)
    ensures |rs| == |tokens|
  {
    seq(|tokens|, i requires 0 <= i < |tokens| => ClassOf(tokens[i]))
  }

  function Known(cs: seq<SourceClass>): (rs: seq<Option<SourceClass>>)
    ensures |rs| == |cs|
  {
    seq(|cs|, i requires 0 <= i < |cs| => Some(cs[i]))
  }

  // Strict parser

  function StrictFrom(read: seq<Option<SourceClass>>, out: seq<SourceClass>): Parsed {
    if |read| == 0 then Classes(out)
    else match read[0]
      case None => Rejected(InvalidPolicyClass)
      case Some(c) =>
        if c in out then Rejected(DuplicatePolicyClass) else StrictFrom(read[1..], out + [c])
  }

  function StrictTokens(text: string, json: Json): Option<seq<string>> {
    if StartsWith(text, "[") then json(text) else Some(CommaTokens(text))
  }

  function StrictParse(raw: string, json: Json): Parsed {
    var text := Strip(raw);
    if text == "" || text == "[]" then Classes([])
    else match StrictTokens(text, json)
      case None => Rejected(InvalidPolicyClass)
      case Some(tokens) =>
        if |tokens| == 0 then Rejected(InvalidPolicyClass) else StrictFrom(Read(tokens), [])
  }

  /** The strict parser, with its `seen` table. */
  method ParseSourceClasses(raw: string, json: Json) returns (r: Parsed)
    ensures r == StrictParse(raw, json)
  {
    var text := Strip(raw);
    if text == "" || text == "[]" { return Classes([]); }
    var split := StrictTokens(text, json);
    if split.None? || |split.value| == 0 { return Rejected(InvalidPolicyClass); }
    r := CollectStrict(Read(split.value));
  }

  method CollectStrict(read: seq<Option<SourceClass>>) returns (r: Parsed)
    ensures r == StrictFrom(read, [])
  {
    var out: seq<SourceClass> := [];
    var seen: set<SourceClass> := {};
    for i := 0 to |read|
      invariant forall c :: c in seen <==> c in out
      invariant StrictFrom(read, []) == StrictFrom(read[i..], out)
    {
      assert read[i..][1..] == read[i + 1..];
      if read[i].None? { return Rejected(InvalidPolicyClass); }
      if read[i].value in seen { return Rejected(DuplicatePolicyClass); }
      seen := seen + {read[i].value};
      out := out + [read[i].value];
    }
    r := Classes(out);
  }

  // Lenient parser

  function LenientFrom(read: seq<Option<SourceClass>>, out: seq<SourceClass>): (r: seq<SourceClass>)
    requires Distinct(out)
    ensures Distinct(r)
  {
    if |read| == 0 then out
    else match read[0]
      case None => LenientFrom(read[1..], out)
      case Some(c) => LenientFrom(read[1..], if c in out then out else out + [c])
  }

  function LenientTokens(raw: string, json: Json): seq<string> {
    var text := Strip(raw);
    var items := if StartsWith(text, "[") && json(text).Some? then json(text).value else [];
    if text == "" then []
    else if |items| == 0 then CommaTokens(text)
    else items
  }

  function LenientParse(raw: string, json: Json): seq<SourceClass> {
    LenientFrom(Read(LenientTokens(raw, json)), [])
  }

  method ParseClassList(raw: string, json: Json) returns (out: seq<SourceClass>)
    ensures out == LenientParse(raw, json)
  {
    out := CollectLenient(Read(LenientTokens(raw, json)));
  }

  method CollectLenient(read: seq<Option<SourceClass>>) returns (out: seq<SourceClass>)
    ensures out == LenientFrom(read, [])
  {
    out := [];
    var seen: set<SourceClass> := {};
    for i := 0 to |read|
      invariant forall c :: c in seen <==> c in out
      invariant Distinct(out)
      invariant LenientFrom(read, []) == LenientFrom(read[i..], out)
    {
      assert read[i..][1..] == read[i + 1..];
      if read[i].None? { continue; }
      if read[i].value in seen { continue; }
      seen := seen + {read[i].value};
      out := out + [read[i].value];
    }
  }

  // What is accepted, and the round trip of the canonical text

  lemma {:induction false} StrictSound(read: seq<Option<SourceClass>>, out: seq<SourceClass>)
    requires Distinct(out) && StrictFrom(read, out).Classes?
    ensures var r := StrictFrom(read, out).list;
            out <= r && Distinct(r) && read == Known(r[|out|..])
  {
    if |read| > 0 {
      var next := out + [read[0].value];
      StrictSound(read[1..], next);
      var r := StrictFrom(read, out).list;
      assert r[|out|] == next[|out|];
      assert r[|out|..] == [r[|out|]] + r[|next|..];
      assert read == [read[0]] + read[1..];
      assert read == Known(r[|out|..]);
    }
  }

  /** The lenient parser keeps each known class once, where it is first named, and nothing else. */
  lemma {:induction false} LenientKeeps(read: seq<Option<SourceClass>>, x: Option<SourceClass>, out: seq<SourceClass>)
    requires Distinct(out)
    ensures LenientFrom(read + [x], out)
            == LenientFrom(read, out)
               + if x.Some? && x.value !in LenientFrom(read, out) then [x.value] else []
    ensures forall c :: c in LenientFrom(read, out) <==> c in out || Some(c) in read
  {
    if |read| == 0 {
      assert (read + [x])[1..] == [];
    } else {
      assert (read + [x])[1..] == read[1..] + [x];
      LenientKeeps(read[1..], x, if read[0].None? || read[0].value in out then out else out + [read[0].value]);
    }
  }

  /** The strict parser reads the empty list from blank text or an empty JSON list, and from nothing else. */
  lemma EmptyOnlyBlank(raw: string, json: Json)
    ensures StrictParse(raw, json) == Classes([]) <==> Strip(raw) == "" || Strip(raw) == "[]"
  {
    hide Strip, CommaTokens, Read, ClassOf;
    var text := Strip(raw);
    var tokens := StrictTokens(text, json);
    if tokens.Some? && StrictFrom(Read(tokens.value), []) == Classes([]) {
      StrictSound(Read(tokens.value), []);
    }
  }

  /** A token that is no alias names a class exactly when it spells its name, with blanks for underscores. */
  lemma ClassNamed(token: string, c: SourceClass)
    requires Alias(Norm(token)).None?
    ensures ClassOf(token) == Some(c) <==> Replace(Upper(Norm(token)), ' ', '_') == Name(c)
  {
    hide Norm, Replace, Upper, Alias;
  }

  /** Semicolons separate as commas do. */
  lemma SemicolonsSeparate(text: string)
    ensures CommaTokens(Replace(text, ';', ',')) == CommaTokens(text)
  {
    assert Replace(Replace(text, ';', ','), ';', ',') == Replace(text, ';', ',');
  }

  /** A duplicate-free reading is accepted whole, by both parsers. */
  lemma {:induction false} Complete(cs: seq<SourceClass>, out: seq<SourceClass>)
    requires Distinct(out) && Distinct(out + cs)
    ensures StrictFrom(Known(cs), out) == Classes(out + cs)
    ensures LenientFrom(Known(cs), out) == out + cs
  {
    if |cs| > 0 {
      var next := out + [cs[0]];
      assert next + cs[1..] == out + cs;
      assert forall i :: 0 <= i < |next| ==> next[i] == (out + cs)[i];
      assert cs[0] !in out by {
        forall i | 0 <= i < |out| ensures out[i] != cs[0] {
          assert (out + cs)[i] == out[i] && (out + cs)[|out|] == cs[0];
        }
      }
      assert Known(cs)[1..] == Known(cs[1..]);
      Complete(cs[1..], next);
    } else {
      assert out + cs == out;
    }
  }

  /** The strict parser accepts exactly the lists of known classes, each named once. */
  lemma StrictAccepts(read: seq<Option<SourceClass>>, cs: seq<SourceClass>)
    ensures StrictFrom(read, []) == Classes(cs) <==> read == Known(cs) && Distinct(cs)
  {
    if StrictFrom(read, []) == Classes(cs) {
      StrictSound(read, []);
      assert cs[0..] == cs;
    }
    if read == Known(cs) && Distinct(cs) {
      assert [] + cs == cs;
      Complete(cs, []);
    }
  }

  function LowerName(c: SourceClass): (t: string)
    ensures Alias(t) == Some(c) && |t| == |Name(c)|
  {
    match c
    case Official => "official"
    case Primary => "primary"
    case IndependentSecondary => "independent_secondary"
    case Derived => "derived"
    case Community => "community"
    case Social => "social"
    case Unknown => "unknown"
    case Invalid => "invalid"
  }

  lemma LowerOfName(c: SourceClass)
    ensures Lower(Name(c)) == LowerName(c)
  {
    hide Lower;
    match c
    case Official => LowerWord("OFFICIAL", "official");
    case Primary => LowerWord("PRIMARY", "primary");
    case IndependentSecondary => LowerIndependent();
    case Derived => LowerWord("DERIVED", "derived");
    case Community => LowerWord("COMMUNITY", "community");
    case Social => LowerWord("SOCIAL", "social");
    case Unknown => LowerWord("UNKNOWN", "unknown");
    case Invalid => LowerWord("INVALID", "invalid");
  }

  lemma LowerIndependent()
    ensures Lower("INDEPENDENT_SECONDARY") == "independent_secondary"
  {
    hide Lower;
    LowerWord("INDEPENDENT_", "independent_");
    LowerWord("SECONDARY", "secondary");
    LowerAppend("INDEPENDENT_", "SECONDARY");
    assert "INDEPENDENT_" + "SECONDARY" == "INDEPENDENT_SECONDARY";
    assert "independent_" + "secondary" == "independent_secondary";
  }

  lemma LowerAppend(s: string, t: string)
    ensures Lower(s + t) == Lower(s) + Lower(t)
  {
  }

  lemma LowerWord(upper: string, lower: string)
    requires |upper| == |lower|
    requires forall i :: 0 <= i < |upper| ==> LowerChar(upper[i]) == lower[i]
    ensures Lower(upper) == lower
  {
  }

  lemma NormName(c: SourceClass)
    ensures Norm(Name(c)) == LowerName(c)
  {
    NamePlain(c);
    NormWord(Name(c));
    LowerOfName(c);
  }

  lemma ClassOfName(c: SourceClass)
    ensures ClassOf(Name(c)) == Some(c)
  {
    NormName(c);
  }

  predicate NameChar(c: char) { 'A' <= c <= 'Z' || c == '_' }

  lemma NameChars(c: SourceClass)
    ensures Name(c) != "" && forall i :: 0 <= i < |Name(c)| ==> NameChar(Name(c)[i])
  {
  }

  lemma NamePlain(c: SourceClass)
    ensures Name(c) != "" && NoSpaces(Name(c)) && Name(c)[0] != '['
    ensures forall i :: 0 <= i < |Name(c)| ==> Name(c)[i] != ',' && Name(c)[i] != ';'
  {
    hide Name;
    NameChars(c);
  }

  lemma {:induction false} JoinPlain(cs: seq<SourceClass>)
    requires |cs| > 0
    ensures var t := ListText(cs);
            && t != "" && NoSpaces(t) && t[0] == Name(cs[0])[0]
            && forall i :: 0 <= i < |t| ==> t[i] != ';'
  {
    NamePlain(cs[0]);
    if |cs| > 1 {
      JoinPlain(cs[1..]);
      assert Names(cs)[1..] == Names(cs[1..]);
    }
  }

  lemma NamesPlain(cs: seq<SourceClass>, p: string)
    requires p in Names(cs)
    ensures p != "" && Strip(p) == p
    ensures forall i :: 0 <= i < |p| ==> p[i] != ','
  {
    var k :| 0 <= k < |cs| && Names(cs)[k] == p;
    NamePlain(cs[k]);
    StripNoSpaces(p);
  }

  lemma KnownNames(cs: seq<SourceClass>)
    ensures Read(Names(cs)) == Known(cs)
  {
    forall i | 0 <= i < |cs| ensures Read(Names(cs))[i] == Known(cs)[i] { ClassOfName(cs[i]); }
  }

  /** The canonical text splits back into the class names it was joined from. */
  lemma ListTextTokens(cs: seq<SourceClass>)
    requires |cs| > 0
    ensures CommaTokens(ListText(cs)) == Names(cs)
  {
    var t, ns := ListText(cs), Names(cs);
    assert Replace(t, ';', ',') == t by { JoinPlain(cs); }
    assert Split(t, x => x == ',') == ns by {
      forall p, i | p in ns && 0 <= i < |p| ensures p[i] != ',' { NamesPlain(cs, p); }
      SplitJoin(ns, ',');
    }
    var keep := (p: string) => Strip(p) != "";
    forall p | p in ns ensures keep(p) { NamesPlain(cs, p); }
    FilterAll(ns, keep);
  }

  lemma CanonicalTokens(cs: seq<SourceClass>, json: Json)
    requires |cs| > 0
    ensures var t := ListText(cs);
            && Strip(t) == t && t != "" && t != "[]"
            && StrictTokens(t, json) == Some(Names(cs))
            && LenientTokens(t, json) == Names(cs)
  {
    hide Strip, NoSpaces, ListText, CommaTokens;
    JoinPlain(cs);
    NamePlain(cs[0]);
    StripNoSpaces(ListText(cs));
    ListTextTokens(cs);
  }

  /**
   Both parsers read the canonical text of a duplicate-free list back as that list, whatever
   the JSON decoder does.
  */
  lemma CanonicalRoundTrip(cs: seq<SourceClass>, json: Json)
    requires Distinct(cs)
    ensures StrictParse(ListText(cs), json) == Classes(cs)
    ensures LenientParse(ListText(cs), json) == cs
  {
    if |cs| > 0 {
      CanonicalTokens(cs, json);
      KnownNames(cs);
      assert [] + cs == cs;
      Complete(cs, []);
    }
  }

  /** What the strict parser accepts has no duplicate. */
  lemma StrictParseDistinct(raw: string, json: Json)
    ensures StrictParse(raw, json).Classes? ==> Distinct(StrictParse(raw, json).list)
  {
    hide Strip, CommaTokens, Read, ClassOf;
    var text := Strip(raw);
    var tokens := StrictTokens(text, json);
    if tokens.Some? && StrictFrom(Read(tokens.value), []).Classes? {
      StrictSound(Read(tokens.value), []);
    }
  }

  lemma StrictParseStrip(raw: string, json: Json)
    ensures StrictParse(Strip(raw), json) == StrictParse(raw, json)
  {
    StripIdempotent(raw);
  }
}
