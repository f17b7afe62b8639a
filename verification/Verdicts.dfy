/**
 From an adjudicator's reply to a verdict the registry accepts: the leader's normalisation and
 the validator's comparison.
*/
module Verdicts {
  import opened Text
  import opened Seqs
  import opened Hosts
  import opened SourceClasses
  import opened Digests
  import opened Evidence
  import opened SourcePolicies
  import opened EvidenceTheorems
  import opened Manifests
  import opened PrimarySources
  import opened Common
  import R = Registry

  const MAX_SUMMARY := 1024

  /** What the adjudicator answered; a missing field takes the source's default. */
  datatype Reply = Reply(outcome: Option<string>, diagnostic: Option<string>, claimsSatisfied: bool,
                         summary: Option<string>)

  datatype Verdict = Verdict(outcome: R.Outcome, diagnostic: R.Diagnostic, satisfied: bool,
                             summary: string, manifest: seq<Entry>)

  function GetOr(field: Option<string>, default: string): string {
    if field.Some? then field.value else default
  }

  function ClaimedOutcome(raw: Reply): Option<R.Outcome> {
    R.ParseOutcome(GetOr(raw.outcome, "UNRESOLVED"))
  }

  function ClaimedDiagnostic(raw: Reply): Option<R.Diagnostic> {
    R.ParseDiagnostic(GetOr(raw.diagnostic, "INTERNAL_RESOLUTION_ERROR"))
  }

  function Summary(raw: Reply): (s: string)
    ensures |s| <= MAX_SUMMARY
  {
    var s := Strip(GetOr(raw.summary, ""));
    if |s| > MAX_SUMMARY then s[..MAX_SUMMARY] else s
  }

  /** The verdict on the evaluated sources, given what the adjudicator claims. */
  function Normalize(raw: Reply, sources: seq<Source>, rules: Rules): Verdict {
    var out0, diag0 := ClaimedOutcome(raw), ClaimedDiagnostic(raw);
    var out1 := if out0.None? then R.Unresolved else out0.value;
    var diag1 := if out0.None? || diag0.None? then R.InternalResolutionError else diag0.value;
    var st := Evaluate(sources, rules);
    var (out2, diag2, ok2) :=
      if st.usable == 0 then (R.Unresolved, R.SourceUnavailable, false)
      else if st.eligibleUsable == 0 || !st.ok then
        if R.Boolean(out1) then (R.Unresolved, R.SourcePolicyUnsatisfied, false) else (out1, diag1, false)
      else (out1, diag1, st.ok);
    Verdict(out2, if R.Boolean(out2) then R.NoDiagnostic else diag2, ok2 || R.Boolean(out2),
            Summary(raw), ManifestOf(sources))
  }

  /** The same, as the contract computes it: by overwriting the claim step by step. */
  method NormalizeLeaderResult(raw: Reply, sources: seq<Source>, rules: Rules) returns (v: Verdict)
    ensures v == Normalize(raw, sources, rules)
  {
    hide Evaluate, Strip, R.ParseOutcome, R.ParseDiagnostic;
    var claimed, reason := ClaimedOutcome(raw), ClaimedDiagnostic(raw);
    var outcome, diag := R.Unresolved, R.InternalResolutionError;
    if claimed.Some? {
      outcome := claimed.value;
      if reason.Some? { diag := reason.value; }
    }
    var stats := PolicyEval(sources, rules);
    var ok := stats.ok;
    if stats.usable == 0 {
      outcome, diag, ok := R.Unresolved, R.SourceUnavailable, false;
    } else if stats.eligibleUsable == 0 || !ok {
      if R.Boolean(outcome) { outcome, diag := R.Unresolved, R.SourcePolicyUnsatisfied; }
      ok := false;
    }
    if R.Boolean(outcome) { diag, ok := R.NoDiagnostic, true; }
    var manifest: seq<Entry> := [];
    for i := 0 to |sources|
      invariant manifest == ManifestOf(sources)[..i]
    {
      manifest := manifest + [EntryOf(sources[i])];
    }
    v := Verdict(outcome, diag, ok, Summary(raw), manifest);
  }

  /**
   Whatever the leader claims: the verdict is flagged as satisfying the policy exactly when the
   sources do; it is boolean exactly when, moreover, the claim parses as a boolean, and then it
   is that boolean with no diagnostic; with no usable source it says so.
  */
  lemma VerdictSound(raw: Reply, sources: seq<Source>, rules: Rules)
    ensures var v, ok := Normalize(raw, sources, rules), Evaluate(sources, rules).ok;
            && (v.satisfied <==> ok)
            && (R.Boolean(v.outcome) <==> ok && ClaimedOutcome(raw).Some? && R.Boolean(ClaimedOutcome(raw).value))
            && (R.Boolean(v.outcome) ==> ClaimedOutcome(raw) == Some(v.outcome) && v.diagnostic == R.NoDiagnostic)
            && (CountIf(sources, IsUsable) == 0 ==>
                  v.outcome == R.Unresolved && v.diagnostic == R.SourceUnavailable)
  {
    hide Strip, CountIf, R.ParseOutcome, R.ParseDiagnostic;
    CountImplies(sources, IsEligibleUsable, IsUsable);
  }

  /** The resolver's whole evaluation of one request. */
  function Semantics(fetched: seq<Fetched>, reply: Reply, subject: string, rules: Rules): Verdict {
    var sources := Pipeline(fetched, subject, rules);
    if |sources| == 0 then
      Normalize(Reply(Some("UNRESOLVED"), Some("SOURCE_UNAVAILABLE"), false, Some("no sources supplied")),
                sources, rules)
    else Normalize(reply, sources, rules)
  }

  lemma SemanticsSound(fetched: seq<Fetched>, reply: Reply, subject: string, rules: Rules)
    ensures var v := Semantics(fetched, reply, subject, rules);
            && (v.satisfied <==> Evaluate(Pipeline(fetched, subject, rules), rules).ok)
            && (R.Boolean(v.outcome) ==> v.satisfied && v.diagnostic == R.NoDiagnostic)
  {
    hide Pipeline, Evaluate, Normalize;
    var sources := Pipeline(fetched, subject, rules);
    VerdictSound(reply, sources, rules);
    VerdictSound(Reply(Some("UNRESOLVED"), Some("SOURCE_UNAVAILABLE"), false, Some("no sources supplied")),
                 sources, rules);
  }

  /** The adjudicator's reply names this outcome. */
  predicate Claims(raw: Reply, o: R.Outcome) { raw.outcome.Some? && R.ParseOutcome(raw.outcome.value) == Some(o) }

  predicate ClaimsBoolean(raw: Reply) { Claims(raw, R.OutTrue) || Claims(raw, R.OutFalse) }

  /** The reason a reply that claims no boolean gives, if it can be read. */
  function ReasonGiven(raw: Reply): R.Diagnostic {
    var d := if raw.diagnostic.Some? then R.ParseDiagnostic(raw.diagnostic.value) else None;
    if (raw.outcome.Some? && R.ParseOutcome(raw.outcome.value).None?) || d.None? then R.InternalResolutionError
    else d.value
  }

  /**
   The whole verdict, in terms of the reply's own texts and of the clustered sources before the
   policy is applied: TRUE or FALSE exactly when the policy is met and the reply claims it, and
   otherwise UNRESOLVED for the reason stated here.
  */
  lemma SemanticsExact(fetched: seq<Fetched>, reply: Reply, subject: string, rules: Rules)
    ensures var v, rs := Semantics(fetched, reply, subject, rules), Clustered(fetched, subject);
            && (v.satisfied <==> Met(rs, rules))
            && (v.outcome == R.OutTrue <==> Met(rs, rules) && Claims(reply, R.OutTrue))
            && (v.outcome == R.OutFalse <==> Met(rs, rules) && Claims(reply, R.OutFalse))
            && v.diagnostic == if CountIf(rs, IsUsable) == 0 then R.SourceUnavailable
                               else if !ClaimsBoolean(reply) then ReasonGiven(reply)
                               else if Met(rs, rules) then R.NoDiagnostic
                               else R.SourcePolicyUnsatisfied
  {
    hide Clustered, Applied, Met, CountIf, R.ParseOutcome, R.ParseDiagnostic, Normalize;
    var rs, sources := Clustered(fetched, subject), Pipeline(fetched, subject, rules);
    VerdictIsMet(rs, rules);
    StatsMeaning(rs, rules);
    if |sources| == 0 {
      NothingCounted(IsUsable);
      NormalizeExact(Reply(Some("UNRESOLVED"), Some("SOURCE_UNAVAILABLE"), false, Some("no sources supplied")),
                     sources, rules);
    } else {
      NormalizeExact(reply, sources, rules);
    }
  }

  lemma NothingCounted<T>(p: T -> bool)
    ensures CountIf([], p) == 0
  {
  }

  lemma NormalizeExact(raw: Reply, sources: seq<Source>, rules: Rules)
    ensures var v, ok, n := Normalize(raw, sources, rules), Evaluate(sources, rules).ok, CountIf(sources, IsUsable);
            && (v.satisfied <==> ok) && (ok ==> n > 0)
            && (v.outcome == R.OutTrue <==> ok && Claims(raw, R.OutTrue))
            && (v.outcome == R.OutFalse <==> ok && Claims(raw, R.OutFalse))
            && v.diagnostic == if n == 0 then R.SourceUnavailable
                               else if !ClaimsBoolean(raw) then ReasonGiven(raw)
                               else if ok then R.NoDiagnostic
                               else R.SourcePolicyUnsatisfied
  {
    hide Strip, CountIf, R.ParseOutcome, R.ParseDiagnostic, Summary;
    CountImplies(sources, IsEligibleUsable, IsUsable);
    R.OutcomeTextParses(R.Unresolved);
    R.DiagnosticTextParses(R.InternalResolutionError);
  }

  /** The fields the validators compare. */
  predicate SameCritical(a: Verdict, b: Verdict) {
    a.outcome == b.outcome && a.diagnostic == b.diagnostic && a.satisfied == b.satisfied
  }

  /** An unavailable source changes no critical field, wherever it stands among distinct URLs. */
  lemma VerdictIsolated(pre: seq<Fetched>, u: Fetched, post: seq<Fetched>, subject: string, rules: Rules,
                        raw: Reply)
    requires u.status.Unavailable? && FetchedStatuses(post) && DistinctKeys(pre + [u] + post)
    ensures SameCritical(Normalize(raw, Pipeline(pre + [u] + post, subject, rules), rules),
                         Normalize(raw, Pipeline(pre + post, subject, rules), rules))
  {
    hide Pipeline, CountIf, CanonicalUrl, Strip;
    var n, all := |pre|, pre + [u] + post;
    forall f | f in post ensures KeyOf(f) != KeyOf(u) {
      var j :| 0 <= j < |post| && post[j] == f;
      assert all[n] == u && all[n + 1 + j] == f;
    }
    SourceIsolation(pre, u, post, subject, rules);
    var a := Pipeline(all, subject, rules);
    UnavailableStays(all, subject, rules, n);
    CountWithout(a, n, IsUsable);
    CountWithout(a, n, IsEligibleUsable);
    CountWithout(a, n, CountsPrimary);
    CountWithout(a, n, CountsIndependent);
  }

  /** An unavailable source never counts for anything. */
  lemma UnavailableStays(fs: seq<Fetched>, subject: string, rules: Rules, i: nat)
    requires i < |fs| && fs[i].status.Unavailable?
    ensures var r := Pipeline(fs, subject, rules)[i];
            !IsUsable(r) && !IsEligibleUsable(r) && !CountsPrimary(r) && !CountsIndependent(r)
  {
    hide Catalog, Scan, ScanEnd, CanonicalUrl, Inherited, HeuristicClass, RegistrableDomain, HostOf, Tokens,
         FingerprintOf, Applied;
    CatalogLength(fs);
    CatalogAt(fs, i);
    ScanAt(Catalog(fs), i, [], Clusterer(subject));
    PolicyEligibleIff(Clustered(fs, subject), rules, i);
    SameEvidence(Clustered(fs, subject), rules, i);
  }

  /** A policy that wants two primary sources leaves every ordinary subject unresolved. */
  lemma TwoPrimariesUnresolved(fetched: seq<Fetched>, reply: Reply, subject: string, rules: Rules)
    requires HostsOk(fetched) && rules.minPrimary >= 2 && SubjectAuthority(subject).host !in COMPOUND_TLDS
    ensures Semantics(fetched, reply, subject, rules).outcome == R.Unresolved
    ensures !Semantics(fetched, reply, subject, rules).satisfied
  {
    hide Pipeline, Evaluate, Semantics, SubjectAuthority, HostsOk;
    SemanticsSound(fetched, reply, subject, rules);
    TwoPrimariesNeverMet(fetched, subject, rules);
  }

  // Validators

  datatype Bindings = Bindings(claimKey: Digest, factKey: Digest, specHash: Digest, policyHash: Digest)

  /** Whatever a leader proposes, honest or not. */
  datatype Claim = Claim(bindings: Bindings, outcome: string, diagnostic: string, satisfied: bool,
                         summary: string, manifest: string)

  predicate KnownOutcome(s: string) { exists o: R.Outcome :: s == R.OutcomeText(o) }
  predicate KnownDiagnostic(s: string) { exists d: R.Diagnostic :: s == R.DiagnosticText(d) }

  /** The validator accepts a proposal that agrees with its own evaluation. */
  predicate Accepts(leader: Claim, bindings: Bindings, own: Verdict) {
    && leader.bindings == bindings
    && KnownOutcome(leader.outcome) && KnownDiagnostic(leader.diagnostic)
    && leader.outcome == R.OutcomeText(own.outcome)
    && leader.diagnostic == R.DiagnosticText(own.diagnostic)
    && leader.satisfied == own.satisfied
  }

  /**
   An accepted proposal carries the request's four bindings and parses to exactly the outcome,
   the diagnostic and the flag of the validator's own evaluation.
  */
  lemma AcceptedSound(leader: Claim, bindings: Bindings, fetched: seq<Fetched>, reply: Reply, subject: string,
                      rules: Rules)
    requires Accepts(leader, bindings, Semantics(fetched, reply, subject, rules))
    ensures leader.bindings == bindings
    ensures var own := Semantics(fetched, reply, subject, rules);
            && R.ParseOutcome(leader.outcome) == Some(own.outcome)
            && R.ParseDiagnostic(leader.diagnostic) == Some(own.diagnostic)
            && leader.satisfied == own.satisfied
    ensures leader.satisfied <==> Evaluate(Pipeline(fetched, subject, rules), rules).ok
    ensures var o, d := R.ParseOutcome(leader.outcome), R.ParseDiagnostic(leader.diagnostic);
            R.Boolean(o.value) ==> d.value == R.NoDiagnostic && leader.satisfied
  {
    hide Pipeline, Evaluate, Semantics, R.ParseOutcome, R.ParseDiagnostic;
    var own := Semantics(fetched, reply, subject, rules);
    SemanticsSound(fetched, reply, subject, rules);
    R.OutcomeTextParses(own.outcome);
    R.DiagnosticTextParses(own.diagnostic);
  }

  /** What a leader that follows the code proposes. */
  function HonestClaim(bindings: Bindings, v: Verdict, hex: Hex): Claim {
    Claim(bindings, R.OutcomeText(v.outcome), R.DiagnosticText(v.diagnostic), v.satisfied, v.summary,
          ManifestText(v.manifest, hex))
  }

  /** An honest leader is accepted exactly by the validators whose critical fields agree with its own. */
  lemma HonestAccepted(bindings: Bindings, v: Verdict, own: Verdict, hex: Hex)
    ensures Accepts(HonestClaim(bindings, v, hex), bindings, own) <==> SameCritical(v, own)
  {
    hide ManifestText, R.ParseOutcome, R.ParseDiagnostic;
    R.OutcomeTextParses(v.outcome);
    R.OutcomeTextParses(own.outcome);
    R.DiagnosticTextParses(v.diagnostic);
    R.DiagnosticTextParses(own.diagnostic);
  }

  /** An honest leader's commit for the active attempt of a live request. */
  predicate HonestCommit(s: R.State, sender: Address, c: R.CommitArgs, v: Verdict, hex: Hex) {
    && c.requestId in s.requests && R.Live(s.requests[c.requestId])
    && (var r := s.requests[c.requestId];
        sender == r.assignedResolver && c.attemptId == r.activeAttempt && c.claimKey == r.claimKey
        && c.factKey == r.factKey && c.specHash == r.specHash && c.policyHash == r.policyHash)
    && c.outcome == R.OutcomeText(v.outcome) && c.diagnostic == R.DiagnosticText(v.diagnostic)
    && c.reasoning == v.summary && |c.resolverVersion| <= 64
    && c.manifest == ManifestText(v.manifest, hex)
  }

  /** It is refused for nothing but the size of the manifest the normalisation built. */
  lemma CommitAcceptsVerdict(s: R.State, env: R.Env, c: R.CommitArgs, fetched: seq<Fetched>, reply: Reply,
                             subject: string, rules: Rules, hex: Hex)
    requires HonestCommit(s, env.sender, c, Semantics(fetched, reply, subject, rules), hex)
    ensures R.Commit(s, env, c).Ok?
            <==> |ManifestText(Semantics(fetched, reply, subject, rules).manifest, hex)| <= R.MAX_MANIFEST
  {
    hide Pipeline, Evaluate, Semantics, R.ParseOutcome, R.ParseDiagnostic, R.Record, R.NewResolution, ManifestText;
    var v := Semantics(fetched, reply, subject, rules);
    SemanticsSound(fetched, reply, subject, rules);
    ShortSummary(fetched, reply, subject, rules);
    ManifestStripped(v.manifest, hex);
    R.OutcomeTextParses(v.outcome);
    R.DiagnosticTextParses(v.diagnostic);
  }

  lemma ShortSummary(fetched: seq<Fetched>, reply: Reply, subject: string, rules: Rules)
    ensures |Semantics(fetched, reply, subject, rules).summary| <= MAX_SUMMARY
    ensures var t := if reply.summary.Some? then Strip(reply.summary.value) else "";
            |fetched| > 0 ==>
              Semantics(fetched, reply, subject, rules).summary == if |t| <= 1024 then t else t[..1024]
  {
    hide Pipeline, Evaluate, R.ParseOutcome, R.ParseDiagnostic, Strip;
    NothingToStrip();
  }

  lemma NothingToStrip()
    ensures Strip("") == ""
  {
  }

  // A manifest that does not fit

  lemma SemanticsManifest(fetched: seq<Fetched>, reply: Reply, subject: string, rules: Rules)
    ensures Semantics(fetched, reply, subject, rules).manifest == ManifestOf(Pipeline(fetched, subject, rules))
  {
    hide Pipeline, Evaluate, Summary, R.ParseOutcome, R.ParseDiagnostic;
  }

  /** Every fetched URL is written out in the manifest. */
  lemma ManifestUrls(fetched: seq<Fetched>, reply: Reply, subject: string, rules: Rules, i: nat)
    requires i < |fetched|
    ensures var m := Semantics(fetched, reply, subject, rules).manifest;
            |m| == |fetched| && m[i].url == fetched[i].url.text
  {
    hide Catalog, Scan, ScanEnd, CanonicalUrl, Inherited, HeuristicClass, RegistrableDomain, HostOf, Tokens,
         FingerprintOf, Applied, Semantics;
    SemanticsManifest(fetched, reply, subject, rules);
    CatalogLength(fetched);
    CatalogAt(fetched, i);
    ScanAt(Catalog(fetched), i, [], Clusterer(subject));
    SameEvidence(Clustered(fetched, subject), rules, i);
  }

  /** What the manifest tells of each source, in terms of what was fetched and of the clustered records. */
  lemma ManifestTells(fetched: seq<Fetched>, reply: Reply, subject: string, rules: Rules, i: nat)
    requires i < |fetched|
    ensures var m, rs := Semantics(fetched, reply, subject, rules).manifest, Clustered(fetched, subject);
            && |m| == |rs| == |fetched| && m[i].url == fetched[i].url.text && m[i].origin == fetched[i].origin
            && m[i].group == rs[i].group && m[i].status == rs[i].status
            && m[i].excerpt == (if fetched[i].status.Usable? then Some(fetched[i].content[..Cut(fetched[i].content)])
                                else None)
            && (m[i].eligible <==> Acceptable(rs[i], rules))
            && (m[i].primary <==> Acceptable(rs[i], rules) && rs[i].cls in PRIMARY_CLASSES)
            && (m[i].independent <==> Countable(rs[i], rules) && rs[i].group !in Groups(rs[..i], rules))
  {
    hide Catalog, Scan, ScanEnd, CanonicalUrl, Inherited, HeuristicClass, RegistrableDomain, HostOf, Tokens,
         FingerprintOf, Applied, Semantics, Judge, Acceptable, Countable, Groups;
    var rs, content := Clustered(fetched, subject), fetched[i].content;
    assert content[..|content|] == content;
    SemanticsManifest(fetched, reply, subject, rules);
    CatalogLength(fetched);
    ScanAt(fetched, i, map[], CatalogStep);
    ScanAt(Catalog(fetched), i, [], Clusterer(subject));
    PolicyEligibleIff(rs, rules, i);
    ScanAt(rs, i, {}, Judging(rules));
    JudgeCopies(rs[i], ScanEnd(rs[..i], {}, Judging(rules)), rules);
    AppliedIs(rs, rules);
    CatalogIs(fetched);
  }

  function Cut(content: string): nat { if |content| > 4096 then 4096 else |content| }

  lemma CatalogIs(fs: seq<Fetched>)
    ensures Catalog(fs) == Scan(fs, map[], CatalogStep)
  {
  }

  lemma JudgeCopies(r: Source, seen: set<string>, rules: Rules)
    ensures var j := Judge(r, seen, rules).0;
            && j.url == r.url && j.group == r.group && j.status == r.status && j.origin == r.origin
            && j.excerpt == r.excerpt
  {
  }

  /** Twelve accepted URLs of the greatest length: six seeds and six supplementals. */
  lemma TwelveLongUrlsRefused(s: R.State, env: R.Env, c: R.CommitArgs, fetched: seq<Fetched>, reply: Reply,
                              subject: string, rules: Rules, hex: Hex)
    requires FetchedFrom(Merged(LongUrls(0, 6), LongUrls(6, 6)), fetched)
    requires HonestCommit(s, env.sender, c, Semantics(fetched, reply, subject, rules), hex)
    ensures |fetched| == 12 && forall i :: 0 <= i < 12 ==> |fetched[i].url.text| == MAX_URL_LEN
    ensures R.Commit(s, env, c).Revert?
  {
    hide Semantics, R.Commit, ManifestText, Merged, LongUrl, HonestCommit;
    LongMerged();
    var m := Semantics(fetched, reply, subject, rules).manifest;
    var cs := Merged(LongUrls(0, 6), LongUrls(6, 6));
    ManifestUrls(fetched, reply, subject, rules, 0);
    forall i | 0 <= i < |m| ensures |fetched[i].url.text| == MAX_URL_LEN && |m[i].url| == MAX_URL_LEN {
      assert fetched[i].url == cs[i].url;
      ManifestUrls(fetched, reply, subject, rules, i);
    }
    ManifestLength(m, MAX_URL_LEN, hex);
    CommitAcceptsVerdict(s, env, c, fetched, reply, subject, rules, hex);
  }
}
