/**
 The registry contract as a transition function: every public write either commits a new
 state or reverts and leaves the state as it was.
*/
module Registry {
  import opened Common
  import opened Text
  import opened Digests
  import opened Seqs
  import P = PolicyRegistry

  const MAX_TEXT := 1024
  const MAX_DESC := 2048
  const MAX_MANIFEST := 16384
  const MAX_PAGE := 50
  const SCHEMA_V1 := "1"

  datatype Mutability = Immutable | MutableTtl
  datatype ReuseMode = ReuseIfFresh | ForceFresh
  datatype Outcome = OutTrue | OutFalse | Unresolved
  datatype Diagnostic =
    | NoDiagnostic | Ambiguous | InsufficientEvidence | ConflictingEvidence
    | SourcePolicyUnsatisfied | SourceUnavailable | InternalResolutionError
  datatype Status = Pending | Dispatched | Resolved | Reused | Cancelled | FailedStatus
  datatype CallbackStatus = NotRequested | CallbackDispatched | Acknowledged | FailedReported

  datatype Error =
    | NotOwner | Unauthorized | Paused | InvalidParam | InvalidUrl | TooManySeeds
    | UnknownPolicy | PolicyInactive | FeeInsufficient | NoDefaultResolver | ResolverDisabled
    | UnknownRequest | NothingToRetry | MaxAttemptsReached | NotStale | NotAssignedResolver
    | StaleAttempt | BindingMismatch | UnknownFact | AlreadyResolvedImmutable
    | UnknownResolution | CallbackNotFailed | NoCredit

  datatype FactSpec = FactSpec(
    subject: string, predicate_: string, objectValue: string, qualifiers: string,
    temporal: string, mutability: Mutability, schemaVersion: string, ttlSeconds: nat,
    description: string)

  datatype TemplateRef = TemplateRef(
    templateId: string, version: nat, hash: Digest, factType: string, instructions: string)

  datatype Request = Request(
    id: nat, requester: Address, claimKey: Digest, factKey: Digest, specHash: Digest,
    policyHash: Digest, policyId: string, policyVersion: nat, assignedResolver: Address,
    createdAt: nat, status: Status, activeAttempt: nat, lastAttemptAt: nat, retryAfter: nat,
    maxAttempts: nat, attemptCount: nat, callbackTarget: Address, callbackStatus: CallbackStatus,
    reuseMode: ReuseMode, feePaid: nat, spec: FactSpec, seeds: seq<string>,
    supplementals: seq<string>, currentResolution: nat, template: TemplateRef)

  datatype Resolution = Resolution(
    id: nat, requestId: nat, attemptId: nat, claimKey: Digest, factKey: Digest,
    specHash: Digest, policyHash: Digest, outcome: Outcome, diagnostic: Diagnostic,
    policySatisfied: bool, resolverVersion: string, manifestHash: Digest, reasoning: string,
    evaluatedAt: nat, committedAt: nat, validUntil: nat, version: nat, supersedes: nat,
    templateId: string, templateVersion: nat, templateHash: Digest)

  datatype Fact = Fact(
    factKey: Digest, claimKey: Digest, policyHash: Digest, schemaVersion: string,
    mutability: Mutability, currentResolution: nat, latestResolution: nat, currentRequest: nat,
    currentOutcome: Outcome, resolvedAt: nat, validUntil: nat, version: nat,
    templateHash: Digest)

  /** Messages a contract emits; they are delivered later, if at all. */
  datatype Message =
    | ResolveRequest(to: Address, requestId: nat, attemptId: nat)
    | Callback(to: Address, requestId: nat, factKey: Digest, resolutionId: nat, outcome: Outcome,
               resolvedAt: nat, validUntil: nat, callbackId: Digest)
    | Transfer(to: Address, amount: nat)

  datatype Config = Config(
    owner: Address, guardian: Address, defaultResolver: Address, enabled: set<Address>,
    paused: bool, feeBase: nat, feePerAttempt: nat, feeReuse: nat, retryDelay: nat,
    staleAfter: nat, maxAttempts: nat, maxSeedUrls: nat)

  /** `received` and `withdrawn` are the value that has entered and left the contract. */
  datatype State = State(
    cfg: Config, nextRequest: nat, nextResolution: nat, reusedCount: nat,
    requests: map<nat, Request>, resolutions: map<nat, Resolution>, facts: map<Digest, Fact>,
    history: map<Digest, seq<nat>>, credits: map<Address, nat>,
    received: nat, withdrawn: nat, outbox: seq<Message>)

  datatype Env = Env(sender: Address, now: nat, validUrl: string -> bool)

  datatype Tx = Ok(state: State, value: nat) | Revert(error: Error)

  datatype CreateArgs = CreateArgs(
    subject: string, predicate_: string, objectValue: string, qualifiers: string,
    temporal: string, mutability: string, schemaVersion: string, ttlSeconds: nat,
    description: string, policyId: string, policyVersion: nat, seeds: seq<string>,
    callbackTarget: Address, reuseMode: string, supplementals: seq<string>,
    template: TemplateRef)

  datatype CommitArgs = CommitArgs(
    requestId: nat, attemptId: nat, claimKey: Digest, factKey: Digest, specHash: Digest,
    policyHash: Digest, outcome: string, diagnostic: string, policySatisfied: bool,
    resolverVersion: string, manifest: string, reasoning: string, validUntil: nat)

  // Parsing the text parameters

  function MutabilityText(m: Mutability): string {
    match m case Immutable => "IMMUTABLE" case MutableTtl => "MUTABLE_WITH_TTL"
  }

  function ParseMutability(s: string): Option<Mutability> {
    var t := Upper(Strip(s));
    if t == "IMMUTABLE" then Some(Immutable)
    else if t == "MUTABLE_WITH_TTL" then Some(MutableTtl)
    else None
  }

  function ParseMode(s: string): Option<ReuseMode> {
    var t := Upper(Strip(s));
    if t == "" || t == "REUSE_IF_FRESH" then Some(ReuseIfFresh)
    else if t == "FORCE_FRESH_RESOLUTION" then Some(ForceFresh)
    else None
  }

  function OutcomeText(o: Outcome): string {
    match o case OutTrue => "TRUE" case OutFalse => "FALSE" case Unresolved => "UNRESOLVED"
  }

  function ParseOutcome(s: string): Option<Outcome> {
    var t := Upper(Strip(s));
    if t == "TRUE" then Some(OutTrue)
    else if t == "FALSE" then Some(OutFalse)
    else if t == "UNRESOLVED" then Some(Unresolved)
    else None
  }

  function DiagnosticText(d: Diagnostic): string {
    match d
    case NoDiagnostic => "NONE"
    case Ambiguous => "AMBIGUOUS"
    case InsufficientEvidence => "INSUFFICIENT_EVIDENCE"
    case ConflictingEvidence => "CONFLICTING_EVIDENCE"
    case SourcePolicyUnsatisfied => "SOURCE_POLICY_UNSATISFIED"
    case SourceUnavailable => "SOURCE_UNAVAILABLE"
    case InternalResolutionError => "INTERNAL_RESOLUTION_ERROR"
  }

  function ParseDiagnostic(s: string): Option<Diagnostic> {
    var t := Upper(Strip(s));
    if t == "NONE" then Some(NoDiagnostic)
    else if t == "AMBIGUOUS" then Some(Ambiguous)
    else if t == "INSUFFICIENT_EVIDENCE" then Some(InsufficientEvidence)
    else if t == "CONFLICTING_EVIDENCE" then Some(ConflictingEvidence)
    else if t == "SOURCE_POLICY_UNSATISFIED" then Some(SourcePolicyUnsatisfied)
    else if t == "SOURCE_UNAVAILABLE" then Some(SourceUnavailable)
    else if t == "INTERNAL_RESOLUTION_ERROR" then Some(InternalResolutionError)
    else None
  }

  predicate Canonical(s: string) {
    forall i :: 0 <= i < |s| ==> 'A' <= s[i] <= '_'
  }

  lemma CanonicalText(s: string)
    requires Canonical(s)
    ensures Upper(Strip(s)) == s
  {
    hide Strip;
    StripNoSpaces(s);
    assert forall i :: 0 <= i < |s| ==> Upper(s)[i] == s[i];
  }

  lemma OutcomeTextParses(o: Outcome)
    ensures ParseOutcome(OutcomeText(o)) == Some(o)
  {
    hide Strip, Upper;
    CanonicalText(OutcomeText(o));
  }

  lemma DiagnosticTextParses(d: Diagnostic)
    ensures ParseDiagnostic(DiagnosticText(d)) == Some(d)
  {
    hide Strip, Upper, NoSpaces;
    DiagnosticCanonical(d);
    CanonicalText(DiagnosticText(d));
  }

  lemma DiagnosticCanonical(d: Diagnostic)
    ensures Canonical(DiagnosticText(d))
  {
    hide Canonical, DiagnosticText;
    if d in {NoDiagnostic, Ambiguous, InsufficientEvidence, SourceUnavailable} {
      ShortDiagnostics(d);
    } else {
      LongDiagnostics(d);
    }
  }

  lemma ShortDiagnostics(d: Diagnostic)
    requires d in {NoDiagnostic, Ambiguous, InsufficientEvidence, SourceUnavailable}
    ensures Canonical(DiagnosticText(d))
  {
  }

  lemma LongDiagnostics(d: Diagnostic)
    requires d in {ConflictingEvidence, SourcePolicyUnsatisfied, InternalResolutionError}
    ensures Canonical(DiagnosticText(d))
  {
  }

  lemma MutabilityTextParses(m: Mutability)
    ensures ParseMutability(MutabilityText(m)) == Some(m)
  {
    hide Strip, Upper;
    CanonicalText(MutabilityText(m));
  }

  lemma ForceFreshParses()
    ensures ParseMode("FORCE_FRESH_RESOLUTION") == Some(ForceFresh)
  {
    hide Strip, Upper;
    CanonicalText("FORCE_FRESH_RESOLUTION");
  }

  predicate Boolean(o: Outcome) { o.OutTrue? || o.OutFalse? }

  datatype Urls = Urls(list: seq<string>) | BadUrls(error: Error)

  function ParseSeeds(urls: seq<string>, maxUrls: nat, validUrl: string -> bool): Urls {
    if |urls| > maxUrls then BadUrls(TooManySeeds)
    else if exists i :: 0 <= i < |urls| && !validUrl(urls[i]) then BadUrls(InvalidUrl)
    else Urls(DistinctBy(urls, Norm, {}))
  }

  method ParseSeedUrls(urls: seq<string>, maxUrls: nat, validUrl: string -> bool) returns (r: Urls)
    ensures r == ParseSeeds(urls, maxUrls, validUrl)
  {
    hide Norm;
    if |urls| > maxUrls { return BadUrls(TooManySeeds); }
    var out: seq<string> := [];
    var seen: set<string> := {};
    for i := 0 to |urls|
      invariant forall j :: 0 <= j < i ==> validUrl(urls[j])
      invariant DistinctBy(urls, Norm, {}) == out + DistinctBy(urls[i..], Norm, seen)
    {
      assert urls[i..][1..] == urls[i + 1..];
      if !validUrl(urls[i]) { return BadUrls(InvalidUrl); }
      var key := Norm(urls[i]);
      if key in seen { continue; }
      seen := seen + {key};
      out := out + [urls[i]];
    }
    r := Urls(out);
  }

  /** A stored list parses to itself again, as long as the parse does not fail. */
  lemma ReparseSeeds(urls: seq<string>, m: nat, n: nat, v: string -> bool, w: string -> bool)
    requires ParseSeeds(urls, m, v).Urls?
    requires ParseSeeds(ParseSeeds(urls, m, v).list, n, w).Urls?
    ensures ParseSeeds(ParseSeeds(urls, m, v).list, n, w).list == ParseSeeds(urls, m, v).list
  {
    DistinctByIdempotent(urls, Norm);
  }

  // Keys

  function ClaimKeyOf(s: FactSpec): Digest {
    ClaimDigest(Norm(s.subject), Norm(s.predicate_), Norm(s.objectValue), Norm(s.qualifiers),
                Norm(s.temporal), MutabilityText(s.mutability))
  }

  function FactKeyOf(claim: Digest, policy: Digest, schema: string, template: Digest): Digest {
    FactDigest(claim, policy, Norm(schema), template)
  }

  function SpecHashOf(s: FactSpec, seeds: seq<string>): Digest {
    SpecDigest(ClaimKeyOf(s), Norm(s.schemaVersion), s.ttlSeconds, Strip(s.description),
               seq(|seeds|, i requires 0 <= i < |seeds| => Norm(seeds[i])))
  }

  function CallbackIdOf(requestId: nat, resolutionId: nat, consumer: Address): Digest {
    CallbackDigest(requestId, resolutionId, consumer)
  }

  // Payments

  function Credit(credits: map<Address, nat>, who: Address, amount: nat): map<Address, nat> {
    if amount == 0 || who == ZERO then credits
    else credits[who := (if who in credits then credits[who] else 0) + amount]
  }

  function Receive(s: State, sender: Address, value: nat, required: nat): State
    requires value >= required
  {
    s.(received := s.received + value, credits := Credit(s.credits, sender, value - required))
  }

  // Canonical head

  function Advances(prev: Option<Outcome>, out: Outcome, satisfied: bool): bool {
    || (Boolean(out) && satisfied)
    || prev.None?
    || !Boolean(prev.value)
  }

  function FreshnessAllows(m: Mutability, out: Outcome, resolvedAt: nat, validUntil: nat,
                           ttl: nat, now: nat): bool {
    && Boolean(out)
    && (m == Immutable
        || (now <= validUntil && ttl > 0 && (if now < resolvedAt then 0 else now - resolvedAt) <= ttl))
  }

  function CanReuse(f: Option<Fact>, policyHash: Digest, schema: string, mode: ReuseMode,
                    ttl: nat, template: Digest, now: nat): bool {
    && mode == ReuseIfFresh
    && f.Some?
    && f.value.policyHash == policyHash
    && Norm(f.value.schemaVersion) == Norm(schema)
    && f.value.templateHash == template
    && FreshnessAllows(f.value.mutability, f.value.currentOutcome, f.value.resolvedAt,
                       f.value.validUntil, ttl, now)
  }

  function FactOpt(s: State, key: Digest): Option<Fact> {
    if key in s.facts then Some(s.facts[key]) else None
  }

  // Callbacks and dispatch

  function CallbackMessage(r: Request, resolutionId: nat, out: Outcome, resolvedAt: nat,
                           validUntil: nat): Message {
    Callback(r.callbackTarget, r.id, r.factKey, resolutionId, out, resolvedAt, validUntil,
             CallbackIdOf(r.id, resolutionId, r.callbackTarget))
  }

  function EmitCallback(s: State, r: Request, resolutionId: nat, out: Outcome, resolvedAt: nat,
                        validUntil: nat): State {
    if r.callbackTarget == ZERO
    then s.(requests := s.requests[r.id := r.(callbackStatus := NotRequested)])
    else s.(requests := s.requests[r.id := r.(callbackStatus := CallbackDispatched)],
            outbox := s.outbox + [CallbackMessage(r, resolutionId, out, resolvedAt, validUntil)])
  }

  function Dispatch(s: State, env: Env, r: Request): Tx {
    if r.assignedResolver == ZERO then Revert(NoDefaultResolver)
    else if r.assignedResolver !in s.cfg.enabled then Revert(ResolverDisabled)
    else
      var sent := r.(status := Dispatched, lastAttemptAt := env.now,
                     retryAfter := env.now + s.cfg.retryDelay);
      Ok(s.(requests := s.requests[r.id := sent],
            outbox := s.outbox + [ResolveRequest(r.assignedResolver, r.id, r.activeAttempt)]),
         r.id)
  }

  // Creating requests

  datatype Checked =
    | Checked(spec: FactSpec, policyId: string, mode: ReuseMode, seeds: seq<string>,
              supplementals: seq<string>)
    | Failed(error: Error)

  function CheckSpec(a: CreateArgs): Option<FactSpec> {
    var mut := ParseMutability(a.mutability);
    var schema := if Strip(a.schemaVersion) == "" then SCHEMA_V1 else Strip(a.schemaVersion);
    if !(0 < |Strip(a.subject)| <= MAX_TEXT) || !(0 < |Strip(a.predicate_)| <= MAX_TEXT)
       || |Strip(a.objectValue)| > MAX_TEXT || |Strip(a.qualifiers)| > MAX_TEXT
       || |Strip(a.temporal)| > MAX_TEXT || mut.None? || Norm(schema) != SCHEMA_V1
       || |Strip(a.description)| > MAX_DESC
       || (mut.value == MutableTtl && a.ttlSeconds == 0)
    then None
    else Some(FactSpec(Strip(a.subject), Strip(a.predicate_), Strip(a.objectValue),
                       Strip(a.qualifiers), Strip(a.temporal), mut.value, schema,
                       a.ttlSeconds, Strip(a.description)))
  }

  function CheckArgs(a: CreateArgs, maxSeeds: nat, validUrl: string -> bool): Checked {
    var spec, mode := CheckSpec(a), ParseMode(a.reuseMode);
    var pid := Strip(a.policyId);
    if spec.None? || mode.None? || !(0 < |pid| <= 64) || a.policyVersion < 1
    then Failed(InvalidParam)
    else
      var seeds := ParseSeeds(a.seeds, maxSeeds, validUrl);
      var extras := ParseSeeds(a.supplementals, MAX_SUPPLEMENTAL_SOURCES, validUrl);
      if seeds.BadUrls? then Failed(seeds.error)
      else if extras.BadUrls? then Failed(extras.error)
      else Checked(spec.value, pid, mode.value, seeds.list, extras.list)
  }

  /** The hash of an active policy of the policy registry. */
  datatype Loaded = Loaded(hash: Digest) | NotLoaded(error: Error)

  function LoadPolicy(book: P.Book, policyId: string, version: nat): Loaded {
    match P.GetPolicy(book, policyId, version)
    case None => NotLoaded(UnknownPolicy)
    case Some(rec) =>
      if rec.active && !rec.deprecated then Loaded(rec.hash) else NotLoaded(PolicyInactive)
  }

  function NewRequest(s: State, env: Env, a: CreateArgs, c: Checked, policyHash: Digest, fee: nat): Request
    requires c.Checked?
  {
    var claim := ClaimKeyOf(c.spec);
    Request(s.nextRequest, env.sender, claim,
            FactKeyOf(claim, policyHash, c.spec.schemaVersion, a.template.hash),
            SpecHashOf(c.spec, c.seeds), policyHash, c.policyId, a.policyVersion,
            s.cfg.defaultResolver, env.now, Pending, 1, 0, 0, s.cfg.maxAttempts, 0,
            a.callbackTarget, NotRequested, c.mode, fee, c.spec, c.seeds, c.supplementals, 0,
            a.template)
  }

  function Quote(cfg: Config, reuse: bool): nat {
    if reuse then cfg.feeReuse else cfg.feeBase + cfg.feePerAttempt
  }

  function ReuseHit(s: State, env: Env, c: Checked, policyHash: Digest, template: Digest): bool
    requires c.Checked?
  {
    var key := FactKeyOf(ClaimKeyOf(c.spec), policyHash, c.spec.schemaVersion, template);
    CanReuse(FactOpt(s, key), policyHash, c.spec.schemaVersion, c.mode, c.spec.ttlSeconds,
             template, env.now)
  }

  function CreateRequest(s: State, book: P.Book, env: Env, value: nat, a: CreateArgs): Tx {
    if s.cfg.paused then Revert(Paused)
    else
      var c := CheckArgs(a, s.cfg.maxSeedUrls, env.validUrl);
      if c.Failed? then Revert(c.error)
      else
        var loaded := LoadPolicy(book, c.policyId, a.policyVersion);
        if loaded.NotLoaded? then Revert(loaded.error)
        else
          var reuse := ReuseHit(s, env, c, loaded.hash, a.template.hash);
          var fee := Quote(s.cfg, reuse);
          if value < fee then Revert(FeeInsufficient)
          else if s.cfg.defaultResolver == ZERO then Revert(NoDefaultResolver)
          else if s.cfg.defaultResolver !in s.cfg.enabled then Revert(ResolverDisabled)
          else
            var r := NewRequest(s, env, a, c, loaded.hash, fee);
            var paid := Receive(s, env.sender, value, fee).(nextRequest := s.nextRequest + 1);
            if reuse then Ok(StoreReused(paid, r), r.id)
            else Dispatch(paid, env, r.(attemptCount := 1))
  }

  /** Answers a request at once with the canonical resolution of its fact. */
  function StoreReused(s: State, r: Request): State
    requires r.factKey in s.facts
  {
    var f := s.facts[r.factKey];
    EmitCallback(s.(reusedCount := s.reusedCount + 1),
                 r.(status := Reused, currentResolution := f.currentResolution),
                 f.currentResolution, f.currentOutcome, f.resolvedAt, f.validUntil)
  }

  /** The arguments under which an earlier request is asked again. */
  function ArgsOf(r: Request, seeds: seq<string>, callback: Address, extras: seq<string>): CreateArgs {
    CreateArgs(r.spec.subject, r.spec.predicate_, r.spec.objectValue, r.spec.qualifiers,
               r.spec.temporal, MutabilityText(r.spec.mutability), r.spec.schemaVersion,
               r.spec.ttlSeconds, r.spec.description, r.policyId, r.policyVersion, seeds,
               callback, "FORCE_FRESH_RESOLUTION", extras, r.template)
  }

  function RefreshFact(s: State, book: P.Book, env: Env, value: nat, key: Digest,
                       seeds: Option<seq<string>>, callback: Address): Tx {
    if s.cfg.paused then Revert(Paused)
    else if key !in s.facts then Revert(UnknownFact)
    else if s.facts[key].mutability != MutableTtl then Revert(AlreadyResolvedImmutable)
    else if s.facts[key].currentRequest !in s.requests then Revert(UnknownRequest)
    else
      var prev := s.requests[s.facts[key].currentRequest];
      var urls := if seeds.Some? then seeds.value else prev.seeds;
      CreateRequest(s, book, env, value, ArgsOf(prev, urls, callback, []))
  }

  function Reassess(s: State, book: P.Book, env: Env, value: nat, key: Digest,
                    extras: seq<string>, notes: string, callback: Address): Tx {
    if s.cfg.paused then Revert(Paused)
    else if |Strip(notes)| > MAX_DESC then Revert(InvalidParam)
    else if key !in s.facts then Revert(UnknownFact)
    else if s.facts[key].currentRequest !in s.requests then Revert(UnknownRequest)
    else
      var prev := s.requests[s.facts[key].currentRequest];
      CreateRequest(s, book, env, value, ArgsOf(prev, prev.seeds, callback, extras))
  }

  // Lifecycle

  predicate Live(r: Request) { r.status == Pending || r.status == Dispatched }

  function Retry(s: State, env: Env, value: nat, id: nat): Tx {
    if id !in s.requests then Revert(UnknownRequest)
    else
      var r := s.requests[id];
      if env.sender != r.requester && env.sender != s.cfg.owner then Revert(Unauthorized)
      else if !Live(r) then Revert(NothingToRetry)
      else if r.attemptCount >= r.maxAttempts then Revert(MaxAttemptsReached)
      else if env.now < r.retryAfter then Revert(NotStale)
      else if value < s.cfg.feePerAttempt then Revert(FeeInsufficient)
      else
        Dispatch(Receive(s, env.sender, value, s.cfg.feePerAttempt), env,
                 r.(feePaid := r.feePaid + s.cfg.feePerAttempt,
                    activeAttempt := r.activeAttempt + 1,
                    attemptCount := r.attemptCount + 1,
                    status := Pending))
  }

  function Cancel(s: State, env: Env, id: nat): Tx {
    if id !in s.requests then Revert(UnknownRequest)
    else
      var r := s.requests[id];
      var last := if r.lastAttemptAt == 0 then r.createdAt else r.lastAttemptAt;
      if env.sender != r.requester && env.sender != s.cfg.owner && env.sender != s.cfg.guardian
      then Revert(Unauthorized)
      else if !Live(r) then Revert(NothingToRetry)
      else if env.now < last + s.cfg.staleAfter then Revert(NotStale)
      else
        Ok(s.(credits := Credit(s.credits, r.requester, r.feePaid),
              requests := s.requests[id := r.(status := Cancelled, feePaid := 0)]), id)
  }

  function PrevLatest(s: State, key: Digest): Option<Resolution> {
    if key !in s.facts then None
    else
      var f := s.facts[key];
      var id := if f.latestResolution == 0 then f.currentResolution else f.latestResolution;
      if id > 0 && id in s.resolutions then Some(s.resolutions[id]) else None
  }

  function ValidUntil(r: Request, requested: nat, now: nat): nat {
    if r.spec.mutability == Immutable then 0
    else if requested == 0 then now + r.spec.ttlSeconds
    else requested
  }

  function NewResolution(s: State, now: nat, r: Request, c: CommitArgs, out: Outcome, diag: Diagnostic): Resolution {
    var prev := PrevLatest(s, r.factKey);
    Resolution(s.nextResolution, r.id, c.attemptId, r.claimKey, r.factKey, r.specHash, r.policyHash,
               out, diag, c.policySatisfied, Strip(c.resolverVersion),
               ManifestDigest(Strip(c.manifest)), Strip(c.reasoning), now, now,
               ValidUntil(r, c.validUntil, now),
               if prev.None? then 1 else prev.value.version + 1,
               if prev.None? then 0 else prev.value.id,
               r.template.templateId, r.template.version, r.template.hash)
  }

  function NextFact(prev: Option<Fact>, r: Request, res: Resolution): Fact {
    var prevOutcome := if prev.None? then None else Some(prev.value.currentOutcome);
    if Advances(prevOutcome, res.outcome, res.policySatisfied) then
      Fact(r.factKey, r.claimKey, r.policyHash, r.spec.schemaVersion, r.spec.mutability,
           res.id, res.id, r.id, res.outcome, res.committedAt, res.validUntil, res.version,
           r.template.hash)
    else
      var f := prev.value;
      Fact(r.factKey, r.claimKey, r.policyHash, r.spec.schemaVersion, r.spec.mutability,
           f.currentResolution, res.id, f.currentRequest, f.currentOutcome, f.resolvedAt,
           f.validUntil, f.version,
           if f.templateHash != NoDigest then f.templateHash else r.template.hash)
  }

  function Commit(s: State, env: Env, c: CommitArgs): Tx {
    if c.requestId !in s.requests then Revert(UnknownRequest)
    else
      var r := s.requests[c.requestId];
      var out, diag := ParseOutcome(c.outcome), ParseDiagnostic(c.diagnostic);
      if env.sender != r.assignedResolver then Revert(NotAssignedResolver)
      else if !Live(r) then Revert(NothingToRetry)
      else if c.attemptId != r.activeAttempt then Revert(StaleAttempt)
      else if c.claimKey != r.claimKey || c.factKey != r.factKey || c.specHash != r.specHash
              || c.policyHash != r.policyHash then Revert(BindingMismatch)
      else if out.None? || diag.None? then Revert(InvalidParam)
      else if Boolean(out.value) && diag.value != NoDiagnostic then Revert(InvalidParam)
      else if |Strip(c.reasoning)| > MAX_DESC || |Strip(c.resolverVersion)| > 64
              || |Strip(c.manifest)| > MAX_MANIFEST then Revert(InvalidParam)
      else Ok(Record(s, r, NewResolution(s, env.now, r, c, out.value, diag.value)), s.nextResolution)
  }

  /** A resolution added to the records, its fact's history and the fact. */
  function Filed(s: State, r: Request, res: Resolution): State {
    var key := r.factKey;
    s.(nextResolution := s.nextResolution + 1,
       resolutions := s.resolutions[res.id := res],
       history := s.history[key := (if key in s.history then s.history[key] else []) + [res.id]],
       facts := s.facts[key := NextFact(FactOpt(s, key), r, res)])
  }

  /** The state once a resolution of a request has been accepted. */
  function Record(s: State, r: Request, res: Resolution): State {
    EmitCallback(Filed(s, r, res), r.(status := Resolved, currentResolution := res.id),
                 res.id, res.outcome, res.committedAt, res.validUntil)
  }

  function CallbackRetry(s: State, env: Env, id: nat): Tx {
    if id !in s.requests then Revert(UnknownRequest)
    else
      var r := s.requests[id];
      if env.sender != r.requester && env.sender != s.cfg.owner then Revert(Unauthorized)
      else if r.callbackTarget == ZERO then Revert(InvalidParam)
      else if r.status != Resolved && r.status != Reused then Revert(NothingToRetry)
      else if r.callbackStatus != CallbackDispatched && r.callbackStatus != FailedReported
      then Revert(CallbackNotFailed)
      else if r.currentResolution !in s.resolutions then Revert(UnknownResolution)
      else
        var res := s.resolutions[r.currentResolution];
        Ok(EmitCallback(s, r, res.id, res.outcome, res.committedAt, res.validUntil), id)
  }

  function MarkCallback(s: State, env: Env, id: nat, succeeded: bool): Tx {
    if id !in s.requests then Revert(UnknownRequest)
    else
      var r := s.requests[id];
      if r.callbackTarget == ZERO then Revert(InvalidParam)
      else if env.sender != r.callbackTarget then Revert(Unauthorized)
      else
        Ok(s.(requests := s.requests[id := r.(callbackStatus :=
                if succeeded then Acknowledged else FailedReported)]), id)
  }

  function Withdraw(s: State, env: Env): Tx {
    if env.sender !in s.credits || s.credits[env.sender] == 0 then Revert(NoCredit)
    else
      var amount := s.credits[env.sender];
      Ok(s.(credits := s.credits[env.sender := 0], withdrawn := s.withdrawn + amount,
            outbox := s.outbox + [Transfer(env.sender, amount)]), amount)
  }

  // Runs

  datatype Call =
    | RequestFact(value: nat, args: CreateArgs)
    | Refresh(value: nat, key: Digest, seeds: Option<seq<string>>, callback: Address)
    | Reassessment(value: nat, key: Digest, extras: seq<string>, notes: string, callback: Address)
    | RetryResolution(value: nat, id: nat)
    | CancelStale(id: nat)
    | CommitResolution(commit: CommitArgs)
    | RequestCallbackRetry(id: nat)
    | MarkCallbackResult(id: nat, succeeded: bool)
    | WithdrawCredit
    | Reconfigure(cfg: Config)   // any administrative setter

  function Execute(s: State, book: P.Book, env: Env, c: Call): Tx {
    match c
    case RequestFact(value, args) => CreateRequest(s, book, env, value, args)
    case Refresh(value, key, seeds, callback) => RefreshFact(s, book, env, value, key, seeds, callback)
    case Reassessment(value, key, extras, notes, callback) =>
      Reassess(s, book, env, value, key, extras, notes, callback)
    case RetryResolution(value, id) => Retry(s, env, value, id)
    case CancelStale(id) => Cancel(s, env, id)
    case CommitResolution(commit) => Commit(s, env, commit)
    case RequestCallbackRetry(id) => CallbackRetry(s, env, id)
    case MarkCallbackResult(id, succeeded) => MarkCallback(s, env, id, succeeded)
    case WithdrawCredit => Withdraw(s, env)
    case Reconfigure(cfg) => if 1 <= cfg.maxAttempts <= 32 then Ok(s.(cfg := cfg), 0) else Revert(InvalidParam)
  }

  function Step(s: State, book: P.Book, env: Env, c: Call): State {
    var tx := Execute(s, book, env, c);
    if tx.Ok? then tx.state else s
  }

  function Initial(cfg: Config): State {
    State(cfg, 1, 1, 0, map[], map[], map[], map[], map[], 0, 0, [])
  }
}
