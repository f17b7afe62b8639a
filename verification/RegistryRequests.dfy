/**
 What a stored request tells about the call that opened it, who may move it and when, and which
 messages its moves send.
*/
module RegistryRequests {
  import opened Common
  import opened Text
  import opened Digests
  import opened Seqs
  import opened Registry
  import opened RegistryInvariant
  import opened RegistryRuns
  import opened RegistryCommit
  import opened RegistryTheorems
  import opened RegistryResults
  import opened SourceClasses
  import P = PolicyRegistry

  // Opening a request

  predicate IsBoolean(o: Outcome) { o == OutTrue || o == OutFalse }

  /** What was asked, as it is stored. */
  predicate Asked(a: CreateArgs, r: Request) {
    && r.spec.subject == Strip(a.subject) && r.spec.predicate_ == Strip(a.predicate_)
    && r.spec.objectValue == Strip(a.objectValue) && r.spec.qualifiers == Strip(a.qualifiers)
    && r.spec.temporal == Strip(a.temporal) && r.spec.description == Strip(a.description)
    && ParseMutability(a.mutability) == Some(r.spec.mutability) && r.spec.ttlSeconds == a.ttlSeconds
    && r.policyId == Strip(a.policyId) && r.policyVersion == a.policyVersion
    && ParseMode(a.reuseMode) == Some(r.reuseMode) && r.callbackTarget == a.callbackTarget
    && r.template == a.template && r.seeds == DistinctBy(a.seeds, Norm, {})
    && r.supplementals == DistinctBy(a.supplementals, Norm, {})
  }

  /** What is asked is bounded. */
  predicate Bounded(r: Request) {
    && 0 < |r.spec.subject| <= MAX_TEXT && 0 < |r.spec.predicate_| <= MAX_TEXT
    && |r.spec.objectValue| <= MAX_TEXT && |r.spec.qualifiers| <= MAX_TEXT && |r.spec.temporal| <= MAX_TEXT
    && |r.spec.description| <= MAX_DESC && 0 < |r.policyId| <= 64 && r.policyVersion >= 1
    && |r.supplementals| <= MAX_SUPPLEMENTAL_SOURCES
    && (r.spec.mutability == MutableTtl ==> r.spec.ttlSeconds > 0)
  }

  /** Every URL given is valid, and there are not too many. */
  predicate UrlsGiven(s: State, env: Env, a: CreateArgs) {
    && |a.seeds| <= s.cfg.maxSeedUrls && |a.supplementals| <= MAX_SUPPLEMENTAL_SOURCES
    && (forall i :: 0 <= i < |a.seeds| ==> env.validUrl(a.seeds[i]))
    && (forall i :: 0 <= i < |a.supplementals| ==> env.validUrl(a.supplementals[i]))
  }

  lemma CheckedArgs(s: State, env: Env, a: CreateArgs, hash: Digest, fee: nat)
    requires CheckArgs(a, s.cfg.maxSeedUrls, env.validUrl).Checked?
    ensures var r := NewRequest(s, env, a, CheckArgs(a, s.cfg.maxSeedUrls, env.validUrl), hash, fee);
            Asked(a, r) && Bounded(r) && UrlsGiven(s, env, a)
  {
    hide Norm, Strip, ParseMutability, ParseMode, ClaimKeyOf, FactKeyOf, SpecHashOf;
  }

  /** What every opened request records of the call and the contract's settings. */
  predicate OpenedBy(s: State, book: P.Book, env: Env, value: nat, r: Request) {
    && !s.cfg.paused && r.requester == env.sender && r.createdAt == env.now && value >= r.feePaid
    && r.assignedResolver == s.cfg.defaultResolver && r.assignedResolver != ZERO
    && r.assignedResolver in s.cfg.enabled && r.maxAttempts == s.cfg.maxAttempts && r.activeAttempt == 1
    && (var rec := P.GetPolicy(book, r.policyId, r.policyVersion);
        rec.Some? && rec.value.active && !rec.value.deprecated && rec.value.hash == r.policyHash)
  }

  /** A request sent to its resolver for the first time. */
  predicate SentFirst(s: State, t: State, env: Env, r: Request) {
    && r.status == Dispatched && r.attemptCount == 1 && r.lastAttemptAt == env.now && r.currentResolution == 0
    && r.retryAfter == env.now + s.cfg.retryDelay && r.feePaid == s.cfg.feeBase + s.cfg.feePerAttempt
    && t.outbox == s.outbox + [ResolveRequest(r.assignedResolver, r.id, 1)]
    && t.reusedCount == s.reusedCount
  }

  /** A request answered with the canonical resolution of its fact. */
  predicate AnsweredFrom(s: State, t: State, f: Fact, r: Request) {
    && r.status == Reused && r.attemptCount == 0 && r.currentResolution == f.currentResolution
    && r.feePaid == s.cfg.feeReuse && t.reusedCount == s.reusedCount + 1
    && t.outbox == s.outbox + if r.callbackTarget == ZERO then [] else
         [Callback(r.callbackTarget, r.id, r.factKey, f.currentResolution, f.currentOutcome, f.resolvedAt,
                   f.validUntil, CallbackDigest(r.id, f.currentResolution, r.callbackTarget))]
  }

  lemma StoresReused(s: State, r: Request)
    requires r.factKey in s.facts && r.attemptCount == 0 && r.feePaid == s.cfg.feeReuse
    ensures var t := StoreReused(s, r);
            && r.id in t.requests && t.requests[r.id].factKey == r.factKey
            && AnsweredFrom(s, t, s.facts[r.factKey], t.requests[r.id])
            && t.requests[r.id] == r.(status := Reused, currentResolution := s.facts[r.factKey].currentResolution,
                                      callbackStatus := t.requests[r.id].callbackStatus)
  {
  }

  lemma SendsFirst(s: State, env: Env, r: Request)
    requires Dispatch(s, env, r).Ok? && r.attemptCount == 1 && r.activeAttempt == 1 && r.currentResolution == 0
    requires r.feePaid == s.cfg.feeBase + s.cfg.feePerAttempt
    ensures var t := Dispatch(s, env, r).state;
            && Dispatch(s, env, r).value == r.id && r.id in t.requests && SentFirst(s, t, env, t.requests[r.id])
            && t.requests[r.id] == r.(status := Dispatched, lastAttemptAt := env.now,
                                      retryAfter := env.now + s.cfg.retryDelay)
  {
  }

  /** The reuse test, for the fact a new request would be about. */
  lemma HitIs(s: State, env: Env, c: Checked, hash: Digest, template: Digest)
    requires c.Checked? && FactsOk(s) && RequestsOk(s) && ResolutionsOk(s)
    ensures var key := FactKeyOf(ClaimKeyOf(c.spec), hash, c.spec.schemaVersion, template);
            ReuseHit(s, env, c, hash, template) <==>
              && c.mode == ReuseIfFresh && key in s.facts
              && var f := s.facts[key];
              && IsBoolean(f.currentOutcome)
              && (f.mutability == Immutable
                  || (env.now <= f.validUntil && c.spec.ttlSeconds > 0
                      && env.now <= f.resolvedAt + c.spec.ttlSeconds))
    ensures var key := FactKeyOf(ClaimKeyOf(c.spec), hash, c.spec.schemaVersion, template);
            key in s.facts ==> s.facts[key].mutability == c.spec.mutability
  {
    hide Norm, RequestsOk, ResolutionsOk, FactsOk;
    var key := FactKeyOf(ClaimKeyOf(c.spec), hash, c.spec.schemaVersion, template);
    if key in s.facts {
      FactIdentity(s, key);
      assert |MutabilityText(Immutable)| != |MutabilityText(MutableTtl)|;
    }
  }

  /** The fact a new request is about can answer it now. */
  predicate Answerable(s: State, r: Request, now: nat) {
    && r.reuseMode == ReuseIfFresh && r.factKey in s.facts
    && var f := s.facts[r.factKey];
    && IsBoolean(f.currentOutcome)
    && (f.mutability == Immutable
        || (now <= f.validUntil && r.spec.ttlSeconds > 0 && now <= f.resolvedAt + r.spec.ttlSeconds))
  }

  /** The request a successful creation stores. */
  lemma Opens(s: State, book: P.Book, env: Env, value: nat, a: CreateArgs)
    requires FactsOk(s) && RequestsOk(s) && ResolutionsOk(s) && CreateRequest(s, book, env, value, a).Ok?
    ensures var tx := CreateRequest(s, book, env, value, a);
            && tx.value == s.nextRequest && tx.value in tx.state.requests
            && var r := tx.state.requests[tx.value];
            && Asked(a, r) && Bounded(r) && UrlsGiven(s, env, a) && OpenedBy(s, book, env, value, r) && r.id == tx.value
            && (r.factKey in s.facts ==> s.facts[r.factKey].mutability == r.spec.mutability)
            && (Answerable(s, r, env.now) ==> AnsweredFrom(s, tx.state, s.facts[r.factKey], r))
            && (!Answerable(s, r, env.now) ==> SentFirst(s, tx.state, env, r))
  {
    hide Credit, CheckArgs, P.GetPolicy, Norm, Strip, FactsOk, RequestsOk, ResolutionsOk, ReuseHit, ClaimKeyOf,
         FactKeyOf, SpecHashOf, Dispatch, StoreReused, Asked, Bounded, UrlsGiven, AnsweredFrom, SentFirst;
    var c := CheckArgs(a, s.cfg.maxSeedUrls, env.validUrl);
    var hash := LoadPolicy(book, c.policyId, a.policyVersion).hash;
    var reuse := ReuseHit(s, env, c, hash, a.template.hash);
    var fee := Quote(s.cfg, reuse);
    var r := NewRequest(s, env, a, c, hash, fee);
    var paid := Receive(s, env.sender, value, fee).(nextRequest := s.nextRequest + 1);
    HitIs(s, env, c, hash, a.template.hash);
    CheckedArgs(s, env, a, hash, fee);
    if reuse {
      StoresReused(paid, r);
      AskedSame(a, r, StoreReused(paid, r).requests[r.id]);
      AnsweredSame(s, paid, StoreReused(paid, r), r.factKey, StoreReused(paid, r).requests[r.id]);
    } else {
      SendsFirst(paid, env, r.(attemptCount := 1));
      var t := Dispatch(paid, env, r.(attemptCount := 1)).state;
      AskedSame(a, r, t.requests[r.id]);
      SentSame(s, paid, t, env, t.requests[r.id]);
    }
  }

  lemma AskedSame(a: CreateArgs, r: Request, q: Request)
    requires Asked(a, r) && Bounded(r) && SameIdentity(r, q)
    ensures Asked(a, q) && Bounded(q)
  {
    hide Norm, Strip, ParseMutability, ParseMode;
  }

  lemma AnsweredSame(s: State, paid: State, t: State, key: Digest, r: Request)
    requires key in paid.facts && key in s.facts && paid.facts[key] == s.facts[key]
    requires paid.cfg == s.cfg && paid.outbox == s.outbox && paid.reusedCount == s.reusedCount
    requires AnsweredFrom(paid, t, paid.facts[key], r)
    ensures AnsweredFrom(s, t, s.facts[key], r)
  {
  }

  lemma SentSame(s: State, paid: State, t: State, env: Env, r: Request)
    requires paid.cfg == s.cfg && paid.outbox == s.outbox && paid.reusedCount == s.reusedCount
    requires SentFirst(paid, t, env, r)
    ensures SentFirst(s, t, env, r)
  {
  }

  lemma GoodParts(c: Chain)
    requires Good(c)
    ensures IdsOk(c.reg) && RequestsOk(c.reg) && ResolutionsOk(c.reg) && FactsOk(c.reg) && OutboxOk(c.reg)
  {
    hide IdsOk, RequestsOk, ResolutionsOk, FactsOk, CountsOk, MoneyOk, OutboxOk, BooksOk;
  }

  /**
   A creation that succeeds stores what was asked, bounded, under the caller's name and an active
   policy. It is answered at once exactly when reuse was asked for and the fact's head is a boolean that
   is immutable, or neither expired nor older than the requested time to live; and otherwise it is
   sent to the resolver.
  */
  lemma CreationExact(cfg: Config, owner: Address, actions: seq<Action>, json: Json, c: Chain, env: Env,
                      value: nat, a: CreateArgs)
    requires Reaches(cfg, owner, actions, json, c)
    requires CreateRequest(c.reg, c.book, env, value, a).Ok?
    ensures var s, t, id := c.reg, CreateRequest(c.reg, c.book, env, value, a).state, c.reg.nextRequest;
            && id in t.requests
            && var r := t.requests[id];
            && Asked(a, r) && Bounded(r) && UrlsGiven(s, env, a) && OpenedBy(s, c.book, env, value, r)
            && (r.status == Reused <==>
                  && r.reuseMode == ReuseIfFresh && r.factKey in s.facts
                  && var f := s.facts[r.factKey];
                  && (f.currentOutcome == OutTrue || f.currentOutcome == OutFalse)
                  && (r.spec.mutability == Immutable
                      || (env.now <= f.validUntil && r.spec.ttlSeconds > 0
                          && env.now <= f.resolvedAt + r.spec.ttlSeconds)))
            && (r.status == Reused ==> AnsweredFrom(s, t, s.facts[r.factKey], r))
            && (r.status != Reused ==> SentFirst(s, t, env, r))
  {
    hide Reaches, Good, FactsOk, RequestsOk, ResolutionsOk, CreateRequest, Asked, Bounded, UrlsGiven, OpenedBy;
    ReachableGood(cfg, owner, actions, json, c);
    GoodParts(c);
    Opens(c.reg, c.book, env, value, a);
  }

  /** The policy a call names is published and active. */
  predicate Usable(book: P.Book, id: string, version: nat) {
    var rec := P.GetPolicy(book, id, version);
    rec.Some? && rec.value.active && !rec.value.deprecated
  }

  /** The head of the fact a call is about can answer it now. */
  predicate HeadAnswers(s: State, key: Digest, mode: ReuseMode, mutability: Mutability, ttl: nat, now: nat) {
    && mode == ReuseIfFresh && key in s.facts
    && (s.facts[key].currentOutcome == OutTrue || s.facts[key].currentOutcome == OutFalse)
    && (mutability == Immutable
        || (now <= s.facts[key].validUntil && ttl > 0 && now <= s.facts[key].resolvedAt + ttl))
  }

  /** A call with well-formed arguments under an active policy fails for nothing but its payment. */
  lemma CreationSucceeds(cfg: Config, owner: Address, actions: seq<Action>, json: Json, ch: Chain, env: Env,
                         value: nat, a: CreateArgs)
    requires Reaches(cfg, owner, actions, json, ch) && !ch.reg.cfg.paused
    requires ch.reg.cfg.defaultResolver != ZERO && ch.reg.cfg.defaultResolver in ch.reg.cfg.enabled
    ensures var s, c := ch.reg, CheckArgs(a, ch.reg.cfg.maxSeedUrls, env.validUrl);
            c.Checked? && Usable(ch.book, c.policyId, a.policyVersion) ==>
              var hash := P.GetPolicy(ch.book, c.policyId, a.policyVersion).value.hash;
              var key := FactKeyOf(ClaimKeyOf(c.spec), hash, c.spec.schemaVersion, a.template.hash);
              CreateRequest(s, ch.book, env, value, a).Ok? <==>
                value >= if HeadAnswers(s, key, c.mode, c.spec.mutability, c.spec.ttlSeconds, env.now)
                         then s.cfg.feeReuse else s.cfg.feeBase + s.cfg.feePerAttempt
  {
    hide Reaches, Good, FactsOk, RequestsOk, ResolutionsOk, CheckArgs, P.GetPolicy, Norm, ClaimKeyOf, FactKeyOf,
         SpecHashOf, ReuseHit, Credit, StoreReused;
    ReachableGood(cfg, owner, actions, json, ch);
    GoodParts(ch);
    var c := CheckArgs(a, ch.reg.cfg.maxSeedUrls, env.validUrl);
    if c.Checked? && Usable(ch.book, c.policyId, a.policyVersion) {
      var hash := P.GetPolicy(ch.book, c.policyId, a.policyVersion).value.hash;
      HitIs(ch.reg, env, c, hash, a.template.hash);
    }
  }

  // The messages a request's moves send

  lemma CreateSends(s: State, book: P.Book, env: Env, value: nat, a: CreateArgs)
    requires CreateRequest(s, book, env, value, a).Ok?
    ensures s.outbox <= CreateRequest(s, book, env, value, a).state.outbox
  {
    hide Credit, CheckArgs, LoadPolicy, ReuseHit, Quote, CallbackMessage, ClaimKeyOf, FactKeyOf,
         SpecHashOf, NewRequest;
  }

  lemma CommitSends(s: State, env: Env, c: CommitArgs)
    requires Commit(s, env, c).Ok?
    ensures s.outbox <= Commit(s, env, c).state.outbox
  {
    hide NewResolution, NextFact, FactOpt, ParseOutcome, ParseDiagnostic, CallbackMessage, Strip;
  }

  lemma OutboxGrows(s: State, book: P.Book, env: Env, call: Call)
    ensures s.outbox <= Step(s, book, env, call).outbox
  {
    hide CreateRequest, Commit, Credit, CallbackMessage, Strip, ArgsOf;
    if Execute(s, book, env, call).Ok? {
      match call
      case RequestFact(value, args) => CreateSends(s, book, env, value, args);
      case Refresh(value, key, seeds, callback) =>
        var prev := s.requests[s.facts[key].currentRequest];
        CreateSends(s, book, env, value, ArgsOf(prev, if seeds.Some? then seeds.value else prev.seeds, callback, []));
      case Reassessment(value, key, extras, notes, callback) =>
        var prev := s.requests[s.facts[key].currentRequest];
        CreateSends(s, book, env, value, ArgsOf(prev, prev.seeds, callback, extras));
      case CommitResolution(commit) => CommitSends(s, env, commit);
      case _ =>
    }
  }

  /** Every attempt was sent to its resolver, and every settled request with a target was called back. */
  predicate Told(outbox: seq<Message>, r: Request) {
    && (r.status != Reused ==>
          forall k: nat :: 1 <= k <= r.activeAttempt ==> ResolveRequest(r.assignedResolver, r.id, k) in outbox)
    && ((r.status == Resolved || r.status == Reused) && r.callbackTarget != ZERO ==> CalledBack(outbox, r.id))
  }

  predicate CalledBack(outbox: seq<Message>, id: nat) {
    exists m :: m in outbox && m.Callback? && m.requestId == id
  }

  /** A request answered from the cache was answered by a head that was fresh when it was opened. */
  predicate WasFresh(s: State, r: Request) {
    r.status == Reused ==>
      && r.reuseMode == ReuseIfFresh && r.currentResolution in s.resolutions
      && var res := s.resolutions[r.currentResolution];
      && res.factKey == r.factKey && IsBoolean(res.outcome)
      && (r.spec.mutability == Immutable
          || (r.createdAt <= res.validUntil && r.spec.ttlSeconds > 0
              && r.createdAt <= res.committedAt + r.spec.ttlSeconds))
  }

  predicate StoredOk(s: State) {
    forall id :: id in s.requests ==>
      Bounded(s.requests[id]) && WasFresh(s, s.requests[id]) && Told(s.outbox, s.requests[id])
  }

  lemma ToldLater(a: seq<Message>, b: seq<Message>, r: Request)
    requires Told(a, r) && a <= b
    ensures Told(b, r)
  {
    assert forall m :: m in a ==> m in b;
  }

  /** What a request that exists already keeps when a call does not touch it. */
  lemma UntouchedKept(s: State, t: State, r: Request)
    requires Bounded(r) && WasFresh(s, r) && Told(s.outbox, r) && LedgersGrow(s, t) && s.outbox <= t.outbox
    ensures Bounded(r) && WasFresh(t, r) && Told(t.outbox, r)
  {
    hide Told, Bounded;
    ToldLater(s.outbox, t.outbox, r);
  }

  /** A new request is bounded, fresh if reused, and its first message is sent. */
  lemma OpenedKept(s: State, book: P.Book, env: Env, value: nat, a: CreateArgs)
    requires IdsOk(s) && FactsOk(s) && RequestsOk(s) && ResolutionsOk(s)
    requires CreateRequest(s, book, env, value, a).Ok?
    ensures var t, id := CreateRequest(s, book, env, value, a).state, s.nextRequest;
            id in t.requests && Bounded(t.requests[id]) && WasFresh(t, t.requests[id]) && Told(t.outbox, t.requests[id])
  {
    hide FactsOk, RequestsOk, ResolutionsOk, CreateRequest, Asked, Bounded, IdsOk;
    Opens(s, book, env, value, a);
    CreateAddsOne(s, book, env, value, a);
    var t, id := CreateRequest(s, book, env, value, a).state, s.nextRequest;
    var r := t.requests[id];
    if Answerable(s, r, env.now) {
      HeadStored(s, r.factKey);
      if r.callbackTarget != ZERO { assert t.outbox[|s.outbox|].Callback?; }
    } else {
      assert t.outbox[|s.outbox|] == ResolveRequest(r.assignedResolver, r.id, 1);
    }
  }

  /** A fact's cached head is a stored resolution of that fact. */
  lemma HeadStored(s: State, key: Digest)
    requires FactsOk(s) && key in s.facts
    ensures var f := s.facts[key];
            && f.currentResolution in s.resolutions
            && var res := s.resolutions[f.currentResolution];
            && res.factKey == key && res.outcome == f.currentOutcome
            && res.committedAt == f.resolvedAt && res.validUntil == f.validUntil
  {
    hide FactsOk, HeadIndex;
    GoodHead(s, key);
  }

  lemma RetryTells(s: State, env: Env, value: nat, id: nat)
    requires IdsOk(s) && Retry(s, env, value, id).Ok? && Told(s.outbox, s.requests[id])
    ensures Told(Retry(s, env, value, id).state.outbox, Retry(s, env, value, id).state.requests[id])
  {
    hide Credit, IdsOk;
    var t := Retry(s, env, value, id).state;
    ToldLater(s.outbox, t.outbox, s.requests[id]);
    var m := t.outbox[|s.outbox|];
    assert s.requests[id].id == id by { IdIs(s, id); }
    assert m == ResolveRequest(t.requests[id].assignedResolver, id, t.requests[id].activeAttempt) && m in t.outbox;
  }

  lemma IdIs(s: State, id: nat)
    requires IdsOk(s) && id in s.requests
    ensures s.requests[id].id == id
  {
  }

  lemma CommitTells(s: State, env: Env, c: CommitArgs)
    requires IdsOk(s) && Commit(s, env, c).Ok? && Told(s.outbox, s.requests[c.requestId])
    ensures Told(Commit(s, env, c).state.outbox, Commit(s, env, c).state.requests[c.requestId])
  {
    hide NewResolution, NextFact, FactOpt, ParseOutcome, ParseDiagnostic, Strip, IdsOk, CallbackIdOf;
    var t := Commit(s, env, c).state;
    IdIs(s, c.requestId);
    CommitSends(s, env, c);
    ToldLater(s.outbox, t.outbox, s.requests[c.requestId]);
    if s.requests[c.requestId].callbackTarget != ZERO {
      var m := t.outbox[|s.outbox|];
      assert m.Callback? && m.requestId == c.requestId && m in t.outbox;
    }
  }

  lemma QuietTells(a: seq<Message>, b: seq<Message>, r: Request, q: Request)
    requires Told(a, r) && a <= b && SameIdentity(r, q) && q.activeAttempt == r.activeAttempt
    requires q.status == r.status || (q.status == Cancelled && r.status != Reused)
    ensures Told(b, q)
  {
    ToldLater(a, b, r);
  }

  /** A call that moves a request sends what the move asks for. */
  lemma MovedTells(s: State, book: P.Book, env: Env, call: Call)
    requires IdsOk(s) && RequestsOk(s) && !Creates(call) && Execute(s, book, env, call).Ok?
    requires OneMoves(s, Step(s, book, env, call), call) && Told(s.outbox, s.requests[Touched(call)])
    ensures Told(Step(s, book, env, call).outbox, Step(s, book, env, call).requests[Touched(call)])
  {
    hide IdsOk, RequestsOk, Told, Retry, Commit, CreateRequest, CallbackMessage;
    var t, id := Step(s, book, env, call), Touched(call);
    OutboxGrows(s, book, env, call);
    match call
    case RetryResolution(value, _) => RetryTells(s, env, value, id);
    case CommitResolution(commit) => CommitTells(s, env, commit);
    case CancelStale(_) => QuietTells(s.outbox, t.outbox, s.requests[id], t.requests[id]);
    case RequestCallbackRetry(_) => QuietTells(s.outbox, t.outbox, s.requests[id], t.requests[id]);
    case MarkCallbackResult(_, _) => QuietTells(s.outbox, t.outbox, s.requests[id], t.requests[id]);
  }

  /** Moves change neither what was asked nor whether the request was answered from the cache. */
  lemma MovedFresh(s: State, t: State, call: Call)
    requires OneMoves(s, t, call) && LedgersGrow(s, t)
    requires Bounded(s.requests[Touched(call)]) && WasFresh(s, s.requests[Touched(call)])
    ensures Bounded(t.requests[Touched(call)]) && WasFresh(t, t.requests[Touched(call)])
  {
  }

  lemma StepStored(c: Chain, env: Env, call: Call)
    requires Good(c) && env.sender != ZERO && StoredOk(c.reg)
    ensures StoredOk(Step(c.reg, c.book, env, call))
  {
    hide Good, Execute, IdsOk, RequestsOk, ResolutionsOk, FactsOk, OutboxOk, Bounded, WasFresh, Told, LedgersGrow,
         OneMoves;
    var s, t := c.reg, Step(c.reg, c.book, env, call);
    GoodParts(c);
    OutboxGrows(s, c.book, env, call);
    StepLedgers(s, c.book, env, call);
    if t.requests == s.requests {
      forall id | id in t.requests
        ensures Bounded(t.requests[id]) && WasFresh(t, t.requests[id]) && Told(t.outbox, t.requests[id])
      {
        UntouchedKept(s, t, s.requests[id]);
      }
    } else if Creates(call) {
      CreationKept(s, c.book, env, call);
    } else {
      Movement(s, c.book, env, call);
      MovedKept(s, c.book, env, call);
    }
  }

  lemma MovedKept(s: State, book: P.Book, env: Env, call: Call)
    requires IdsOk(s) && RequestsOk(s) && !Creates(call) && Execute(s, book, env, call).Ok? && StoredOk(s)
    requires OneMoves(s, Step(s, book, env, call), call) && LedgersGrow(s, Step(s, book, env, call))
    ensures StoredOk(Step(s, book, env, call))
  {
    hide Step, Execute, IdsOk, RequestsOk, Bounded, WasFresh, Told, LedgersGrow, Moves;
    var t, moved := Step(s, book, env, call), Touched(call);
    MovedTells(s, book, env, call);
    MovedFresh(s, t, call);
    OutboxGrows(s, book, env, call);
    forall id | id in t.requests
      ensures Bounded(t.requests[id]) && WasFresh(t, t.requests[id]) && Told(t.outbox, t.requests[id])
    {
      if id != moved { UntouchedKept(s, t, s.requests[id]); }
    }
  }

  lemma CreationKept(s: State, book: P.Book, env: Env, call: Call)
    requires IdsOk(s) && RequestsOk(s) && ResolutionsOk(s) && FactsOk(s) && Creates(call) && StoredOk(s)
    requires Step(s, book, env, call) != s
    ensures StoredOk(Step(s, book, env, call))
  {
    hide CreateRequest, IdsOk, RequestsOk, ResolutionsOk, FactsOk, Bounded, WasFresh, Told, LedgersGrow, ArgsOf, Strip;
    var t := Step(s, book, env, call);
    CreationAddsOne(s, book, env, call);
    OutboxGrows(s, book, env, call);
    StepLedgers(s, book, env, call);
    match call {
      case RequestFact(value, args) => OpenedKept(s, book, env, value, args);
      case Refresh(value, key, seeds, callback) =>
        var prev := s.requests[s.facts[key].currentRequest];
        var urls := if seeds.Some? then seeds.value else prev.seeds;
        OpenedKept(s, book, env, value, ArgsOf(prev, urls, callback, []));
      case Reassessment(value, key, extras, notes, callback) =>
        var prev := s.requests[s.facts[key].currentRequest];
        OpenedKept(s, book, env, value, ArgsOf(prev, prev.seeds, callback, extras));
    }
    forall id | id in t.requests
      ensures Bounded(t.requests[id]) && WasFresh(t, t.requests[id]) && Told(t.outbox, t.requests[id])
    {
      if id != s.nextRequest { UntouchedKept(s, t, s.requests[id]); }
    }
  }

  lemma {:induction false} RunStored(c: Chain, actions: seq<Action>, json: Json)
    requires Good(c) && StoredOk(c.reg) && forall a :: a in actions ==> Signed(a)
    ensures Good(Run(c, actions, json)) && StoredOk(Run(c, actions, json).reg)
  {
    hide Good, StoredOk, Step, P.Step;
    if |actions| > 0 {
      var front, last := actions[..|actions| - 1], actions[|actions| - 1];
      RunStored(c, front, json);
      var mid := Run(c, front, json);
      ActKeeps(mid, last, json);
      if last.OnRegistry? { StepStored(mid, last.env, last.call); }
    }
  }

  lemma Stored(cfg: Config, owner: Address, actions: seq<Action>, json: Json, c: Chain)
    requires Reaches(cfg, owner, actions, json, c)
    ensures Good(c) && StoredOk(c.reg)
  {
    hide Good, Run;
    InitialGood(cfg, owner);
    RunStored(Chain(Initial(cfg), P.Initial(owner)), actions, json);
  }

  /**
   In every reachable chain: a request answered from the cache asked for reuse and was answered by
   a boolean resolution of its own fact that was, when it was opened, immutable, or neither expired
   nor older than the time to live asked for.
  */
  lemma ReusedWasFresh(cfg: Config, owner: Address, actions: seq<Action>, json: Json, c: Chain, id: nat)
    requires Reaches(cfg, owner, actions, json, c) && id in c.reg.requests && c.reg.requests[id].status == Reused
    ensures var r := c.reg.requests[id];
            && r.reuseMode == ReuseIfFresh && r.currentResolution in c.reg.resolutions
            && var res := c.reg.resolutions[r.currentResolution];
            && res.factKey == r.factKey && (res.outcome == OutTrue || res.outcome == OutFalse)
            && (r.spec.mutability == Immutable
                || (r.createdAt <= res.validUntil && r.spec.ttlSeconds > 0
                    && r.createdAt <= res.committedAt + r.spec.ttlSeconds))
  {
    hide Reaches, Good, Bounded, Told;
    Stored(cfg, owner, actions, json, c);
    assert WasFresh(c.reg, c.reg.requests[id]);
  }

  /** In every reachable chain each attempt was sent to its resolver and each settled request called back. */
  lemma EverythingSent(cfg: Config, owner: Address, actions: seq<Action>, json: Json, c: Chain, id: nat)
    requires Reaches(cfg, owner, actions, json, c) && id in c.reg.requests
    ensures var r := c.reg.requests[id];
            && (r.status != Reused ==>
                  forall k: nat :: 1 <= k <= r.activeAttempt ==>
                    ResolveRequest(r.assignedResolver, id, k) in c.reg.outbox)
            && ((r.status == Resolved || r.status == Reused) && r.callbackTarget != ZERO ==>
                  exists m :: m in c.reg.outbox && m.Callback? && m.requestId == id)
  {
    hide Reaches, Good, StoredOk, IdsOk, RequestsOk, ResolutionsOk, FactsOk, OutboxOk;
    Stored(cfg, owner, actions, json, c);
    GoodParts(c);
    IdIs(c.reg, id);
    ToldAt(c.reg, id);
  }

  lemma ToldAt(s: State, id: nat)
    requires StoredOk(s) && id in s.requests
    ensures Told(s.outbox, s.requests[id])
  {
    hide Told, WasFresh, Bounded;
  }

  /** And each callback tells its consumer the request's resolution, field by field. */
  lemma CallbackTells(cfg: Config, owner: Address, actions: seq<Action>, json: Json, c: Chain, i: nat)
    requires Reaches(cfg, owner, actions, json, c) && i < |c.reg.outbox| && c.reg.outbox[i].Callback?
    ensures var m := c.reg.outbox[i];
            && m.requestId in c.reg.requests && m.resolutionId in c.reg.resolutions
            && var r, res := c.reg.requests[m.requestId], c.reg.resolutions[m.resolutionId];
            && m.to == r.callbackTarget && m.to != ZERO && m.factKey == r.factKey == res.factKey
            && m.resolutionId == r.currentResolution && m.outcome == res.outcome
            && m.resolvedAt == res.committedAt && m.validUntil == res.validUntil
            && m.callbackId == CallbackDigest(m.requestId, m.resolutionId, m.to)
  {
    hide Reaches, Good, ResolutionsOk, FactsOk;
    ReachableGood(cfg, owner, actions, json, c);
    GoodParts(c);
    var m := c.reg.outbox[i];
    assert MessageOk(c.reg, m);
    assert PointerOk(c.reg, c.reg.requests[m.requestId]);
  }

  // Who may move a request, and when

  function LastSent(r: Request): nat { if r.lastAttemptAt == 0 then r.createdAt else r.lastAttemptAt }

  /** Who cancels, and when a request is stale. */
  predicate MayCancel(s: State, env: Env, r: Request) {
    && r.status == Dispatched
    && (env.sender == r.requester || env.sender == s.cfg.owner || env.sender == s.cfg.guardian)
    && env.now >= LastSent(r) + s.cfg.staleAfter
  }

  predicate MayRetry(s: State, env: Env, value: nat, r: Request) {
    && r.status == Dispatched && (env.sender == r.requester || env.sender == s.cfg.owner)
    && r.attemptCount < r.maxAttempts && env.now >= r.retryAfter && value >= s.cfg.feePerAttempt
    && r.assignedResolver != ZERO && r.assignedResolver in s.cfg.enabled
  }

  /** What a commit must be to be recorded. */
  predicate MayCommit(env: Env, c: CommitArgs, r: Request) {
    && r.status == Dispatched && env.sender == r.assignedResolver && c.attemptId == r.activeAttempt
    && c.claimKey == r.claimKey && c.factKey == r.factKey && c.specHash == r.specHash && c.policyHash == r.policyHash
    && ParseOutcome(c.outcome).Some? && ParseDiagnostic(c.diagnostic).Some?
    && (IsBoolean(ParseOutcome(c.outcome).value) ==> ParseDiagnostic(c.diagnostic) == Some(NoDiagnostic))
    && |Strip(c.reasoning)| <= MAX_DESC && |Strip(c.resolverVersion)| <= 64 && |Strip(c.manifest)| <= MAX_MANIFEST
  }

  /** The request one more attempt makes of a dispatched one. */
  predicate OneMoreAttempt(s: State, env: Env, a: Request, b: Request) {
    b == a.(activeAttempt := a.activeAttempt + 1, attemptCount := a.attemptCount + 1, lastAttemptAt := env.now,
            retryAfter := env.now + s.cfg.retryDelay, feePaid := a.feePaid + s.cfg.feePerAttempt)
  }

  predicate Cancels(a: Request, b: Request) { a.status == Dispatched && b.status == Cancelled }
  predicate Retries(a: Request, b: Request) { b.activeAttempt > a.activeAttempt }
  predicate Resolves(a: Request, b: Request) { a.status == Dispatched && b.status == Resolved }

  lemma CancelExact(s: State, env: Env, id: nat)
    requires IdsOk(s) && RequestsOk(s) && id in s.requests
    ensures var t := if Cancel(s, env, id).Ok? then Cancel(s, env, id).state else s;
            && id in t.requests && !Retries(s.requests[id], t.requests[id]) && !Resolves(s.requests[id], t.requests[id])
            && (Cancels(s.requests[id], t.requests[id]) <==> MayCancel(s, env, s.requests[id]))
  {
    hide IdentityOk, PointerOk, Credit;
    assert LifecycleOk(s.requests[id]);
  }

  lemma RetryExact(s: State, env: Env, value: nat, id: nat)
    requires IdsOk(s) && RequestsOk(s) && id in s.requests
    ensures var t := if Retry(s, env, value, id).Ok? then Retry(s, env, value, id).state else s;
            && id in t.requests && !Cancels(s.requests[id], t.requests[id]) && !Resolves(s.requests[id], t.requests[id])
            && (Retries(s.requests[id], t.requests[id]) <==> MayRetry(s, env, value, s.requests[id]))
            && (Retries(s.requests[id], t.requests[id]) ==> OneMoreAttempt(s, env, s.requests[id], t.requests[id]))
  {
    hide IdentityOk, PointerOk, Credit;
    assert LifecycleOk(s.requests[id]);
  }

  lemma CommitExact(s: State, env: Env, c: CommitArgs)
    requires IdsOk(s) && RequestsOk(s) && c.requestId in s.requests
    ensures var t := if Commit(s, env, c).Ok? then Commit(s, env, c).state else s;
            && c.requestId in t.requests
            && !Cancels(s.requests[c.requestId], t.requests[c.requestId])
            && !Retries(s.requests[c.requestId], t.requests[c.requestId])
            && (Resolves(s.requests[c.requestId], t.requests[c.requestId]) <==>
                  MayCommit(env, c, s.requests[c.requestId]))
  {
    hide IdentityOk, PointerOk, NewResolution, NextFact, FactOpt, ParseOutcome, ParseDiagnostic, CallbackMessage, Strip;
    assert LifecycleOk(s.requests[c.requestId]);
  }

  lemma OthersStay(s: State, book: P.Book, env: Env, call: Call, id: nat)
    requires IdsOk(s) && id in s.requests
    requires LifecycleCall(call) ==> Touched(call) != id
    ensures var t := Step(s, book, env, call);
            && id in t.requests && t.requests[id] == s.requests[id].(callbackStatus := t.requests[id].callbackStatus)
  {
    hide Execute, CreateRequest;
    if Creates(call) { CreationAddsOne(s, book, env, call); } else { Movement(s, book, env, call); }
  }

  predicate LifecycleCall(call: Call) { call.RetryResolution? || call.CancelStale? || call.CommitResolution? }

  /**
   Whatever is called: a request is cancelled exactly by its requester, the owner or the guardian
   asking for it once it is stale; it gets another attempt exactly when its requester or the owner asks
   for one, pays for it, has attempts left and has waited; and it is resolved exactly by a bounded and
   well-formed commit of its assigned resolver, for its active attempt and with its bindings.
  */
  lemma WhoMoves(cfg: Config, owner: Address, actions: seq<Action>, json: Json, c: Chain, env: Env, call: Call,
                 id: nat)
    requires Reaches(cfg, owner, actions, json, c) && id in c.reg.requests
    ensures var s, t := c.reg, Step(c.reg, c.book, env, call);
            && id in t.requests
            && var a, b := s.requests[id], t.requests[id];
            && (Cancels(a, b) <==> call == CancelStale(id) && MayCancel(s, env, a))
            && (Retries(a, b) <==> call.RetryResolution? && call.id == id && MayRetry(s, env, call.value, a))
            && (Retries(a, b) ==> OneMoreAttempt(s, env, a, b))
            && (Resolves(a, b) <==>
                  call.CommitResolution? && call.commit.requestId == id && MayCommit(env, call.commit, a))
  {
    hide Reaches, Good, IdsOk, RequestsOk, ResolutionsOk, FactsOk, OutboxOk, CreateRequest, RefreshFact, Reassess,
         Retry, Cancel, Commit, CallbackRetry, MarkCallback, Withdraw, MayCancel, MayRetry, MayCommit, OneMoreAttempt;
    ReachableGood(cfg, owner, actions, json, c);
    GoodParts(c);
    if LifecycleCall(call) && Touched(call) == id {
      match call
      case RetryResolution(value, _) => RetryExact(c.reg, env, value, id);
      case CancelStale(_) => CancelExact(c.reg, env, id);
      case CommitResolution(commit) => CommitExact(c.reg, env, commit);
    } else {
      OthersStay(c.reg, c.book, env, call, id);
    }
  }

  /**
   The callback mark of a settled request moves only when its consumer reports, or when its requester
   or the owner has the callback sent again after a dispatch or a failure.
  */
  lemma WhoMarks(cfg: Config, owner: Address, actions: seq<Action>, json: Json, c: Chain, env: Env, call: Call,
                 id: nat)
    requires Reaches(cfg, owner, actions, json, c) && id in c.reg.requests
    requires c.reg.requests[id].status == Resolved || c.reg.requests[id].status == Reused
    ensures var s, t := c.reg, Step(c.reg, c.book, env, call);
            && id in t.requests
            && var a, b := s.requests[id], t.requests[id];
            && b == a.(callbackStatus := b.callbackStatus)
            && (b.callbackStatus != a.callbackStatus ==>
                  || (call.MarkCallbackResult? && call.id == id && env.sender == a.callbackTarget
                      && b.callbackStatus == if call.succeeded then Acknowledged else FailedReported)
                  || (call == RequestCallbackRetry(id) && (env.sender == a.requester || env.sender == s.cfg.owner)
                      && a.callbackStatus == FailedReported && b.callbackStatus == CallbackDispatched))
  {
    hide Reaches, Good, RequestsOk, ResolutionsOk, FactsOk, OutboxOk, CreateRequest, RefreshFact, Reassess, Retry,
         Cancel, Commit, Withdraw, CallbackMessage;
    ReachableGood(cfg, owner, actions, json, c);
    GoodParts(c);
    if Creates(call) {
      CreationAddsOne(c.reg, c.book, env, call);
    } else {
      Movement(c.reg, c.book, env, call);
    }
  }
}
