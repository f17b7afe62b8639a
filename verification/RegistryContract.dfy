/**
 The registry as the contract writes it: fields updated step by step, every update undone
 when a later check reverts. Each method is proved to be the transaction of module Registry.
*/
module RegistryContract {
  import opened Common
  import opened Text
  import opened Digests
  import opened Registry
  import P = PolicyRegistry
  import L = RegistryLife

  datatype Result = Success(value: nat) | Failure(error: Error)

  /** The outcome of a transaction: its state and value, or its error and no change. */
  ghost predicate Performs(before: State, after: State, r: Result, tx: Tx) {
    match tx
    case Ok(state, value) => after == state && r == Success(value)
    case Revert(error) => after == before && r == Failure(error)
  }

  class EvidraRegistry {
    var cfg: Config
    var nextRequest: nat
    var nextResolution: nat
    var reusedCount: nat
    var requests: map<nat, Request>
    var resolutions: map<nat, Resolution>
    var facts: map<Digest, Fact>
    var history: map<Digest, seq<nat>>
    var credits: map<Address, nat>
    var received: nat
    var withdrawn: nat
    var outbox: seq<Message>

    ghost function Now(): State
      reads this
    {
      State(cfg, nextRequest, nextResolution, reusedCount, requests, resolutions, facts, history,
            credits, received, withdrawn, outbox)
    }

    constructor (config: Config)
      ensures Now() == Initial(config)
    {
      cfg := config;
      nextRequest, nextResolution, reusedCount := 1, 1, 0;
      requests, resolutions, facts, history, credits := map[], map[], map[], map[], map[];
      received, withdrawn, outbox := 0, 0, [];
    }

    method CreditAccount(who: Address, amount: nat)
      modifies this`credits
      ensures credits == Credit(old(credits), who, amount)
    {
      if amount == 0 || who == ZERO { return; }
      var current := if who in credits then credits[who] else 0;
      credits := credits[who := current + amount];
    }

    /** Takes the attached value, keeping `required` and crediting the surplus to the sender. */
    method TakePayment(sender: Address, value: nat, required: nat) returns (ok: bool)
      modifies this`credits, this`received
      ensures ok <==> value >= required
      ensures ok ==> Now() == Receive(old(Now()), sender, value, required)
      ensures !ok ==> Now() == old(Now())
    {
      if value < required { return false; }
      received := received + value;
      var extra := value - required;
      if extra > 0 { CreditAccount(sender, extra); }
      ok := true;
    }

    method EmitCallback(r: Request, resolutionId: nat, out: Outcome, resolvedAt: nat, validUntil: nat)
      returns (mark: CallbackStatus)
      modifies this`outbox
      ensures mark == if r.callbackTarget == ZERO then NotRequested else CallbackDispatched
      ensures outbox == old(outbox) + if r.callbackTarget == ZERO then [] else
                          [CallbackMessage(r, resolutionId, out, resolvedAt, validUntil)]
    {
      if r.callbackTarget == ZERO { return NotRequested; }
      var id := CallbackIdOf(r.id, resolutionId, r.callbackTarget);
      outbox := outbox + [Callback(r.callbackTarget, r.id, r.factKey, resolutionId, out,
                                   resolvedAt, validUntil, id)];
      mark := CallbackDispatched;
    }

    method Dispatch(env: Env, r: Request) returns (res: Result)
      modifies this`outbox, this`requests
      ensures Performs(old(Now()), Now(), res, Registry.Dispatch(old(Now()), env, r))
    {
      if r.assignedResolver == ZERO { return Failure(NoDefaultResolver); }
      if r.assignedResolver !in cfg.enabled { return Failure(ResolverDisabled); }
      outbox := outbox + [ResolveRequest(r.assignedResolver, r.id, r.activeAttempt)];
      var sent := r.(status := Dispatched);
      sent := sent.(lastAttemptAt := env.now);
      sent := sent.(retryAfter := sent.lastAttemptAt + cfg.retryDelay);
      requests := requests[r.id := sent];
      res := Success(r.id);
    }

    method CreateRequest(book: P.Book, env: Env, value: nat, a: CreateArgs) returns (res: Result)
      modifies this
      ensures Performs(old(Now()), Now(), res, Registry.CreateRequest(old(Now()), book, env, value, a))
    {
      hide Norm, Strip, CheckArgs, ClaimKeyOf, SpecHashOf, FactKeyOf, Credit, LoadPolicy, Quote,
           StoreReused, FreshnessAllows;
      if cfg.paused { return Failure(Paused); }
      var c := CheckArgs(a, cfg.maxSeedUrls, env.validUrl);
      if c.Failed? { return Failure(c.error); }
      var policy := LoadPolicy(book, c.policyId, a.policyVersion);
      if policy.NotLoaded? { return Failure(policy.error); }
      var claimKey := ClaimKeyOf(c.spec);
      var specHash := SpecHashOf(c.spec, c.seeds);
      var factKey := FactKeyOf(claimKey, policy.hash, c.spec.schemaVersion, a.template.hash);
      var fact := if factKey in facts then Some(facts[factKey]) else None;
      var reuseHit := CanReuse(fact, policy.hash, c.spec.schemaVersion, c.mode, c.spec.ttlSeconds,
                               a.template.hash, env.now);
      var fee := Quote(cfg, reuseHit);
      var savedCredits, savedReceived := credits, received;
      var paid := TakePayment(env.sender, value, fee);
      if !paid { return Failure(FeeInsufficient); }
      var resolver := cfg.defaultResolver;
      if resolver == ZERO || resolver !in cfg.enabled {
        credits, received := savedCredits, savedReceived;   // the revert undoes the payment
        return Failure(if resolver == ZERO then NoDefaultResolver else ResolverDisabled);
      }
      var rid := nextRequest;
      nextRequest := rid + 1;
      var req := Request(rid, env.sender, claimKey, factKey, specHash, policy.hash, c.policyId,
                         a.policyVersion, resolver, env.now, Pending, 1, 0, 0, cfg.maxAttempts, 0,
                         a.callbackTarget, NotRequested, c.mode, fee, c.spec, c.seeds,
                         c.supplementals, 0, a.template);
      if reuseHit {
        AnswerFromCache(req);
        return Success(rid);
      }
      req := req.(attemptCount := 1);
      res := Dispatch(env, req);
    }

    /** Settles a new request at once with the canonical resolution of its fact. */
    method AnswerFromCache(r: Request)
      requires r.factKey in facts
      modifies this`requests, this`outbox, this`reusedCount
      ensures Now() == StoreReused(old(Now()), r)
    {
      var f := facts[r.factKey];
      var req := r.(status := Reused);
      req := req.(currentResolution := f.currentResolution);
      var mark := EmitCallback(req, f.currentResolution, f.currentOutcome, f.resolvedAt, f.validUntil);
      req := req.(callbackStatus := mark);
      requests := requests[req.id := req];
      reusedCount := reusedCount + 1;
    }

    method RefreshFact(book: P.Book, env: Env, value: nat, key: Digest, seeds: Option<seq<string>>,
                       callback: Address) returns (res: Result)
      modifies this
      ensures Performs(old(Now()), Now(), res,
                       Registry.RefreshFact(old(Now()), book, env, value, key, seeds, callback))
    {
      hide Registry.CreateRequest, ArgsOf;
      if cfg.paused { return Failure(Paused); }
      if key !in facts { return Failure(UnknownFact); }
      var fact := facts[key];
      if fact.mutability != MutableTtl { return Failure(AlreadyResolvedImmutable); }
      if fact.currentRequest !in requests { return Failure(UnknownRequest); }
      var prev := requests[fact.currentRequest];
      var urls := if seeds.Some? then seeds.value else prev.seeds;
      res := CreateRequest(book, env, value, ArgsOf(prev, urls, callback, []));
    }

    method RequestReassessment(book: P.Book, env: Env, value: nat, key: Digest, extras: seq<string>,
                               notes: string, callback: Address) returns (res: Result)
      modifies this
      ensures Performs(old(Now()), Now(), res,
                       Reassess(old(Now()), book, env, value, key, extras, notes, callback))
    {
      hide Registry.CreateRequest, ArgsOf, Strip;
      if cfg.paused { return Failure(Paused); }
      if |Strip(notes)| > MAX_DESC { return Failure(InvalidParam); }
      if key !in facts { return Failure(UnknownFact); }
      if facts[key].currentRequest !in requests { return Failure(UnknownRequest); }
      var prev := requests[facts[key].currentRequest];
      res := CreateRequest(book, env, value, ArgsOf(prev, prev.seeds, callback, extras));
    }

    method RetryResolution(env: Env, value: nat, id: nat) returns (res: Result)
      modifies this
      ensures Performs(old(Now()), Now(), res, Retry(old(Now()), env, value, id))
    {
      hide Credit;
      if id !in requests { return Failure(UnknownRequest); }
      var req := requests[id];
      if env.sender != req.requester && env.sender != cfg.owner { return Failure(Unauthorized); }
      if req.status != Pending && req.status != Dispatched { return Failure(NothingToRetry); }
      if req.attemptCount >= req.maxAttempts { return Failure(MaxAttemptsReached); }
      if env.now < req.retryAfter { return Failure(NotStale); }
      var savedCredits, savedReceived := credits, received;
      var paid := TakePayment(env.sender, value, cfg.feePerAttempt);
      if !paid { return Failure(FeeInsufficient); }
      req := req.(feePaid := req.feePaid + cfg.feePerAttempt);
      req := req.(activeAttempt := req.activeAttempt + 1);
      req := req.(attemptCount := req.attemptCount + 1);
      req := req.(status := Pending);
      res := Dispatch(env, req);
      if res.Failure? { credits, received := savedCredits, savedReceived; }
    }

    method CancelStaleRequest(env: Env, id: nat) returns (res: Result)
      modifies this
      ensures Performs(old(Now()), Now(), res, Cancel(old(Now()), env, id))
    {
      if id !in requests { return Failure(UnknownRequest); }
      var req := requests[id];
      if env.sender != req.requester && env.sender != cfg.owner && env.sender != cfg.guardian {
        return Failure(Unauthorized);
      }
      if req.status != Pending && req.status != Dispatched { return Failure(NothingToRetry); }
      var last := req.lastAttemptAt;
      if last == 0 { last := req.createdAt; }
      if env.now < last + cfg.staleAfter { return Failure(NotStale); }
      req := req.(status := Cancelled);
      if req.feePaid > 0 {
        CreditAccount(req.requester, req.feePaid);
        req := req.(feePaid := 0);
      }
      requests := requests[id := req];
      res := Success(id);
    }

    method AppendHistory(key: Digest, id: nat)
      modifies this`history
      ensures history == old(history)[key := (if key in old(history) then old(history)[key] else []) + [id]]
    {
      var ids := if key in history then history[key] else [];
      history := history[key := ids + [id]];
    }

    method CommitResolution(env: Env, c: CommitArgs) returns (res: Result)
      modifies this
      ensures Performs(old(Now()), Now(), res, Commit(old(Now()), env, c))
    {
      hide Strip, ParseOutcome, ParseDiagnostic, PrevLatest, Record, ValidUntil;
      if c.requestId !in requests { return Failure(UnknownRequest); }
      var req := requests[c.requestId];
      if env.sender != req.assignedResolver { return Failure(NotAssignedResolver); }
      if req.status != Pending && req.status != Dispatched { return Failure(NothingToRetry); }
      if c.attemptId != req.activeAttempt { return Failure(StaleAttempt); }
      if c.claimKey != req.claimKey || c.factKey != req.factKey { return Failure(BindingMismatch); }
      if c.specHash != req.specHash || c.policyHash != req.policyHash { return Failure(BindingMismatch); }
      var out, diag := ParseOutcome(c.outcome), ParseDiagnostic(c.diagnostic);
      if out.None? || diag.None? { return Failure(InvalidParam); }
      if Boolean(out.value) && diag.value != NoDiagnostic { return Failure(InvalidParam); }
      if |Strip(c.reasoning)| > MAX_DESC || |Strip(c.resolverVersion)| > 64 { return Failure(InvalidParam); }
      if |Strip(c.manifest)| > MAX_MANIFEST { return Failure(InvalidParam); }
      var rec := BuildResolution(env.now, req, c, out.value, diag.value);
      RecordResolution(req, rec);
      res := Success(rec.id);
    }

    method RecordResolution(r: Request, rec: Resolution)
      modifies this
      ensures Now() == Record(old(Now()), r, rec)
    {
      hide Filed, Registry.EmitCallback;
      FileResolution(r, rec);
      var req := r.(status := Resolved);
      req := req.(currentResolution := rec.id);
      Answer(req, rec);
    }

    method FileResolution(r: Request, rec: Resolution)
      modifies this`nextResolution, this`resolutions, this`history, this`facts
      ensures Now() == Filed(old(Now()), r, rec)
    {
      hide NextFact;
      nextResolution := nextResolution + 1;
      resolutions := resolutions[rec.id := rec];
      AppendHistory(r.factKey, rec.id);
      UpdateFact(r, rec);
    }

    /** Stores a settled request with the callback of its resolution sent. */
    method Answer(r: Request, rec: Resolution)
      modifies this`requests, this`outbox
      ensures Now() == Registry.EmitCallback(old(Now()), r, rec.id, rec.outcome, rec.committedAt, rec.validUntil)
    {
      var mark := EmitCallback(r, rec.id, rec.outcome, rec.committedAt, rec.validUntil);
      var req := r.(callbackStatus := mark);
      requests := requests[req.id := req];
    }

    /** The record of a new attempt: it supersedes the fact's latest one. */
    method BuildResolution(now: nat, r: Request, c: CommitArgs, out: Outcome, diag: Diagnostic)
      returns (rec: Resolution)
      ensures rec == NewResolution(Now(), now, r, c, out, diag)
    {
      hide Strip;
      var fact := if r.factKey in facts then Some(facts[r.factKey]) else None;
      var prevId := 0;
      if fact.Some? {
        prevId := fact.value.latestResolution;
        if prevId == 0 { prevId := fact.value.currentResolution; }
      }
      var prev := if prevId > 0 && prevId in resolutions then Some(resolutions[prevId]) else None;
      var supersedes := if prev.Some? then prev.value.id else 0;
      var version := if prev.Some? then prev.value.version + 1 else 1;
      var until := c.validUntil;
      if r.spec.mutability == Immutable {
        until := 0;
      } else if until == 0 {
        until := now + r.spec.ttlSeconds;
      }
      rec := Resolution(nextResolution, r.id, c.attemptId, r.claimKey, r.factKey, r.specHash,
                        r.policyHash, out, diag, c.policySatisfied, Strip(c.resolverVersion),
                        ManifestDigest(Strip(c.manifest)), Strip(c.reasoning), now, now, until,
                        version, supersedes, r.template.templateId, r.template.version,
                        r.template.hash);
    }

    /** Moves the canonical head, or keeps it and only notes the newer attempt. */
    method UpdateFact(r: Request, rec: Resolution)
      modifies this`facts
      ensures facts == old(facts)[r.factKey := NextFact(
                         if r.factKey in old(facts) then Some(old(facts)[r.factKey]) else None, r, rec)]
    {
      var fact := if r.factKey in facts then Some(facts[r.factKey]) else None;
      var advance := Advances(if fact.None? then None else Some(fact.value.currentOutcome),
                              rec.outcome, rec.policySatisfied);
      var current, request, outcome := rec.id, r.id, rec.outcome;
      var resolvedAt, validUntil := rec.committedAt, rec.validUntil;
      var headVersion, template := rec.version, r.template.hash;
      if !advance {
        var f := fact.value;
        current, request, outcome := f.currentResolution, f.currentRequest, f.currentOutcome;
        resolvedAt, validUntil, headVersion := f.resolvedAt, f.validUntil, f.version;
        if f.templateHash != NoDigest { template := f.templateHash; }
      }
      facts := facts[r.factKey := Fact(r.factKey, r.claimKey, r.policyHash, r.spec.schemaVersion,
                                       r.spec.mutability, current, rec.id, request, outcome,
                                       resolvedAt, validUntil, headVersion, template)];
    }

    method RequestCallbackRetry(env: Env, id: nat) returns (res: Result)
      modifies this
      ensures Performs(old(Now()), Now(), res, CallbackRetry(old(Now()), env, id))
    {
      if id !in requests { return Failure(UnknownRequest); }
      var req := requests[id];
      if env.sender != req.requester && env.sender != cfg.owner { return Failure(Unauthorized); }
      if req.callbackTarget == ZERO { return Failure(InvalidParam); }
      if req.status != Resolved && req.status != Reused { return Failure(NothingToRetry); }
      if req.callbackStatus != CallbackDispatched && req.callbackStatus != FailedReported {
        return Failure(CallbackNotFailed);
      }
      if req.currentResolution !in resolutions { return Failure(UnknownResolution); }
      Answer(req, resolutions[req.currentResolution]);
      res := Success(id);
    }

    method MarkCallbackResult(env: Env, id: nat, succeeded: bool) returns (res: Result)
      modifies this`requests
      ensures Performs(old(Now()), Now(), res, MarkCallback(old(Now()), env, id, succeeded))
    {
      if id !in requests { return Failure(UnknownRequest); }
      var req := requests[id];
      if req.callbackTarget == ZERO { return Failure(InvalidParam); }
      if env.sender != req.callbackTarget { return Failure(Unauthorized); }
      if succeeded {
        req := req.(callbackStatus := Acknowledged);
      } else {
        req := req.(callbackStatus := FailedReported);
      }
      requests := requests[id := req];
      res := Success(id);
    }

    method WithdrawCredit(env: Env) returns (res: Result)
      modifies this`credits, this`withdrawn, this`outbox
      ensures Performs(old(Now()), Now(), res, Withdraw(old(Now()), env))
    {
      var amount := if env.sender in credits then credits[env.sender] else 0;
      if amount == 0 { return Failure(NoCredit); }
      credits := credits[env.sender := 0];
      outbox := outbox + [Transfer(env.sender, amount)];
      withdrawn := withdrawn + amount;
      res := Success(amount);
    }

    /** The paging view over a fact's history. */
    method GetResolutionHistory(key: Digest, offset: nat, limit: nat)
      returns (ok: bool, page: seq<nat>, total: nat)
      ensures ok <==> 0 < limit <= MAX_PAGE
      ensures var ids := if key in history then history[key] else [];
              ok ==> page == L.Page(ids, offset, limit) && total == |ids|
    {
      ok, page, total := 0 < limit <= MAX_PAGE, [], 0;
      if !ok { return; }
      var ids := if key in history then history[key] else [];
      total := |ids|;
      page := L.ReadPage(ids, offset, limit);
    }
  }
}
