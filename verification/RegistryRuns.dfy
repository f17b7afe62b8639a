/** Every call, successful or not, keeps the registry's invariant; so every run does. */
module RegistryRuns {
  import opened Common
  import opened Text
  import opened Digests
  import opened Sums
  import opened Seqs
  import opened Registry
  import opened RegistryInvariant
  import P = PolicyRegistry

  // Creation

  lemma CheckedIsClean(a: CreateArgs, maxSeeds: nat, validUrl: string -> bool)
    ensures var c := CheckArgs(a, maxSeeds, validUrl);
            c.Checked? ==> CleanSpec(c.spec) && Stripped(c.policyId) && KeptSeeds(c.seeds)
  {
    hide Norm, Strip;
    var c := CheckArgs(a, maxSeeds, validUrl);
    if c.Checked? {
      StripIdempotent(a.subject); StripIdempotent(a.predicate_); StripIdempotent(a.objectValue);
      StripIdempotent(a.qualifiers); StripIdempotent(a.temporal); StripIdempotent(a.description);
      StripIdempotent(a.schemaVersion); StripIdempotent(a.policyId);
      DistinctByIdempotent(a.seeds, Norm);
      SchemaStripped();
    }
  }

  lemma SchemaStripped()
    ensures Stripped(SCHEMA_V1)
  {
    StripNoSpaces(SCHEMA_V1);
  }

  /** The request that a successful creation stores, before callbacks and dispatch. */
  lemma NewRequestOk(s: State, env: Env, a: CreateArgs, c: Checked, policyHash: Digest, fee: nat)
    requires c.Checked? && c == CheckArgs(a, s.cfg.maxSeedUrls, env.validUrl)
    requires env.sender != ZERO
    ensures IdentityOk(NewRequest(s, env, a, c, policyHash, fee))
  {
    hide Norm, Strip, Stripped, CheckArgs, ClaimKeyOf, SpecHashOf, KeptSeeds, CleanSpec;
    CheckedIsClean(a, s.cfg.maxSeedUrls, env.validUrl);
    SchemaOfClean(c.spec);
  }

  lemma SchemaOfClean(spec: FactSpec)
    requires CleanSpec(spec)
    ensures Norm(spec.schemaVersion) == SCHEMA_V1
  {
  }

  /** The fact's cached head fields are those of a stored boolean resolution of that fact. */
  predicate ReusableFact(s: State, key: Digest) {
    && key in s.facts
    && var f := s.facts[key];
    && f.currentResolution in s.resolutions
    && var res := s.resolutions[f.currentResolution];
    && res.id == f.currentResolution && res.factKey == key
    && res.outcome == f.currentOutcome && Boolean(res.outcome)
    && res.committedAt == f.resolvedAt && res.validUntil == f.validUntil
  }

  lemma ReuseHitMeans(s: State, env: Env, a: CreateArgs, c: Checked, policyHash: Digest)
    requires Inv(s) && c.Checked? && ReuseHit(s, env, c, policyHash, a.template.hash)
    ensures ReusableFact(s, NewRequest(s, env, a, c, policyHash, 0).factKey)
  {
    hide Norm, Strip, ClaimKeyOf, SpecHashOf, RequestsOk, ResolutionsOk, CountsOk, MoneyOk, OutboxOk;
    var key := NewRequest(s, env, a, c, policyHash, 0).factKey;
    assert FactOk(s, key);
  }

  /** The reused request as it is stored. */
  function ReusedRequest(s: State, r: Request): Request
    requires r.factKey in s.facts
  {
    r.(status := Reused, currentResolution := s.facts[r.factKey].currentResolution,
       callbackStatus := if r.callbackTarget == ZERO then NotRequested else CallbackDispatched)
  }

  function DispatchedRequest(s: State, env: Env, r: Request): Request {
    r.(attemptCount := 1, status := Dispatched, lastAttemptAt := env.now,
       retryAfter := env.now + s.cfg.retryDelay)
  }

  lemma CreateKeeps(s: State, book: P.Book, env: Env, value: nat, a: CreateArgs)
    requires Inv(s) && BooksOk(s, book) && env.sender != ZERO && 1 <= s.cfg.maxAttempts
    requires CreateRequest(s, book, env, value, a).Ok?
    ensures var t := CreateRequest(s, book, env, value, a).state;
            Inv(t) && BooksOk(t, book)
  {
    hide CheckArgs, ReuseHit, P.GetPolicy, Inv, Quote, P.BookOk, IdentityOk, Dispatch, StoreReused,
         ClaimKeyOf, FactKeyOf, SpecHashOf;
    var t := CreateRequest(s, book, env, value, a).state;
    var c := CheckArgs(a, s.cfg.maxSeedUrls, env.validUrl);
    var loaded := LoadPolicy(book, c.policyId, a.policyVersion);
    var reuse := ReuseHit(s, env, c, loaded.hash, a.template.hash);
    var fee := Quote(s.cfg, reuse);
    var r := NewRequest(s, env, a, c, loaded.hash, fee);
    NewRequestOk(s, env, a, c, loaded.hash, fee);
    var stored;
    if reuse {
      ReuseHitMeans(s, env, a, c, loaded.hash);
      CreateReusedKeeps(s, t, env, value, r, fee);
      stored := ReusedRequest(s, r);
    } else {
      CreateDispatchedKeeps(s, t, env, value, r, fee);
      stored := DispatchedRequest(s, env, r);
    }
    assert PolicyBound(book, stored);
    assert t.requests == s.requests[r.id := stored];
  }

  lemma CreateDispatchedKeeps(s: State, t: State, env: Env, value: nat, r: Request, fee: nat)
    requires Inv(s) && value >= fee && env.sender != ZERO && 1 <= r.maxAttempts
    requires r.id == s.nextRequest && r.feePaid == fee && IdentityOk(r)
    requires r.activeAttempt == 1 && r.currentResolution == 0
    requires var tx := Dispatch(Receive(s, env.sender, value, fee).(nextRequest := s.nextRequest + 1),
                                env, r.(attemptCount := 1));
             tx.Ok? && t == tx.state
    ensures Inv(t) && t.requests == s.requests[r.id := DispatchedRequest(s, env, r)]
  {
    hide CleanSpec, ClaimKeyOf, SpecHashOf, FactKeyOf, KeptSeeds, Stripped, RequestsOk, ResolutionsOk,
         FactsOk, CountsOk, FeesHeld, OutboxOk, MapSum, Credit;
    var sent := DispatchedRequest(s, env, r);
    assert t.requests == s.requests[r.id := sent];
    AddKeeps(s, t, sent);
    PutFees(s.requests, r.id, sent);
    CreditSum(s.credits, env.sender, value - fee);
    AddKeepsOutbox(s, t, sent);
  }

  lemma CreateReusedKeeps(s: State, t: State, env: Env, value: nat, r: Request, fee: nat)
    requires value >= fee && r.factKey in s.facts
    requires t == StoreReused(Receive(s, env.sender, value, fee).(nextRequest := s.nextRequest + 1), r)
    requires r.id == s.nextRequest && r.feePaid == fee && env.sender != ZERO
    requires r.activeAttempt == 1 && r.attemptCount == 0
    requires IdentityOk(r) && ReusableFact(s, r.factKey) && Inv(s)
    ensures t.requests == s.requests[r.id := ReusedRequest(s, r)] && Inv(t)
  {
    hide IdentityOk, LifecycleOk, PointerOk, RequestsOk, ResolutionsOk, FactsOk, CountsOk,
         FeesHeld, OutboxOk, MapSum, Credit, StoreReused;
    var stored := ReusedRequest(s, r);
    ReusedStored(s, t, env, value, r, fee);
    AddKeeps(s, t, stored);
    PutFees(s.requests, r.id, stored);
    CreditSum(s.credits, env.sender, value - fee);
    ReusedOutbox(s, t, env, value, r, fee);
  }

  lemma ReusedStored(s: State, t: State, env: Env, value: nat, r: Request, fee: nat)
    requires r.id == s.nextRequest && value >= fee && ReusableFact(s, r.factKey)
    requires IdentityOk(r) && r.activeAttempt == 1 && r.attemptCount == 0
    requires t == StoreReused(Receive(s, env.sender, value, fee).(nextRequest := s.nextRequest + 1), r)
    ensures var stored := ReusedRequest(s, r);
            && t.requests == s.requests[r.id := stored] && SameLedgers(s, t)
            && t.nextRequest == s.nextRequest + 1 && t.reusedCount == s.reusedCount + 1
            && t.received == s.received + value && t.withdrawn == s.withdrawn
            && t.credits == Credit(s.credits, env.sender, value - fee)
            && IdentityOk(stored) && LifecycleOk(stored) && PointerOk(t, stored)
  {
    hide CleanSpec, ClaimKeyOf, SpecHashOf, FactKeyOf, KeptSeeds, Stripped, Credit;
  }

  lemma ReusedOutbox(s: State, t: State, env: Env, value: nat, r: Request, fee: nat)
    requires IdsOk(s) && OutboxOk(s) && value >= fee && r.id == s.nextRequest
    requires ReusableFact(s, r.factKey)
    requires t == StoreReused(Receive(s, env.sender, value, fee).(nextRequest := s.nextRequest + 1), r)
    ensures OutboxOk(t)
  {
    hide Credit;
    AddKeepsOutbox(s, t, ReusedRequest(s, r));
  }

  // Lifecycle of one request

  lemma RetryKeeps(s: State, env: Env, value: nat, id: nat)
    requires Inv(s) && env.sender != ZERO && Retry(s, env, value, id).Ok?
    ensures Inv(Retry(s, env, value, id).state)
  {
    hide CleanSpec, ClaimKeyOf, SpecHashOf, FactKeyOf, KeptSeeds, Stripped, ResolutionsOk, IdentityOk,
         PointerOk, FactsOk, CountsOk, FeesHeld, OutboxOk, MapSum, Credit;
    var t := Retry(s, env, value, id).state;
    var r, b := s.requests[id], t.requests[id];
    assert LifecycleOk(r);
    assert t.requests == s.requests[id := b];
    UpdateKeeps(s, t, b);
    PutFees(s.requests, id, b);
    CreditSum(s.credits, env.sender, value - s.cfg.feePerAttempt);
    UpdateKeepsOutbox(s, t, b);
  }

  function Balance(s: State, who: Address): nat { if who in s.credits then s.credits[who] else 0 }

  lemma CreditBalance(s: State, t: State, payee: Address, amount: nat)
    requires payee != ZERO && t.credits == Credit(s.credits, payee, amount)
    ensures forall who :: Balance(t, who) == Balance(s, who) + if who == payee then amount else 0
  {
  }

  /** A cancellation refunds the requester exactly the fees held, and nobody else anything. */
  lemma CancelKeeps(s: State, env: Env, id: nat)
    requires Inv(s) && Cancel(s, env, id).Ok?
    ensures Inv(Cancel(s, env, id).state)
    ensures var t, r := Cancel(s, env, id).state, s.requests[id];
            && t.requests == s.requests[id := r.(status := Cancelled, feePaid := 0)]
            && (forall who :: Balance(t, who) == Balance(s, who) + if who == r.requester then r.feePaid else 0)
            && SameLedgers(s, t) && t.outbox == s.outbox
  {
    hide Inv, IdentityOk, LifecycleOk, Credit, Balance;
    RequesterKnown(s, id);
    CreditBalance(s, Cancel(s, env, id).state, s.requests[id].requester, s.requests[id].feePaid);
    CancelKeepsAll(s, env, id);
  }

  lemma RequesterKnown(s: State, id: nat)
    requires Inv(s) && id in s.requests
    ensures s.requests[id].requester != ZERO && LifecycleOk(s.requests[id]) && s.requests[id].id == id
  {
    hide ResolutionsOk, FactsOk, CountsOk, MoneyOk, OutboxOk, LifecycleOk, CleanSpec, KeptSeeds, PointerOk;
    assert IdentityOk(s.requests[id]);
  }

  lemma CancelKeepsAll(s: State, env: Env, id: nat)
    requires Inv(s) && Cancel(s, env, id).Ok?
    ensures Inv(Cancel(s, env, id).state)
  {
    hide IdentityOk, ResolutionsOk, PointerOk, FactsOk, CountsOk, FeesHeld, OutboxOk, MapSum, Credit;
    var t := Cancel(s, env, id).state;
    var r, b := s.requests[id], t.requests[id];
    RequesterKnown(s, id);
    assert t.requests == s.requests[id := b];
    UpdateKeeps(s, t, b);
    PutFees(s.requests, id, b);
    CreditSum(s.credits, r.requester, r.feePaid);
    UpdateKeepsOutbox(s, t, b);
  }

  lemma MarkKeeps(s: State, env: Env, id: nat, succeeded: bool)
    requires Inv(s) && MarkCallback(s, env, id, succeeded).Ok?
    ensures Inv(MarkCallback(s, env, id, succeeded).state)
    ensures var t := MarkCallback(s, env, id, succeeded).state;
            id in t.requests
            && t == s.(requests := s.requests[id := s.requests[id].(
                                     callbackStatus := t.requests[id].callbackStatus)])
  {
    hide CleanSpec, ClaimKeyOf, SpecHashOf, FactKeyOf, KeptSeeds, Stripped, ResolutionsOk, IdentityOk,
         PointerOk, FactsOk, CountsOk, FeesHeld, OutboxOk, MapSum;
    var t := MarkCallback(s, env, id, succeeded).state;
    var b := t.requests[id];
    assert LifecycleOk(s.requests[id]);
    UpdateKeeps(s, t, b);
    PutFees(s.requests, id, b);
    UpdateKeepsOutbox(s, t, b);
  }

  lemma CallbackRetryKeeps(s: State, env: Env, id: nat)
    requires Inv(s) && CallbackRetry(s, env, id).Ok?
    ensures Inv(CallbackRetry(s, env, id).state)
    ensures s.requests[id].currentResolution in s.resolutions
            && CallbackRetry(s, env, id).state.outbox == s.outbox + [CallbackOf(s, s.requests[id])]
  {
    hide CleanSpec, ClaimKeyOf, SpecHashOf, FactKeyOf, KeptSeeds, Stripped, ResolutionsOk, IdentityOk,
         PointerOk, FactsOk, CountsOk, FeesHeld, OutboxOk, MapSum;
    var t := CallbackRetry(s, env, id).state;
    var b := t.requests[id];
    assert LifecycleOk(s.requests[id]);
    assert t.requests == s.requests[id := b];
    UpdateKeeps(s, t, b);
    PutFees(s.requests, id, b);
    UpdateKeepsOutbox(s, t, b);
  }

  lemma WithdrawKeeps(s: State, env: Env)
    requires Inv(s) && Withdraw(s, env).Ok?
    ensures Inv(Withdraw(s, env).state)
    ensures var t, paid := Withdraw(s, env).state, Withdraw(s, env).value;
            && paid == Balance(s, env.sender) > 0 && t.withdrawn == s.withdrawn + paid
            && t.outbox == s.outbox + [Transfer(env.sender, paid)]
            && (forall who :: Balance(t, who) == if who == env.sender then 0 else Balance(s, who))
            && SameLedgers(s, t) && t.requests == s.requests
  {
    hide RequestsOk, ResolutionsOk, FeesHeld, CountStatus, MapSum, FactOk, Chained;
    var t := Withdraw(s, env).state;
    MapSumUpdate(s.credits, env.sender, 0);
    MapSumBound(s.credits, env.sender);
    ConfigKeeps(s, t);
  }

  /** Nothing structural depends on the configuration or on the money. */
  lemma ConfigKeeps(s: State, t: State)
    requires Inv(s) && SameLedgers(s, t) && t.requests == s.requests
    requires t.nextRequest == s.nextRequest && t.reusedCount == s.reusedCount
    requires s.outbox <= t.outbox
    requires forall i :: |s.outbox| <= i < |t.outbox| ==> t.outbox[i].Transfer?
    ensures IdsOk(t) && RequestsOk(t) && ResolutionsOk(t) && FactsOk(t) && CountsOk(t) && OutboxOk(t)
  {
    hide IdentityOk, MapSum, CountStatus, LifecycleOk, Chained, FactOk, Bound, OutboxOk;
    SameOutbox(s, t);
    assert RequestsOk(t) by {
      forall id | id in t.requests ensures PointerOk(t, t.requests[id]) {
        assert PointerOk(s, s.requests[id]);
      }
    }
    assert ResolutionsOk(t) by {
      forall id | id in t.resolutions ensures OwnedOk(t, t.resolutions[id]) {
        assert OwnedOk(s, s.resolutions[id]);
      }
    }
    FactsKept(s, t);
  }

  lemma SameOutbox(s: State, t: State)
    requires OutboxOk(s) && SameLedgers(s, t) && t.requests == s.requests
    requires s.outbox <= t.outbox
    requires forall i :: |s.outbox| <= i < |t.outbox| ==> t.outbox[i].Transfer?
    ensures OutboxOk(t)
  {
    forall i | 0 <= i < |t.outbox| ensures MessageOk(t, t.outbox[i]) {
      if i < |s.outbox| { assert MessageOk(s, s.outbox[i]) && t.outbox[i] == s.outbox[i]; }
    }
  }
}
