/** What every committed transaction of the registry keeps. */
module RegistryInvariant {
  import opened Common
  import opened Text
  import opened Digests
  import opened Sums
  import opened Seqs
  import opened Registry
  import P = PolicyRegistry

  // Requests

  /** The part of a request fixed when it is created. */
  predicate SameIdentity(a: Request, b: Request) {
    b == a.(status := b.status, activeAttempt := b.activeAttempt, lastAttemptAt := b.lastAttemptAt,
            retryAfter := b.retryAfter, attemptCount := b.attemptCount,
            callbackStatus := b.callbackStatus, feePaid := b.feePaid,
            currentResolution := b.currentResolution)
  }

  predicate CleanSpec(s: FactSpec) {
    && Stripped(s.subject) && Stripped(s.predicate_) && Stripped(s.objectValue)
    && Stripped(s.qualifiers) && Stripped(s.temporal) && Stripped(s.description)
    && Stripped(s.schemaVersion) && s.schemaVersion != "" && Norm(s.schemaVersion) == SCHEMA_V1
  }

  predicate IdentityOk(r: Request) {
    && CleanSpec(r.spec)
    && Stripped(r.policyId)
    && r.claimKey == ClaimKeyOf(r.spec)
    && r.factKey == FactKeyOf(r.claimKey, r.policyHash, r.spec.schemaVersion, r.template.hash)
    && r.specHash == SpecHashOf(r.spec, r.seeds)
    && KeptSeeds(r.seeds)
    && r.requester != ZERO
  }

  /** A stored seed list repeats no URL, so parsing it again keeps it whole. */
  predicate KeptSeeds(seeds: seq<string>) {
    DistinctBy(seeds, Norm, {}) == seeds
  }

  predicate LifecycleOk(r: Request) {
    && r.status != Pending && r.status != FailedStatus
    && (if r.status == Reused then r.attemptCount == 0 && r.activeAttempt == 1
        else 1 <= r.attemptCount <= r.maxAttempts && r.activeAttempt == r.attemptCount)
    && (r.status == Cancelled ==> r.feePaid == 0)
    && (r.status == Cancelled || r.status == Dispatched ==> r.currentResolution == 0)
  }

  // Resolutions, histories and facts

  predicate Bound(res: Resolution, r: Request) {
    && res.requestId == r.id && res.attemptId == r.activeAttempt
    && res.claimKey == r.claimKey && res.factKey == r.factKey && res.specHash == r.specHash
    && res.policyHash == r.policyHash && res.templateHash == r.template.hash
    && (Boolean(res.outcome) ==> res.diagnostic == NoDiagnostic)
  }

  ghost predicate IdsOk(s: State) {
    && s.nextRequest >= 1 && s.nextResolution >= 1
    && (forall id :: id in s.requests <==> 1 <= id < s.nextRequest)
    && (forall id :: id in s.requests ==> s.requests[id].id == id)
    && (forall id :: id in s.resolutions <==> 1 <= id < s.nextResolution)
    && (forall id :: id in s.resolutions ==> s.resolutions[id].id == id)
  }

  predicate PointerOk(s: State, r: Request) {
    && (r.status == Resolved ==>
          r.currentResolution in s.resolutions && Bound(s.resolutions[r.currentResolution], r))
    && (r.status == Reused ==>
          && r.currentResolution in s.resolutions
          && s.resolutions[r.currentResolution].factKey == r.factKey
          && Boolean(s.resolutions[r.currentResolution].outcome))
  }

  predicate RequestsOk(s: State) {
    forall id :: id in s.requests ==>
      && IdentityOk(s.requests[id])
      && LifecycleOk(s.requests[id])
      && PointerOk(s, s.requests[id])
  }

  /** A resolution belongs to one resolved request, which points back at it. */
  predicate OwnedOk(s: State, res: Resolution) {
    && res.requestId in s.requests
    && s.requests[res.requestId].status == Resolved
    && s.requests[res.requestId].currentResolution == res.id
    && Bound(res, s.requests[res.requestId])
    && res.factKey in s.history && res.id in s.history[res.factKey]
  }

  predicate ResolutionsOk(s: State) {
    forall id :: id in s.resolutions ==> OwnedOk(s, s.resolutions[id])
  }

  /** The records behind a list of ids. */
  function Records(h: seq<nat>, m: map<nat, Resolution>): (rs: seq<Resolution>)
    requires forall i :: 0 <= i < |h| ==> h[i] in m
    ensures |rs| == |h|
  {
    seq(|h|, i requires 0 <= i < |h| => m[h[i]])
  }

  ghost predicate Chained(h: seq<nat>, m: map<nat, Resolution>, key: Digest) {
    && |h| > 0
    && (forall i :: 0 <= i < |h| ==> h[i] in m && m[h[i]].id == h[i] && m[h[i]].factKey == key)
    && (forall i, j :: 0 <= i < j < |h| ==> h[i] < h[j])
    && (forall i :: 0 <= i < |h| ==> m[h[i]].version == i + 1)
    && m[h[0]].supersedes == 0
    && (forall i, j :: 0 <= i < j < |h| && j == i + 1 ==> m[h[j]].supersedes == h[i])
  }

  /** Where the canonical head sits after folding the head rule over the records. */
  function HeadIndex(rs: seq<Resolution>): (i: nat)
    requires |rs| > 0
    ensures i < |rs|
  {
    var n := |rs| - 1;
    if n == 0 then 0
    else
      var prev := HeadIndex(rs[..n]);
      if Advances(Some(rs[prev].outcome), rs[n].outcome, rs[n].policySatisfied) then n else prev
  }

  predicate FactMatches(f: Fact, head: Resolution, last: Resolution) {
    && f.factKey == last.factKey && f.claimKey == last.claimKey
    && f.policyHash == last.policyHash && f.templateHash == last.templateHash
    && f.currentResolution == head.id && f.latestResolution == last.id
    && f.currentRequest == head.requestId && f.currentOutcome == head.outcome
    && f.resolvedAt == head.committedAt && f.validUntil == head.validUntil
    && f.version == head.version
  }

  ghost predicate FactOk(s: State, key: Digest)
    requires key in s.facts && key in s.history && Chained(s.history[key], s.resolutions, key)
  {
    var f, rs := s.facts[key], Records(s.history[key], s.resolutions);
    var last := rs[|rs| - 1];
    && FactMatches(f, rs[HeadIndex(rs)], last)
    && last.requestId in s.requests
    && f.schemaVersion == s.requests[last.requestId].spec.schemaVersion
    && f.mutability == s.requests[last.requestId].spec.mutability
  }

  ghost predicate FactsOk(s: State) {
    && s.facts.Keys == s.history.Keys
    && (forall key :: key in s.history ==>
          Chained(s.history[key], s.resolutions, key) && FactOk(s, key))
  }

  // Counters and money, summed over all requests

  function StatusWeights(m: map<nat, Request>, st: Status): map<nat, nat> {
    map id | id in m :: if m[id].status == st then 1 else 0
  }

  ghost function CountStatus(m: map<nat, Request>, st: Status): nat {
    MapSum(StatusWeights(m, st))
  }

  ghost predicate CountsOk(s: State) {
    && s.nextResolution == 1 + CountStatus(s.requests, Resolved)
    && s.reusedCount == CountStatus(s.requests, Reused)
  }

  function FeeWeights(m: map<nat, Request>): map<nat, nat> {
    map id | id in m :: m[id].feePaid
  }

  ghost function FeesHeld(m: map<nat, Request>): nat { MapSum(FeeWeights(m)) }

  ghost predicate MoneyOk(s: State) {
    s.received == s.withdrawn + MapSum(s.credits) + FeesHeld(s.requests)
  }

  // Messages

  /** The one callback a settled request can have. */
  function CallbackOf(s: State, r: Request): Message
    requires r.currentResolution in s.resolutions
  {
    var res := s.resolutions[r.currentResolution];
    CallbackMessage(r, res.id, res.outcome, res.committedAt, res.validUntil)
  }

  predicate MessageOk(s: State, m: Message) {
    match m
    case ResolveRequest(to, rid, attempt) =>
      && rid in s.requests && to == s.requests[rid].assignedResolver
      && 1 <= attempt <= s.requests[rid].activeAttempt
    case Callback(to, rid, _, _, _, _, _, _) =>
      && to != ZERO && rid in s.requests
      && (s.requests[rid].status == Resolved || s.requests[rid].status == Reused)
      && s.requests[rid].currentResolution in s.resolutions
      && m == CallbackOf(s, s.requests[rid])
    case Transfer(_, _) => true
  }

  predicate OutboxOk(s: State) {
    forall i :: 0 <= i < |s.outbox| ==> MessageOk(s, s.outbox[i])
  }

  // The policy registry a request was checked against

  predicate PolicyBound(book: P.Book, r: Request) {
    var rec := P.GetPolicy(book, r.policyId, r.policyVersion);
    rec.Some? && rec.value.hash == r.policyHash
  }

  ghost predicate BooksOk(s: State, book: P.Book) {
    && P.BookOk(book)
    && forall id :: id in s.requests ==> PolicyBound(book, s.requests[id])
  }

  ghost predicate Inv(s: State) {
    && IdsOk(s) && RequestsOk(s) && ResolutionsOk(s) && FactsOk(s) && CountsOk(s)
    && MoneyOk(s) && OutboxOk(s)
  }

  // Building blocks: what one kind of change keeps

  /** Changes that a request may undergo once it exists. */
  predicate Advance(s: State, a: Request, b: Request) {
    && SameIdentity(a, b) && LifecycleOk(b) && a.activeAttempt <= b.activeAttempt
    && (a.status == Dispatched || (b.status == a.status && b.currentResolution == a.currentResolution
                                   && b.activeAttempt == a.activeAttempt))
    && (a.status == Dispatched ==> b.status == Dispatched || b.status == Cancelled)
  }

  predicate SameLedgers(s: State, t: State) {
    && t.resolutions == s.resolutions && t.facts == s.facts && t.history == s.history
    && t.nextResolution == s.nextResolution
  }

  /** What does not mention requests' progress is untouched by it. */
  predicate SameOrigins(s: State, t: State) {
    && SameLedgers(s, t)
    && forall id :: id in s.requests ==> id in t.requests && SameIdentity(s.requests[id], t.requests[id])
  }

  lemma FactsKept(s: State, t: State)
    requires FactsOk(s) && SameOrigins(s, t)
    ensures FactsOk(t)
  {
    hide FactOk, Chained, SameIdentity;
    forall key | key in t.history
      ensures Chained(t.history[key], t.resolutions, key) && FactOk(t, key)
    {
      OneFactKept(s, t, key);
    }
  }

  lemma OneFactKept(s: State, t: State, key: Digest)
    requires key in s.facts && key in s.history && Chained(s.history[key], s.resolutions, key)
    requires FactOk(s, key) && SameOrigins(s, t)
    ensures FactOk(t, key)
  {
    hide HeadIndex, FactMatches;
    var rs := Records(s.history[key], s.resolutions);
    assert SameIdentity(s.requests[rs[|rs| - 1].requestId], t.requests[rs[|rs| - 1].requestId]);
  }

  /** Replacing one request by a later version of itself keeps every structural invariant. */
  lemma UpdateKeeps(s: State, t: State, r: Request)
    requires IdsOk(s) && RequestsOk(s) && ResolutionsOk(s) && FactsOk(s) && CountsOk(s)
    requires SameLedgers(s, t) && t.nextRequest == s.nextRequest && t.reusedCount == s.reusedCount
    requires r.id in s.requests && Advance(s, s.requests[r.id], r)
    requires t.requests == s.requests[r.id := r]
    ensures IdsOk(t) && RequestsOk(t) && ResolutionsOk(t) && FactsOk(t) && CountsOk(t)
  {
    hide RequestsOk, ResolutionsOk, FactsOk, CountStatus;
    PutCount(s.requests, r.id, r, Resolved);
    PutCount(s.requests, r.id, r, Reused);
    FactsKept(s, t);
    UpdateKeepsRecords(s, t, r);
  }

  /** Writing one request changes each sum by what that request contributes. */
  lemma PutFees(m: map<nat, Request>, id: nat, r: Request)
    ensures FeesHeld(m[id := r])
            == FeesHeld(m) - (if id in m then m[id].feePaid else 0) + r.feePaid
  {
    hide MapSum;
    MapSumUpdate(FeeWeights(m), id, r.feePaid);
    assert FeeWeights(m[id := r]) == FeeWeights(m)[id := r.feePaid];
  }

  lemma PutCount(m: map<nat, Request>, id: nat, r: Request, st: Status)
    ensures CountStatus(m[id := r], st)
            == CountStatus(m, st) - (if id in m && m[id].status == st then 1 else 0)
               + (if r.status == st then 1 else 0)
  {
    hide MapSum;
    var w := if r.status == st then 1 else 0;
    MapSumUpdate(StatusWeights(m, st), id, w);
    assert StatusWeights(m[id := r], st) == StatusWeights(m, st)[id := w];
  }

  lemma UpdateKeepsRecords(s: State, t: State, r: Request)
    requires IdsOk(s) && RequestsOk(s) && ResolutionsOk(s) && SameLedgers(s, t)
    requires r.id in s.requests && Advance(s, s.requests[r.id], r)
    requires t.requests == s.requests[r.id := r]
    ensures RequestsOk(t) && ResolutionsOk(t)
  {
    hide IdentityOk, LifecycleOk, PointerOk, OwnedOk, Advance;
    var a := s.requests[r.id];
    forall id | id in t.resolutions ensures OwnedOk(t, t.resolutions[id]) {
      UpdateOwned(s, t, r, s.resolutions[id]);
    }
    forall id | id in t.requests
      ensures IdentityOk(t.requests[id]) && LifecycleOk(t.requests[id])
              && PointerOk(t, t.requests[id])
    {
      if id == r.id { UpdatedRequestOk(s, t, a, r); } else { PointerFrame(s, t, s.requests[id]); }
    }
  }

  lemma UpdatedRequestOk(s: State, t: State, a: Request, b: Request)
    requires IdentityOk(a) && PointerOk(s, a) && Advance(s, a, b) && t.resolutions == s.resolutions
    ensures IdentityOk(b) && LifecycleOk(b) && PointerOk(t, b)
  {
    hide Stripped, Norm, ClaimKeyOf, FactKeyOf, SpecHashOf, KeptSeeds, CleanSpec;
  }

  /** A settled request keeps the resolution it owns. */
  lemma UpdateOwned(s: State, t: State, r: Request, res: Resolution)
    requires OwnedOk(s, res) && SameLedgers(s, t) && r.id in s.requests && s.requests[r.id].id == r.id
    requires Advance(s, s.requests[r.id], r) && t.requests == s.requests[r.id := r]
    ensures OwnedOk(t, res)
  {
    hide LifecycleOk;
  }

  lemma PointerFrame(s: State, t: State, r: Request)
    requires PointerOk(s, r)
    requires forall id :: id in s.resolutions ==> id in t.resolutions && t.resolutions[id] == s.resolutions[id]
    ensures PointerOk(t, r)
  {
  }

  /** Messages sent before stay right, because what they quote no longer changes. */
  lemma UpdateKeepsOutbox(s: State, t: State, r: Request)
    requires IdsOk(s) && OutboxOk(s) && SameLedgers(s, t)
    requires r.id in s.requests && Advance(s, s.requests[r.id], r)
    requires t.requests == s.requests[r.id := r]
    requires s.outbox <= t.outbox
    requires forall i :: |s.outbox| <= i < |t.outbox| ==> MessageOk(t, t.outbox[i])
    ensures OutboxOk(t)
  {
    forall i | 0 <= i < |t.outbox| ensures MessageOk(t, t.outbox[i]) {
      if i < |s.outbox| {
        assert MessageOk(s, s.outbox[i]) && t.outbox[i] == s.outbox[i];
      }
    }
  }

  lemma CreditSum(credits: map<Address, nat>, who: Address, amount: nat)
    requires who != ZERO
    ensures MapSum(Credit(credits, who, amount)) == MapSum(credits) + amount
  {
    if amount > 0 {
      MapSumUpdate(credits, who, (if who in credits then credits[who] else 0) + amount);
    }
  }

  /** Adding a fresh request keeps every structural invariant. */
  lemma AddKeeps(s: State, t: State, r: Request)
    requires IdsOk(s) && RequestsOk(s) && ResolutionsOk(s) && FactsOk(s) && CountsOk(s)
    requires SameLedgers(s, t) && t.nextRequest == s.nextRequest + 1
    requires r.id == s.nextRequest && t.requests == s.requests[r.id := r]
    requires IdentityOk(r) && LifecycleOk(r) && PointerOk(t, r)
    requires r.status == Dispatched || r.status == Reused
    requires t.reusedCount == s.reusedCount + if r.status == Reused then 1 else 0
    ensures IdsOk(t) && RequestsOk(t) && ResolutionsOk(t) && FactsOk(t) && CountsOk(t)
  {
    hide RequestsOk, ResolutionsOk, FactsOk, CountStatus, IdentityOk, PointerOk, LifecycleOk;
    PutCount(s.requests, r.id, r, Resolved);
    PutCount(s.requests, r.id, r, Reused);
    FactsKept(s, t);
    AddKeepsRecords(s, t, r);
  }

  lemma AddKeepsRecords(s: State, t: State, r: Request)
    requires IdsOk(s) && RequestsOk(s) && ResolutionsOk(s) && SameLedgers(s, t)
    requires r.id == s.nextRequest && t.requests == s.requests[r.id := r]
    requires IdentityOk(r) && LifecycleOk(r) && PointerOk(t, r)
    ensures RequestsOk(t) && ResolutionsOk(t)
  {
    hide IdentityOk, LifecycleOk, PointerOk, OwnedOk;
    forall id | id in t.resolutions ensures OwnedOk(t, t.resolutions[id]) {
      AddOwned(s, t, r, s.resolutions[id]);
    }
    forall id | id in t.requests
      ensures IdentityOk(t.requests[id]) && LifecycleOk(t.requests[id])
              && PointerOk(t, t.requests[id])
    {
      if id != r.id { PointerFrame(s, t, s.requests[id]); }
    }
  }

  lemma AddOwned(s: State, t: State, r: Request, res: Resolution)
    requires OwnedOk(s, res) && SameLedgers(s, t) && r.id !in s.requests && t.requests == s.requests[r.id := r]
    ensures OwnedOk(t, res)
  {
  }

  lemma AddKeepsOutbox(s: State, t: State, r: Request)
    requires IdsOk(s) && OutboxOk(s) && SameLedgers(s, t)
    requires r.id == s.nextRequest && t.requests == s.requests[r.id := r]
    requires s.outbox <= t.outbox
    requires forall i :: |s.outbox| <= i < |t.outbox| ==> MessageOk(t, t.outbox[i])
    ensures OutboxOk(t)
  {
    forall i | 0 <= i < |t.outbox| ensures MessageOk(t, t.outbox[i]) {
      if i < |s.outbox| {
        assert MessageOk(s, s.outbox[i]) && t.outbox[i] == s.outbox[i];
      }
    }
  }
}
