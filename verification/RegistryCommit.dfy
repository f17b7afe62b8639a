/** Accepting a resolution keeps the registry's invariant. */
module RegistryCommit {
  import opened Common
  import opened Text
  import opened Digests
  import opened Sums
  import opened Registry
  import opened RegistryInvariant

  /** A resolution as `commit_resolution` builds it for a live request. */
  ghost predicate Fresh(s: State, r: Request, res: Resolution) {
    && r.id in s.requests && s.requests[r.id] == r && r.status == Dispatched
    && res.id == s.nextResolution
    && Bound(res, r)
    && (var prev := PrevLatest(s, r.factKey);
        && res.version == (if prev.None? then 1 else prev.value.version + 1)
        && res.supersedes == (if prev.None? then 0 else prev.value.id))
  }

  lemma CommitIsFresh(s: State, env: Env, c: CommitArgs)
    requires IdsOk(s) && RequestsOk(s) && Commit(s, env, c).Ok?
    ensures var r := s.requests[c.requestId];
            var out, diag := ParseOutcome(c.outcome), ParseDiagnostic(c.diagnostic);
            && out.Some? && diag.Some?
            && var res := NewResolution(s, env.now, r, c, out.value, diag.value);
            Fresh(s, r, res) && Commit(s, env, c).state == Record(s, r, res)
  {
    hide Strip, ParseOutcome, ParseDiagnostic, PrevLatest, IdentityOk;
    assert LifecycleOk(s.requests[c.requestId]);
  }

  /** The attempt a new one supersedes is the last of the fact's history. */
  lemma PrevLatestIsLast(s: State, key: Digest)
    requires IdsOk(s) && FactsOk(s)
    ensures key !in s.history ==> PrevLatest(s, key) == None
    ensures key in s.history ==>
              var h := s.history[key];
              |h| > 0 && h[|h| - 1] in s.resolutions
              && PrevLatest(s, key) == Some(s.resolutions[h[|h| - 1]])
  {
    hide FactOk, Chained;
    if key in s.history { LatestOfFact(s, key); }
  }

  lemma LatestOfFact(s: State, key: Digest)
    requires key in s.facts && key in s.history
    requires Chained(s.history[key], s.resolutions, key) && FactOk(s, key)
    ensures var h := s.history[key];
            |h| > 0 && h[|h| - 1] in s.resolutions && s.facts[key].latestResolution == h[|h| - 1]
  {
    hide HeadIndex;
  }

  /** Appending a resolution that supersedes the last one keeps a chain a chain. */
  lemma ChainGrows(h: seq<nat>, m: map<nat, Resolution>, key: Digest, res: Resolution)
    requires |h| > 0 ==> Chained(h, m, key)
    requires res.id !in m && res.factKey == key && forall i :: 0 <= i < |h| ==> h[i] < res.id
    requires res.version == |h| + 1
    requires res.supersedes == if |h| == 0 then 0 else h[|h| - 1]
    ensures Chained(h + [res.id], m[res.id := res], key)
    ensures Records(h + [res.id], m[res.id := res]) == Records(h, m) + [res]
  {
  }

  lemma HeadGrows(rs: seq<Resolution>, res: Resolution)
    requires |rs| > 0
    ensures HeadIndex(rs + [res])
            == if Advances(Some(rs[HeadIndex(rs)].outcome), res.outcome, res.policySatisfied)
               then |rs| else HeadIndex(rs)
  {
    assert (rs + [res])[..|rs|] == rs;
  }

  function HistoryOf(s: State, key: Digest): seq<nat> {
    if key in s.history then s.history[key] else []
  }

  /** The request as stored once its resolution is recorded. */
  function ResolvedRequest(r: Request, res: Resolution): Request {
    r.(status := Resolved, currentResolution := res.id,
       callbackStatus := if r.callbackTarget == ZERO then NotRequested else CallbackDispatched)
  }

  predicate Recorded(s: State, t: State, r: Request, res: Resolution) {
    && t.resolutions == s.resolutions[res.id := res]
    && t.nextResolution == s.nextResolution + 1 && t.nextRequest == s.nextRequest
    && t.facts == s.facts[r.factKey := NextFact(FactOpt(s, r.factKey), r, res)]
    && t.history == s.history[r.factKey := HistoryOf(s, r.factKey) + [res.id]]
    && t.requests == s.requests[r.id := ResolvedRequest(r, res)]
    && t.credits == s.credits && t.received == s.received && t.withdrawn == s.withdrawn
    && t.reusedCount == s.reusedCount
    && t.outbox == s.outbox + (if r.callbackTarget == ZERO then [] else
         [CallbackMessage(r, res.id, res.outcome, res.committedAt, res.validUntil)])
  }

  lemma RecordIs(s: State, r: Request, res: Resolution)
    ensures Recorded(s, Record(s, r, res), r, res)
  {
    hide NextFact;
  }

  /** The fact's cached head after a commit is the head of the longer history. */
  lemma RecordFact(s: State, t: State, r: Request, res: Resolution)
    requires IdsOk(s) && FactsOk(s) && Fresh(s, r, res) && Recorded(s, t, r, res)
    requires r.factKey in s.facts ==> s.facts[r.factKey].templateHash == r.template.hash
    ensures var key := r.factKey;
            && key in t.history && key in t.facts
            && Chained(t.history[key], t.resolutions, key) && FactOk(t, key)
  {
    hide PrevLatest, Chained, FactOk, Records;
    var key := r.factKey;
    var h := HistoryOf(s, key);
    RecordChain(s, t, r, res);
    if |h| > 0 {
      assert FactOk(s, key) && Chained(h, s.resolutions, key);
      HeadFollows(s, t, r, res, h);
    } else {
      HeadStarts(s, t, r, res);
    }
  }

  lemma HeadStarts(s: State, t: State, r: Request, res: Resolution)
    requires Bound(res, r) && Recorded(s, t, r, res) && r.factKey !in s.facts
    requires r.factKey in t.history && Chained(t.history[r.factKey], t.resolutions, r.factKey)
    requires Records(t.history[r.factKey], t.resolutions) == [res]
    ensures r.factKey in t.facts && FactOk(t, r.factKey)
  {
    hide Chained, Records, CallbackMessage, HistoryOf;
    SingleHead(res);
  }

  lemma HeadFollows(s: State, t: State, r: Request, res: Resolution, h: seq<nat>)
    requires r.factKey in s.history && r.factKey in s.facts && h == s.history[r.factKey]
    requires Chained(h, s.resolutions, r.factKey) && FactOk(s, r.factKey)
    requires Bound(res, r) && Recorded(s, t, r, res) && s.facts[r.factKey].templateHash == r.template.hash
    requires r.factKey in t.history && Chained(t.history[r.factKey], t.resolutions, r.factKey)
    requires Records(t.history[r.factKey], t.resolutions) == Records(h, s.resolutions) + [res]
    ensures r.factKey in t.facts && FactOk(t, r.factKey)
  {
    hide CallbackMessage, HistoryOf, HeadIndex;
    HeadGrows(Records(h, s.resolutions), res);
  }

  /** The records behind a longer history are the old ones and one more. */
  ghost predicate RecordsGrow(h: seq<nat>, m: map<nat, Resolution>, k: seq<nat>, n: map<nat, Resolution>,
                              res: Resolution)
  {
    && (forall i :: 0 <= i < |h| ==> h[i] in m) && (forall i :: 0 <= i < |k| ==> k[i] in n)
    && Records(k, n) == Records(h, m) + [res]
  }

  lemma RecordChain(s: State, t: State, r: Request, res: Resolution)
    requires IdsOk(s) && FactsOk(s) && Fresh(s, r, res) && Recorded(s, t, r, res)
    ensures var key, h := r.factKey, HistoryOf(s, r.factKey);
            && (|h| > 0 <==> key in s.history) && (|h| > 0 ==> Chained(h, s.resolutions, key))
            && key in t.history && t.history[key] == h + [res.id]
            && Chained(t.history[key], t.resolutions, key)
            && RecordsGrow(h, s.resolutions, t.history[key], t.resolutions, res)
  {
    hide FactOk, HeadIndex, NextFact, PrevLatest;
    var key, h := r.factKey, HistoryOf(s, r.factKey);
    PrevLatestIsLast(s, key);
    ChainGrows(h, s.resolutions, key, res);
  }

  lemma SingleHead(res: Resolution)
    ensures HeadIndex([res]) == 0
  {
  }

  /** The key fixes what a fact is about; in particular its template hash never changes. */
  predicate IdentifiedBy(f: Fact, key: Digest) {
    && key == FactKeyOf(f.claimKey, f.policyHash, f.schemaVersion, f.templateHash)
    && f.claimKey.ClaimDigest? && f.claimKey.mutability == MutabilityText(f.mutability)
    && Norm(f.schemaVersion) == SCHEMA_V1
  }

  lemma FactIdentity(s: State, key: Digest)
    requires FactsOk(s) && RequestsOk(s) && ResolutionsOk(s) && key in s.facts
    ensures IdentifiedBy(s.facts[key], key)
  {
    hide Norm, Strip, HeadIndex, KeptSeeds, OwnedOk, RequestsOk, ResolutionsOk;
    assert FactOk(s, key) && Chained(s.history[key], s.resolutions, key);
    var h := s.history[key];
    OwnedIdentity(s, h[|h| - 1]);
  }

  lemma OwnedIdentity(s: State, id: nat)
    requires RequestsOk(s) && ResolutionsOk(s) && id in s.resolutions
    ensures var res := s.resolutions[id];
            && res.requestId in s.requests
            && Bound(res, s.requests[res.requestId]) && IdentityOk(s.requests[res.requestId])
  {
    hide IdentityOk, LifecycleOk, PointerOk;
    assert OwnedOk(s, s.resolutions[id]);
  }

  lemma RecordRequests(s: State, t: State, r: Request, res: Resolution)
    requires IdsOk(s) && RequestsOk(s) && Fresh(s, r, res) && Recorded(s, t, r, res)
    ensures IdsOk(t) && RequestsOk(t)
  {
    hide IdentityOk, LifecycleOk, PointerOk, NextFact, PrevLatest, CallbackMessage, Bound, HistoryOf;
    forall id | id in t.requests
      ensures IdentityOk(t.requests[id]) && LifecycleOk(t.requests[id])
              && PointerOk(t, t.requests[id])
    {
      if id == r.id {
        ResolvedRequestOk(t, r, res);
      } else {
        PointerFrame(s, t, s.requests[id]);
      }
    }
  }

  lemma ResolvedRequestOk(t: State, r: Request, res: Resolution)
    requires IdentityOk(r) && LifecycleOk(r) && r.status == Dispatched && Bound(res, r)
    requires res.id in t.resolutions && t.resolutions[res.id] == res
    ensures var b := ResolvedRequest(r, res);
            IdentityOk(b) && LifecycleOk(b) && PointerOk(t, b)
  {
    hide CleanSpec, Stripped, Norm, ClaimKeyOf, FactKeyOf, SpecHashOf, KeptSeeds;
  }

  lemma RecordResolutions(s: State, t: State, r: Request, res: Resolution)
    requires IdsOk(s) && ResolutionsOk(s) && Fresh(s, r, res) && Recorded(s, t, r, res)
    ensures ResolutionsOk(t)
  {
    hide NextFact, PrevLatest;
    forall id | id in t.resolutions ensures OwnedOk(t, t.resolutions[id]) {
      if id != res.id { assert OwnedOk(s, s.resolutions[id]); }
    }
  }

  /** Facts other than the request's own are untouched. */
  lemma OtherFactsKept(s: State, t: State, r: Request, res: Resolution, key: Digest)
    requires IdsOk(s) && Fresh(s, r, res) && Recorded(s, t, r, res)
    requires key != r.factKey && key in s.history && key in s.facts
    requires Chained(s.history[key], s.resolutions, key) && FactOk(s, key)
    ensures key in t.history && key in t.facts
    ensures Chained(t.history[key], t.resolutions, key) && FactOk(t, key)
  {
    hide NextFact, PrevLatest, FactOk, Chained, Bound, CallbackMessage, Records, HistoryOf;
    ChainFrame(s.history[key], s.resolutions, t.resolutions, key);
    FactFrame(s, t, key);
  }

  lemma ChainFrame(h: seq<nat>, m: map<nat, Resolution>, n: map<nat, Resolution>, key: Digest)
    requires Chained(h, m, key)
    requires forall id :: id in m ==> id in n && n[id] == m[id]
    ensures Chained(h, n, key) && Records(h, n) == Records(h, m)
  {
  }

  lemma FactFrame(s: State, t: State, key: Digest)
    requires key in s.facts && key in s.history && Chained(s.history[key], s.resolutions, key)
    requires key in t.facts && key in t.history && Chained(t.history[key], t.resolutions, key)
    requires FactOk(s, key) && t.facts[key] == s.facts[key]
    requires Records(t.history[key], t.resolutions) == Records(s.history[key], s.resolutions)
    requires forall id :: id in s.requests ==> id in t.requests && t.requests[id].spec == s.requests[id].spec
    ensures FactOk(t, key)
  {
    hide HeadIndex, Chained;
  }

  lemma TemplateKept(s: State, r: Request)
    requires FactsOk(s) && RequestsOk(s) && ResolutionsOk(s) && IdentityOk(r) && r.factKey in s.facts
    ensures s.facts[r.factKey].templateHash == r.template.hash
  {
    hide FactsOk, RequestsOk, ResolutionsOk, Norm, CleanSpec, KeptSeeds, ClaimKeyOf, SpecHashOf;
    FactIdentity(s, r.factKey);
  }

  lemma RecordFacts(s: State, t: State, r: Request, res: Resolution)
    requires IdsOk(s) && RequestsOk(s) && ResolutionsOk(s) && FactsOk(s)
    requires Fresh(s, r, res) && Recorded(s, t, r, res)
    ensures FactsOk(t)
  {
    hide NextFact, PrevLatest, Chained, FactOk, PointerOk, LifecycleOk, IdentityOk, ResolutionsOk;
    assert IdentityOk(r);
    if r.factKey in s.facts { TemplateKept(s, r); }
    RecordFact(s, t, r, res);
    forall key | key in t.history
      ensures Chained(t.history[key], t.resolutions, key) && FactOk(t, key)
    {
      if key != r.factKey { OtherFactsKept(s, t, r, res, key); }
    }
    assert t.facts.Keys == t.history.Keys;
  }

  lemma RecordOutbox(s: State, t: State, r: Request, res: Resolution)
    requires IdsOk(s) && OutboxOk(s) && Fresh(s, r, res) && Recorded(s, t, r, res)
    ensures OutboxOk(t)
  {
    hide NextFact, PrevLatest;
    forall i | 0 <= i < |t.outbox| ensures MessageOk(t, t.outbox[i]) {
      if i < |s.outbox| { assert MessageOk(s, s.outbox[i]) && t.outbox[i] == s.outbox[i]; }
    }
  }

  lemma CommitKeeps(s: State, env: Env, c: CommitArgs)
    requires Inv(s) && Commit(s, env, c).Ok?
    ensures Inv(Commit(s, env, c).state)
  {
    hide RequestsOk, ResolutionsOk, FactsOk, OutboxOk, FeesHeld, CountStatus, MapSum, Record,
         NewResolution, Bound, PrevLatest, NextFact, ParseOutcome, ParseDiagnostic, Strip;
    var t := Commit(s, env, c).state;
    CommitIsFresh(s, env, c);
    var r := s.requests[c.requestId];
    var out, diag := ParseOutcome(c.outcome), ParseDiagnostic(c.diagnostic);
    var res := NewResolution(s, env.now, r, c, out.value, diag.value);
    RecordIs(s, r, res);
    RecordRequests(s, t, r, res);
    RecordResolutions(s, t, r, res);
    RecordFacts(s, t, r, res);
    RecordOutbox(s, t, r, res);
    PutCount(s.requests, r.id, ResolvedRequest(r, res), Resolved);
    PutCount(s.requests, r.id, ResolvedRequest(r, res), Reused);
    PutFees(s.requests, r.id, ResolvedRequest(r, res));
  }
}
