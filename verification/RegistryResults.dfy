/** What the registry guarantees over whole runs. */
module RegistryResults {
  import opened Common
  import opened Text
  import opened Digests
  import opened Sums
  import opened Seqs
  import opened Registry
  import opened RegistryInvariant
  import opened RegistryCommit
  import opened RegistryRuns
  import opened RegistryTheorems
  import opened SourceClasses
  import P = PolicyRegistry

  // The canonical head, without the fold

  predicate Satisfied(r: Resolution) { Boolean(r.outcome) && r.policySatisfied }

  /**
   The last boolean resolution that satisfied its policy, if there is one; otherwise the first
   boolean one, if there is one; otherwise the last.
  */
  predicate IsCanonical(rs: seq<Resolution>, i: nat) {
    && i < |rs|
    && if exists k :: 0 <= k < |rs| && Satisfied(rs[k]) then
         Satisfied(rs[i]) && forall k :: i < k < |rs| ==> !Satisfied(rs[k])
       else if exists k :: 0 <= k < |rs| && Boolean(rs[k].outcome) then
         Boolean(rs[i].outcome) && forall k :: 0 <= k < i ==> !Boolean(rs[k].outcome)
       else i == |rs| - 1
  }

  lemma {:induction false} HeadIsCanonical(rs: seq<Resolution>)
    requires |rs| > 0
    ensures forall i :: IsCanonical(rs, i) <==> i == HeadIndex(rs)
  {
    var n := |rs| - 1;
    if n > 0 {
      var front := rs[..n];
      HeadIsCanonical(front);
      assert IsCanonical(front, HeadIndex(front));
      assert forall k :: 0 <= k < n ==> front[k] == rs[k];
    }
    assert IsCanonical(rs, HeadIndex(rs));
    forall i | IsCanonical(rs, i) ensures i == HeadIndex(rs) { CanonicalUnique(rs, i, HeadIndex(rs)); }
  }

  lemma CanonicalUnique(rs: seq<Resolution>, i: nat, j: nat)
    requires IsCanonical(rs, i) && IsCanonical(rs, j)
    ensures i == j
  {
  }

  lemma GoodFacts(c: Chain)
    requires Good(c)
    ensures FactsOk(c.reg)
  {
    hide RequestsOk, ResolutionsOk, CountsOk, MoneyOk, OutboxOk, BooksOk, FactsOk;
  }

  lemma GoodHead(s: State, key: Digest)
    requires FactsOk(s) && key in s.facts
    ensures key in s.history && Chained(s.history[key], s.resolutions, key)
    ensures var rs := Records(s.history[key], s.resolutions);
            |rs| > 0 && FactMatches(s.facts[key], rs[HeadIndex(rs)], rs[|rs| - 1])
  {
    hide FactMatches, HeadIndex, Chained, RequestGrows;
    assert FactOk(s, key);
  }

  lemma HistoryKnown(s: State, key: Digest)
    requires key in s.history && Chained(s.history[key], s.resolutions, key)
    ensures forall k :: 0 <= k < |s.history[key]| ==> s.history[key][k] in s.resolutions
  {
  }

  /** In every reachable state a fact is the canonical record of its own history. */
  lemma CanonicalHead(cfg: Config, owner: Address, actions: seq<Action>, json: Json, c: Chain, key: Digest)
    requires Reaches(cfg, owner, actions, json, c) && key in c.reg.facts
    ensures key in c.reg.history && Chained(c.reg.history[key], c.reg.resolutions, key)
    ensures var rs := Records(c.reg.history[key], c.reg.resolutions);
            exists i: nat :: IsCanonical(rs, i) && FactMatches(c.reg.facts[key], rs[i], rs[|rs| - 1])
  {
    hide IsCanonical, Good, Reaches, FactsOk, Chained, FactMatches;
    ReachableGood(cfg, owner, actions, json, c);
    GoodFacts(c);
    GoodHead(c.reg, key);
    HistoryKnown(c.reg, key);
    var rs := Records(c.reg.history[key], c.reg.resolutions);
    HeadIsCanonical(rs);
    assert IsCanonical(rs, HeadIndex(rs));
  }

  // What later states keep of earlier ones

  predicate Settled(r: Request) { r.status == Resolved || r.status == Reused || r.status == Cancelled }

  /** A settled request keeps its outcome for ever; at most its callback mark moves. */
  predicate RequestGrows(a: Request, b: Request) {
    && SameIdentity(a, b)
    && (Settled(a) ==> b == a.(callbackStatus := b.callbackStatus))
    && a.attemptCount <= b.attemptCount
  }

  ghost predicate LedgersGrow(s: State, t: State) {
    && s.nextRequest <= t.nextRequest && s.nextResolution <= t.nextResolution
    && (forall id :: id in s.resolutions ==> id in t.resolutions && t.resolutions[id] == s.resolutions[id])
    && (forall key :: key in s.history ==> key in t.history && s.history[key] <= t.history[key])
    && (forall key :: key in s.facts ==> key in t.facts)
    && (forall key :: key in s.facts && Boolean(s.facts[key].currentOutcome) ==>
          Boolean(t.facts[key].currentOutcome))
  }

  ghost predicate RequestsGrow(s: State, t: State) {
    forall id :: id in s.requests ==> id in t.requests && RequestGrows(s.requests[id], t.requests[id])
  }

  ghost predicate Extends(s: State, t: State) { LedgersGrow(s, t) && RequestsGrow(s, t) }

  lemma ExtendsTrans(s: State, t: State, u: State)
    requires Extends(s, t) && Extends(t, u)
    ensures Extends(s, u)
  {
    assert LedgersGrow(s, u);
    forall id | id in s.requests ensures RequestGrows(s.requests[id], u.requests[id]) {
      assert RequestGrows(s.requests[id], t.requests[id]);
      assert RequestGrows(t.requests[id], u.requests[id]);
    }
  }

  lemma NextFactBoolean(f: Fact, r: Request, res: Resolution)
    requires Boolean(f.currentOutcome)
    ensures Boolean(NextFact(Some(f), r, res).currentOutcome)
  {
  }

  /** Only a commit writes resolutions, histories and facts. */
  lemma OnlyCommitsRecord(s: State, book: P.Book, env: Env, call: Call)
    requires !call.CommitResolution?
    ensures SameLedgers(s, Step(s, book, env, call))
    ensures s.nextRequest <= Step(s, book, env, call).nextRequest
  {
    hide Credit, CallbackMessage, CreateRequest, RefreshFact, Reassess;
    if Creates(call) { CreationAddsOne(s, book, env, call); }
  }

  lemma StepLedgers(s: State, book: P.Book, env: Env, call: Call)
    requires IdsOk(s) && RequestsOk(s)
    ensures LedgersGrow(s, Step(s, book, env, call))
  {
    hide CreateRequest, RefreshFact, Reassess, Retry, Cancel, Commit, CallbackRetry, MarkCallback,
         Withdraw, RequestsOk;
    if !call.CommitResolution? {
      OnlyCommitsRecord(s, book, env, call);
    } else if Execute(s, book, env, call).Ok? {
      CommitLedgers(s, env, call.commit);
    }
  }

  lemma CommitLedgers(s: State, env: Env, c: CommitArgs)
    requires IdsOk(s) && RequestsOk(s) && Commit(s, env, c).Ok?
    ensures LedgersGrow(s, Commit(s, env, c).state)
  {
    hide RequestsOk, NextFact, PrevLatest, ParseOutcome, ParseDiagnostic, NewResolution, Record, Commit,
         Bound, CallbackMessage;
    var t := Commit(s, env, c).state;
    var r, res := CommitRecord(s, env, c);
    RecordIs(s, r, res);
    forall key | key in s.facts && Boolean(s.facts[key].currentOutcome)
      ensures Boolean(t.facts[key].currentOutcome)
    {
      if key == r.factKey { NextFactBoolean(s.facts[key], r, res); }
    }
  }

  /** The request and the record of a successful commit. */
  lemma CommitRecord(s: State, env: Env, c: CommitArgs) returns (r: Request, res: Resolution)
    requires IdsOk(s) && RequestsOk(s) && Commit(s, env, c).Ok?
    ensures Fresh(s, r, res) && Commit(s, env, c).state == Record(s, r, res)
    ensures r == s.requests[c.requestId] && res.attemptId == c.attemptId
    ensures res.policySatisfied == c.policySatisfied && ParseOutcome(c.outcome) == Some(res.outcome)
    ensures ParseDiagnostic(c.diagnostic) == Some(res.diagnostic) && res.committedAt == env.now
    ensures r.spec.mutability == Immutable ==> res.validUntil == 0
    ensures r.spec.mutability == MutableTtl ==>
              res.validUntil == if c.validUntil == 0 then env.now + r.spec.ttlSeconds else c.validUntil
  {
    hide Strip, ParseOutcome, ParseDiagnostic, PrevLatest, RequestsOk, Record;
    CommitIsFresh(s, env, c);
    r := s.requests[c.requestId];
    res := NewResolution(s, env.now, r, c, ParseOutcome(c.outcome).value, ParseDiagnostic(c.diagnostic).value);
  }

  /** The texts of an accepted commit are bounded and kept, the manifest as its hash. */
  lemma CommitTexts(s: State, env: Env, c: CommitArgs)
    requires IdsOk(s) && RequestsOk(s) && Commit(s, env, c).Ok?
    ensures var t, id := Commit(s, env, c).state, s.nextResolution;
            && id in t.resolutions
            && var res := t.resolutions[id];
            && res.reasoning == Strip(c.reasoning) && |res.reasoning| <= MAX_DESC
            && res.resolverVersion == Strip(c.resolverVersion) && |res.resolverVersion| <= 64
            && res.manifestHash == ManifestDigest(Strip(c.manifest)) && |Strip(c.manifest)| <= MAX_MANIFEST
  {
    hide Strip, ParseOutcome, ParseDiagnostic, PrevLatest, NextFact, RequestsOk, IdsOk, CallbackMessage;
  }

  lemma StepRequests(s: State, book: P.Book, env: Env, call: Call)
    requires IdsOk(s) && RequestsOk(s)
    ensures RequestsGrow(s, Step(s, book, env, call))
  {
    hide Execute, RequestsOk;
    if Creates(call) {
      CreationAddsOne(s, book, env, call);
    } else {
      Movement(s, book, env, call);
    }
  }

  lemma StepExtends(c: Chain, a: Action, json: Json)
    requires Good(c) && Signed(a)
    ensures Extends(c.reg, Act(c, a, json).reg)
  {
    hide Step, P.Step, LedgersGrow, RequestsGrow, RequestsOk, ResolutionsOk, FactsOk, CountsOk,
         MoneyOk, OutboxOk, BooksOk;
    if a.OnRegistry? {
      StepLedgers(c.reg, c.book, a.env, a.call);
      StepRequests(c.reg, c.book, a.env, a.call);
    } else {
      ExtendsRefl(c.reg);
    }
  }

  lemma ExtendsRefl(s: State)
    ensures Extends(s, s)
  {
  }

  lemma {:induction false} RunExtends(c: Chain, actions: seq<Action>, json: Json)
    requires Good(c) && forall a :: a in actions ==> Signed(a)
    ensures Good(Run(c, actions, json)) && Extends(c.reg, Run(c, actions, json).reg)
  {
    hide Good, Act, Extends;
    if |actions| == 0 {
      ExtendsRefl(c.reg);
    } else {
      var front, last := actions[..|actions| - 1], actions[|actions| - 1];
      var mid := Run(c, front, json);
      RunExtends(c, front, json);
      ActKeeps(mid, last, json);
      StepExtends(mid, last, json);
      ExtendsTrans(c.reg, mid.reg, Run(c, actions, json).reg);
    }
  }
}
