/** A fact key fixes what the fact is about, and asking again stays on the same key. */
module RegistryIdentity {
  import opened Common
  import opened Text
  import opened Digests
  import opened Seqs
  import opened Registry
  import opened RegistryInvariant
  import opened RegistryCommit
  import opened RegistryTheorems
  import opened RegistryRequests
  import opened RegistryResults
  import opened SourceClasses
  import P = PolicyRegistry

  // Asking again

  /** Re-reading a stored specification gives that specification back. */
  lemma SpecReparses(r: Request, seeds: seq<string>, callback: Address, extras: seq<string>)
    requires CleanSpec(r.spec)
    ensures var spec := CheckSpec(ArgsOf(r, seeds, callback, extras));
            spec.Some? ==> spec.value == r.spec
  {
    hide Norm, Strip, ParseMutability;
    MutabilityTextParses(r.spec.mutability);
  }

  lemma ArgsReparse(r: Request, seeds: seq<string>, callback: Address, extras: seq<string>,
                    maxSeeds: nat, validUrl: string -> bool)
    requires IdentityOk(r)
    ensures var c := CheckArgs(ArgsOf(r, seeds, callback, extras), maxSeeds, validUrl);
            c.Checked? ==>
              && c.spec == r.spec && c.policyId == r.policyId && c.mode == ForceFresh
              && (seeds == r.seeds ==> c.seeds == r.seeds)
              && c.seeds == DistinctBy(seeds, Norm, {}) && c.supplementals == DistinctBy(extras, Norm, {})
  {
    hide Norm, Strip, CheckSpec, ParseMode, CleanSpec, ClaimKeyOf, FactKeyOf, SpecHashOf;
    SpecReparses(r, seeds, callback, extras);
    ForceFreshParses();
  }

  /** Same fact, asked again: what a request made from an earlier one shares with it. */
  predicate AsksAgain(b: Request, a: Request) {
    && b.factKey == a.factKey && b.claimKey == a.claimKey && b.policyHash == a.policyHash
    && b.spec == a.spec && b.template == a.template && b.status == Dispatched
  }

  lemma RecreateKeepsFact(c: Chain, env: Env, value: nat, prev: Request, seeds: seq<string>,
                          callback: Address, extras: seq<string>)
    requires IdentityOk(prev) && PolicyBound(c.book, prev)
    requires CreateRequest(c.reg, c.book, env, value, ArgsOf(prev, seeds, callback, extras)).Ok?
    ensures var tx := CreateRequest(c.reg, c.book, env, value, ArgsOf(prev, seeds, callback, extras));
            && tx.value in tx.state.requests
            && AsksAgain(tx.state.requests[tx.value], prev)
            && (seeds == prev.seeds ==> tx.state.requests[tx.value].specHash == prev.specHash)
            && tx.state.requests[tx.value].seeds == DistinctBy(seeds, Norm, {})
            && tx.state.requests[tx.value].supplementals == DistinctBy(extras, Norm, {})
  {
    hide Credit, CheckArgs, Quote, ClaimKeyOf, FactKeyOf, SpecHashOf, P.GetPolicy, CleanSpec,
         Stripped, KeptSeeds, Norm;
    ArgsReparse(prev, seeds, callback, extras, c.reg.cfg.maxSeedUrls, env.validUrl);
  }

  /** The canonical request of a fact is a request on that very fact. */
  lemma HeadRequest(s: State, key: Digest)
    requires Inv(s) && key in s.facts
    ensures var f := s.facts[key];
            && f.currentRequest in s.requests && s.requests[f.currentRequest].factKey == key
            && IdentityOk(s.requests[f.currentRequest])
  {
    hide RequestsOk, CountsOk, MoneyOk, OutboxOk, ResolutionsOk, HeadIndex, IdentityOk;
    assert FactOk(s, key);
    var h := s.history[key];
    OwnedIdentity(s, h[HeadIndex(Records(h, s.resolutions))]);
  }

  /** A refresh that succeeds opens a request on the fact it was asked to refresh. */
  lemma RefreshSameFact(cfg: Config, owner: Address, actions: seq<Action>, json: Json, c: Chain,
                        env: Env, value: nat, key: Digest, seeds: Option<seq<string>>, callback: Address)
    requires Reaches(cfg, owner, actions, json, c)
    requires RefreshFact(c.reg, c.book, env, value, key, seeds, callback).Ok?
    ensures var tx := RefreshFact(c.reg, c.book, env, value, key, seeds, callback);
            && key in c.reg.facts && c.reg.facts[key].currentRequest in c.reg.requests
            && var prev := c.reg.requests[c.reg.facts[key].currentRequest];
            && tx.value in tx.state.requests && tx.state.requests[tx.value].factKey == key
            && AsksAgain(tx.state.requests[tx.value], prev)
            && (seeds.None? ==> tx.state.requests[tx.value].specHash == prev.specHash)
            && c.reg.facts[key].mutability == MutableTtl && tx.state.requests[tx.value].supplementals == []
            && (seeds.Some? ==> tx.state.requests[tx.value].seeds == DistinctBy(seeds.value, Norm, {}))
  {
    hide Reaches, CreateRequest, Inv, ArgsOf, P.BookOk, IdentityOk, PolicyBound;
    ReachableGood(cfg, owner, actions, json, c);
    HeadRequest(c.reg, key);
    var prev := c.reg.requests[c.reg.facts[key].currentRequest];
    assert PolicyBound(c.book, prev);
    RecreateKeepsFact(c, env, value, prev, if seeds.Some? then seeds.value else prev.seeds, callback, []);
  }

  /** A reassessment that succeeds keeps the fact and the whole specification. */
  lemma ReassessSameSpec(cfg: Config, owner: Address, actions: seq<Action>, json: Json, c: Chain,
                         env: Env, value: nat, key: Digest, extras: seq<string>, notes: string,
                         callback: Address)
    requires Reaches(cfg, owner, actions, json, c)
    requires Reassess(c.reg, c.book, env, value, key, extras, notes, callback).Ok?
    ensures var tx := Reassess(c.reg, c.book, env, value, key, extras, notes, callback);
            && key in c.reg.facts && c.reg.facts[key].currentRequest in c.reg.requests
            && var prev := c.reg.requests[c.reg.facts[key].currentRequest];
            && tx.value in tx.state.requests && tx.state.requests[tx.value].factKey == key
            && AsksAgain(tx.state.requests[tx.value], prev)
            && tx.state.requests[tx.value].specHash == prev.specHash
            && tx.state.requests[tx.value].supplementals == DistinctBy(extras, Norm, {}) && |Strip(notes)| <= MAX_DESC
  {
    hide Reaches, CreateRequest, Inv, ArgsOf, P.BookOk, IdentityOk, PolicyBound, Strip;
    ReachableGood(cfg, owner, actions, json, c);
    HeadRequest(c.reg, key);
    var prev := c.reg.requests[c.reg.facts[key].currentRequest];
    assert PolicyBound(c.book, prev);
    RecreateKeepsFact(c, env, value, prev, prev.seeds, callback, extras);
  }

  // What a fact is about

  /** Two facts identified by one key are about the same thing. */
  predicate SameSubject(a: Fact, b: Fact) {
    && a.claimKey == b.claimKey && a.policyHash == b.policyHash
    && a.templateHash == b.templateHash && a.mutability == b.mutability
  }

  lemma OneSubjectPerKey(a: Fact, b: Fact, key: Digest)
    requires IdentifiedBy(a, key) && IdentifiedBy(b, key)
    ensures SameSubject(a, b)
  {
    hide Norm;
    assert MutabilityText(a.mutability) == MutabilityText(b.mutability);
    assert |MutabilityText(Immutable)| != |MutabilityText(MutableTtl)|;
  }

  /** A fact's claim, policy, template and mutability never change. */
  lemma FactIdentityKept(cfg: Config, owner: Address, before: seq<Action>, after: seq<Action>, json: Json,
                         c: Chain, key: Digest)
    requires Reaches(cfg, owner, before, json, c) && forall a :: a in after ==> Signed(a)
    requires key in c.reg.facts
    ensures var t := Run(c, after, json).reg;
            key in t.facts && SameSubject(c.reg.facts[key], t.facts[key])
  {
    hide Reaches, Run, RequestsOk, ResolutionsOk, FactsOk, CountsOk, MoneyOk, OutboxOk, BooksOk, IdentifiedBy;
    ReachableGood(cfg, owner, before, json, c);
    RunExtends(c, after, json);
    var t := Run(c, after, json).reg;
    FactIdentity(c.reg, key);
    FactIdentity(t, key);
    OneSubjectPerKey(c.reg.facts[key], t.facts[key], key);
  }

  /**
   Inside a creation the identity checks of the reuse test always pass: whether a request is
   answered from the cache depends only on the mode, the fact's presence and its freshness: a boolean
   head that is immutable, or neither expired nor older than the time to live asked for.
  */
  lemma ReuseIsFreshness(cfg: Config, owner: Address, actions: seq<Action>, json: Json, ch: Chain,
                         env: Env, a: CreateArgs, policyHash: Digest)
    requires Reaches(cfg, owner, actions, json, ch)
    ensures var c := CheckArgs(a, ch.reg.cfg.maxSeedUrls, env.validUrl);
            c.Checked? ==>
              var key := FactKeyOf(ClaimKeyOf(c.spec), policyHash, c.spec.schemaVersion, a.template.hash);
              ReuseHit(ch.reg, env, c, policyHash, a.template.hash) <==>
                && c.mode == ReuseIfFresh && key in ch.reg.facts
                && var f := ch.reg.facts[key];
                && (f.currentOutcome == OutTrue || f.currentOutcome == OutFalse)
                && (f.mutability == Immutable
                    || (env.now <= f.validUntil && c.spec.ttlSeconds > 0
                        && env.now <= f.resolvedAt + c.spec.ttlSeconds))
  {
    hide Reaches, Good, RequestsOk, ResolutionsOk, FactsOk, CheckArgs, ClaimKeyOf, FactKeyOf, ReuseHit;
    ReachableGood(cfg, owner, actions, json, ch);
    GoodParts(ch);
    var c := CheckArgs(a, ch.reg.cfg.maxSeedUrls, env.validUrl);
    if c.Checked? { HitIs(ch.reg, env, c, policyHash, a.template.hash); }
  }
}
