/**
 The registry, the policy registry, any number of resolvers and one consumer, with every
 message between them delivered in any order, any number of times, or not at all.
*/
module Protocol {
  import opened Common
  import opened Text
  import opened Seqs
  import opened Hosts
  import opened Digests
  import opened SourceClasses
  import opened Evidence
  import opened SourcePolicies
  import opened EvidenceTheorems
  import opened PrimarySources
  import opened Verdicts
  import opened Consumer
  import R = Registry
  import I = RegistryInvariant
  import T = RegistryTheorems
  import C = RegistryCommit
  import Res = RegistryResults
  import Q = RegistryRequests
  import P = PolicyRegistry

  const RESOLVER_VERSION := "evidra-resolver-v1"

  type Parse = string -> Url

  /** What a validator saw when it accepted a proposal, and when the resolver ran. */
  datatype Proof = Proof(fetched: seq<Fetched>, subject: string, rules: Rules, reply: Reply, now: nat)

  /** A commit message on its way, and the evaluation behind it. */
  datatype Sent = Sent(from: Address, args: R.CommitArgs, proof: Proof)

  /** `basis` and `delivered` only record what happened; no step reads them. */
  datatype World = World(chain: T.Chain, registry: Address, pending: seq<Sent>, basis: map<nat, Proof>,
                         probe: Probe, delivered: seq<R.Message>)

  datatype Event =
    | Public(action: T.Action)
    | ResolverRun(job: nat, now: nat, templateOk: bool, validUrl: string -> bool, fetched: seq<Fetched>,
                  reply: Reply, leader: Claim)
    | DeliverCommit(i: nat, env: R.Env)
    | DeliverCallback(i: nat)
    | CallConsumer(sender: Address, message: R.Message)

  // The resolver

  function RulesOf(rec: P.PolicyRecord, json: Json): Rules {
    Rules(LenientParse(rec.allowed, json), LenientParse(rec.disallowed, json), rec.minPrimary,
          rec.minIndependent, rec.crossCheck)
  }

  /** The stored lists, stripped and without blanks. */
  function SafeList(items: seq<string>): seq<string> {
    Filter(seq(|items|, i requires 0 <= i < |items| => Strip(items[i])), (s: string) => s != "")
  }

  function Parsed(items: seq<string>, parse: Parse): seq<Url> {
    var list := SafeList(items);
    seq(|list|, i requires 0 <= i < |list| => parse(list[i]))
  }

  function CandidatesOf(r: R.Request, parse: Parse): seq<Candidate> {
    Merged(Parsed(r.seeds, parse), Parsed(r.supplementals, parse))
  }

  function BindingsOf(r: R.Request): Bindings { Bindings(r.claimKey, r.factKey, r.specHash, r.policyHash) }

  /** The policy a job may be evaluated under, if every check of the resolver passes. */
  function Job(c: T.Chain, to: Address, id: nat, attempt: nat, templateOk: bool, validUrl: string -> bool,
               parse: Parse): Option<P.PolicyRecord> {
    if id !in c.reg.requests then None
    else
      var r := c.reg.requests[id];
      var rec := P.GetPolicy(c.book, r.policyId, r.policyVersion);
      if r.activeAttempt != attempt || !R.Live(r) || r.assignedResolver != to || !templateOk then None
      else if r.claimKey == NoDigest || r.factKey == NoDigest || r.specHash == NoDigest
              || r.policyHash == NoDigest then None
      else if rec.None? || rec.value.hash != r.policyHash then None
      else if exists k :: k in CandidatesOf(r, parse) && !validUrl(k.url.text) then None
      else rec
  }

  function CommitOf(r: R.Request, attempt: nat, leader: Claim, now: nat): R.CommitArgs {
    R.CommitArgs(r.id, attempt, r.claimKey, r.factKey, r.specHash, r.policyHash, leader.outcome,
                 leader.diagnostic, leader.satisfied, RESOLVER_VERSION, leader.manifest, leader.summary,
                 if r.spec.mutability == R.MutableTtl && r.spec.ttlSeconds > 0 then now + r.spec.ttlSeconds else 0)
  }

  /** A proposal that passed validation becomes a commit message; no resolver lives at ZERO. */
  function Resolve(w: World, e: Event, json: Json, parse: Parse): World
    requires e.ResolverRun?
  {
    var outbox := w.chain.reg.outbox;
    if e.job >= |outbox| || !outbox[e.job].ResolveRequest? || outbox[e.job].to == ZERO then w
    else
      var m := outbox[e.job];
      var rec := Job(w.chain, m.to, m.requestId, m.attemptId, e.templateOk, e.validUrl, parse);
      if rec.None? then w
      else
        var r, rules := w.chain.reg.requests[m.requestId], RulesOf(rec.value, json);
        var own := Semantics(e.fetched, e.reply, r.spec.subject, rules);
        if FetchedFrom(CandidatesOf(r, parse), e.fetched) && Accepts(e.leader, BindingsOf(r), own)
        then w.(pending := w.pending + [Sent(m.to, CommitOf(r, m.attemptId, e.leader, e.now),
                                             Proof(e.fetched, r.spec.subject, rules, e.reply, e.now))])
        else w
  }

  function AcceptCommit(w: World, sent: Sent, env: R.Env): World {
    var tx := R.Commit(w.chain.reg, env.(sender := sent.from), sent.args);
    if tx.Ok? then w.(chain := w.chain.(reg := tx.state), basis := w.basis[tx.value := sent.proof]) else w
  }

  function ConsumerReceives(w: World, sender: Address, m: R.Message): World {
    if !m.Callback? then w
    else
      var next := OnResult(w.probe, sender, m);
      if next.None? then w else w.(probe := next.value, delivered := w.delivered + [m])
  }

  function Happens(w: World, e: Event, json: Json, parse: Parse): World {
    match e
    case Public(action) => w.(chain := T.Act(w.chain, action, json))
    case ResolverRun(_, _, _, _, _, _, _) => Resolve(w, e, json, parse)
    case DeliverCommit(i, env) => if i < |w.pending| then AcceptCommit(w, w.pending[i], env) else w
    case DeliverCallback(i) =>
      var outbox := w.chain.reg.outbox;
      if i < |outbox| && outbox[i].Callback? && outbox[i].to == w.probe.self
      then ConsumerReceives(w, w.registry, outbox[i]) else w
    case CallConsumer(sender, m) => ConsumerReceives(w, sender, m)
  }

  /** The parser keeps the text it is given, and URL validation only accepts texts with a host. */
  ghost predicate Hosted(parse: Parse, validUrl: string -> bool) {
    forall s :: parse(s).text == s && (validUrl(s) ==> HostOf(parse(s)) != "")
  }

  /** Commits only come from resolvers, and nobody else signs as the registry or as nobody. */
  ghost predicate Allowed(w: World, e: Event, parse: Parse) {
    match e
    case Public(action) =>
      T.Signed(action) && (action.OnRegistry? ==> !action.call.CommitResolution?)
    case CallConsumer(sender, _) => sender != w.registry
    case ResolverRun(_, _, _, validUrl, _, _, _) => Hosted(parse, validUrl)
    case _ => true
  }

  function Start(cfg: R.Config, owner: Address, registry: Address, self: Address): World {
    World(T.Chain(R.Initial(cfg), P.Initial(owner)), registry, [], map[], Fresh(registry, self), [])
  }

  function After(w: World, events: seq<Event>, json: Json, parse: Parse): World {
    if |events| == 0 then w
    else Happens(After(w, events[..|events| - 1], json, parse), events[|events| - 1], json, parse)
  }

  // What every step keeps

  /** The validator's own evaluation. */
  function Own(p: Proof): Verdict { Semantics(p.fetched, p.reply, p.subject, p.rules) }

  /** The rules are those of a published policy with this hash. */
  ghost predicate Published(book: P.Book, hash: Digest, rules: Rules, json: Json) {
    exists key :: key in book.policies && book.policies[key].hash == hash
                  && RulesOf(book.policies[key], json) == rules
  }

  predicate ProofFor(r: R.Request, p: Proof, parse: Parse) {
    p.subject == r.spec.subject && FetchedFrom(CandidatesOf(r, parse), p.fetched) && HostsOk(p.fetched)
  }

  /** A mutable answer expires its time to live after the resolver ran. */
  predicate AsksExpiry(r: R.Request, until: nat, now: nat) {
    until == if r.spec.mutability.MutableTtl? && r.spec.ttlSeconds > 0 then now + r.spec.ttlSeconds else 0
  }

  predicate Expires(r: R.Request, res: R.Resolution, now: nat) {
    && (r.spec.mutability.Immutable? ==> res.validUntil == 0)
    && (r.spec.mutability.MutableTtl? && r.spec.ttlSeconds > 0 ==> res.validUntil == now + r.spec.ttlSeconds)
  }

  ghost predicate SentOk(c: T.Chain, s: Sent, json: Json, parse: Parse) {
    && s.args.requestId in c.reg.requests
    && ProofFor(c.reg.requests[s.args.requestId], s.proof, parse)
    && Published(c.book, s.args.policyHash, s.proof.rules, json)
    && s.args.policySatisfied == Own(s.proof).satisfied
    && R.ParseOutcome(s.args.outcome) == Some(Own(s.proof).outcome)
    && R.ParseDiagnostic(s.args.diagnostic) == Some(Own(s.proof).diagnostic)
    && AsksExpiry(c.reg.requests[s.args.requestId], s.args.validUntil, s.proof.now)
    && s.from != ZERO
  }

  /** A resolution says what an evaluation under the very policy it names came to. */
  ghost predicate Backed(c: T.Chain, res: R.Resolution, p: Proof, json: Json, parse: Parse) {
    && res.requestId in c.reg.requests
    && ProofFor(c.reg.requests[res.requestId], p, parse)
    && Published(c.book, res.policyHash, p.rules, json)
    && res.policySatisfied == Own(p).satisfied
    && res.outcome == Own(p).outcome && res.diagnostic == Own(p).diagnostic
    && Expires(c.reg.requests[res.requestId], res, p.now)
  }

  ghost predicate PendingOk(w: World, json: Json, parse: Parse) {
    forall i :: 0 <= i < |w.pending| ==> SentOk(w.chain, w.pending[i], json, parse)
  }

  ghost predicate BasisOk(w: World, json: Json, parse: Parse) {
    forall id :: id in w.chain.reg.resolutions ==>
      id in w.basis && Backed(w.chain, w.chain.reg.resolutions[id], w.basis[id], json, parse)
  }

  ghost predicate ProbeOk(w: World, self: Address) {
    && AllCallbacks(w.delivered)
    && w.probe == Deliver(Fresh(w.registry, self), w.delivered)
    && forall m :: m in w.delivered ==> m in w.chain.reg.outbox && m.to == self
  }

  ghost predicate WorldOk(w: World, self: Address, json: Json, parse: Parse) {
    T.Good(w.chain) && PendingOk(w, json, parse) && BasisOk(w, json, parse) && ProbeOk(w, self)
  }

  // Evidence survives later steps

  ghost predicate Later(a: T.Chain, b: T.Chain) {
    && Res.Extends(a.reg, b.reg) && P.Frozen(a.book, b.book) && a.reg.outbox <= b.reg.outbox
  }

  lemma PublishedLater(a: P.Book, b: P.Book, hash: Digest, rules: Rules, json: Json)
    requires P.Frozen(a, b) && Published(a, hash, rules, json)
    ensures Published(b, hash, rules, json)
  {
    hide RulesOf;
    var key :| key in a.policies && a.policies[key].hash == hash && RulesOf(a.policies[key], json) == rules;
    RulesFrozen(a.policies[key], json);
    assert key in b.policies;
  }

  lemma RulesFrozen(rec: P.PolicyRecord, json: Json)
    ensures RulesOf(rec.(active := false, deprecated := true), json) == RulesOf(rec, json)
  {
    hide LenientParse;
  }

  lemma ProofLater(a: R.Request, b: R.Request, p: Proof, parse: Parse)
    requires I.SameIdentity(a, b) && ProofFor(a, p, parse)
    ensures ProofFor(b, p, parse)
  {
    hide Merged, Parsed, FetchedFrom;
  }

  lemma SentLater(a: T.Chain, b: T.Chain, s: Sent, json: Json, parse: Parse)
    requires Later(a, b) && SentOk(a, s, json, parse)
    ensures SentOk(b, s, json, parse)
  {
    hide Published, ProofFor, Own, P.Frozen, Res.LedgersGrow, R.ParseOutcome;
    PublishedLater(a.book, b.book, s.args.policyHash, s.proof.rules, json);
    var id := s.args.requestId;
    assert Res.RequestGrows(a.reg.requests[id], b.reg.requests[id]);
    ProofLater(a.reg.requests[id], b.reg.requests[id], s.proof, parse);
  }

  lemma BackedLater(a: T.Chain, b: T.Chain, res: R.Resolution, p: Proof, json: Json, parse: Parse)
    requires Later(a, b) && Backed(a, res, p, json, parse)
    ensures Backed(b, res, p, json, parse)
  {
    hide Published, ProofFor, Own, P.Frozen, Res.LedgersGrow;
    PublishedLater(a.book, b.book, res.policyHash, p.rules, json);
    var id := res.requestId;
    assert Res.RequestGrows(a.reg.requests[id], b.reg.requests[id]);
    ProofLater(a.reg.requests[id], b.reg.requests[id], p, parse);
  }

  lemma FrozenSame(b: P.Book)
    ensures P.Frozen(b, b)
  {
  }

  lemma ActLater(c: T.Chain, a: T.Action, json: Json)
    requires T.Good(c) && T.Signed(a)
    ensures Later(c, T.Act(c, a, json)) && T.Good(T.Act(c, a, json))
  {
    hide I.Inv, Res.Extends, P.Frozen, P.BookOk, R.Step, P.Step;
    Res.StepExtends(c, a, json);
    T.ActKeeps(c, a, json);
    if a.OnRegistry? {
      Q.OutboxGrows(c.reg, c.book, a.env, a.call);
      FrozenSame(c.book);
    } else {
      P.StepKeeps(c.book, a.policyCall, json);
    }
  }

  lemma PendingLater(w: World, c: T.Chain, json: Json, parse: Parse)
    requires PendingOk(w, json, parse) && Later(w.chain, c)
    ensures PendingOk(w.(chain := c), json, parse)
  {
    hide SentOk, Later;
    forall i | 0 <= i < |w.pending| ensures SentOk(c, w.pending[i], json, parse) {
      SentLater(w.chain, c, w.pending[i], json, parse);
    }
  }

  lemma ProbeLater(w: World, c: T.Chain, self: Address)
    requires ProbeOk(w, self) && w.chain.reg.outbox <= c.reg.outbox
    ensures ProbeOk(w.(chain := c), self)
  {
    hide Deliver;
    forall m | m in w.delivered ensures m in c.reg.outbox {
      var i :| 0 <= i < |w.chain.reg.outbox| && w.chain.reg.outbox[i] == m;
      assert c.reg.outbox[i] == m;
    }
  }

  lemma PublicKeeps(w: World, a: T.Action, self: Address, json: Json, parse: Parse)
    requires WorldOk(w, self, json, parse) && Allowed(w, Public(a), parse)
    ensures WorldOk(w.(chain := T.Act(w.chain, a, json)), self, json, parse)
  {
    hide T.Good, Backed, Res.Extends, P.Frozen, ProbeOk, PendingOk, R.Step, P.Step;
    var c := T.Act(w.chain, a, json);
    ActLater(w.chain, a, json);
    PendingLater(w, c, json, parse);
    ProbeLater(w, c, self);
    if a.OnRegistry? { Res.OnlyCommitsRecord(w.chain.reg, w.chain.book, a.env, a.call); }
    forall id | id in c.reg.resolutions
      ensures id in w.basis && Backed(c, c.reg.resolutions[id], w.basis[id], json, parse)
    {
      BackedLater(w.chain, c, w.chain.reg.resolutions[id], w.basis[id], json, parse);
    }
  }

  lemma ResolveKeeps(w: World, e: Event, self: Address, json: Json, parse: Parse)
    requires e.ResolverRun? && WorldOk(w, self, json, parse) && Hosted(parse, e.validUrl)
    ensures WorldOk(Resolve(w, e, json, parse), self, json, parse)
  {
    hide Hosted, T.Good, SentOk, Resolve, PendingOk, BasisOk, ProbeOk;
    var t := Resolve(w, e, json, parse);
    if t != w {
      var sent := ResolveSends(w, e, json, parse);
      PendingSnoc(w, sent, json, parse);
      SameBasis(w, t, json, parse);
      SameProbe(w, t, self);
    }
  }

  /** A run of a resolver sends nothing, or one commit that its evidence supports. */
  lemma ResolveSends(w: World, e: Event, json: Json, parse: Parse) returns (sent: Sent)
    requires e.ResolverRun? && T.Good(w.chain) && Hosted(parse, e.validUrl) && Resolve(w, e, json, parse) != w
    ensures SentOk(w.chain, sent, json, parse)
    ensures Resolve(w, e, json, parse) == w.(pending := w.pending + [sent])
  {
    hide T.Good, SentOk, Semantics, RulesOf, Accepts, Job, CommitOf, FetchedFrom, CandidatesOf, Hosted;
    var m := w.chain.reg.outbox[e.job];
    JobKnown(w.chain, m, e.templateOk, e.validUrl, parse);
    JobSound(w.chain, m, e, json, parse);
    var r := w.chain.reg.requests[m.requestId];
    var rec := Job(w.chain, m.to, m.requestId, m.attemptId, e.templateOk, e.validUrl, parse);
    sent := Sent(m.to, CommitOf(r, m.attemptId, e.leader, e.now),
                 Proof(e.fetched, r.spec.subject, RulesOf(rec.value, json), e.reply, e.now));
  }

  /**
   A resolver only sends a commit for a request that is live, from the resolver assigned to it, for
   its active attempt and with its bindings, after every URL was accepted.
  */
  lemma SentForLive(w: World, e: Event, json: Json, parse: Parse)
    requires e.ResolverRun? && T.Good(w.chain) && Resolve(w, e, json, parse) != w
    ensures |Resolve(w, e, json, parse).pending| == |w.pending| + 1
    ensures var sent := Resolve(w, e, json, parse).pending[|w.pending|];
            && sent.args.requestId in w.chain.reg.requests
            && var r := w.chain.reg.requests[sent.args.requestId];
            && (r.status == R.Dispatched || r.status == R.Pending)
            && sent.from == r.assignedResolver && sent.from != ZERO
            && sent.args.attemptId == r.activeAttempt
            && BindingsOf(r) == Bindings(sent.args.claimKey, sent.args.factKey, sent.args.specHash,
                                         sent.args.policyHash)
            && e.templateOk && forall k :: k in CandidatesOf(r, parse) ==> e.validUrl(k.url.text)
  {
    hide Semantics, RulesOf, Accepts, FetchedFrom, CandidatesOf, P.GetPolicy, T.Good, I.RequestsOk;
    GoodIds(w.chain);
  }

  lemma JobKnown(c: T.Chain, m: R.Message, templateOk: bool, validUrl: string -> bool, parse: Parse)
    requires m.ResolveRequest?
    ensures Job(c, m.to, m.requestId, m.attemptId, templateOk, validUrl, parse).Some? ==>
              m.requestId in c.reg.requests
  {
    hide CandidatesOf;
  }

  lemma PendingSnoc(w: World, sent: Sent, json: Json, parse: Parse)
    requires PendingOk(w, json, parse) && SentOk(w.chain, sent, json, parse)
    ensures PendingOk(w.(pending := w.pending + [sent]), json, parse)
  {
    hide SentOk;
  }

  lemma SameBasis(w: World, t: World, json: Json, parse: Parse)
    requires BasisOk(w, json, parse) && t.chain == w.chain && t.basis == w.basis
    ensures BasisOk(t, json, parse)
  {
    hide Backed;
  }

  lemma SameProbe(w: World, t: World, self: Address)
    requires ProbeOk(w, self) && t.chain == w.chain && t.probe == w.probe && t.delivered == w.delivered
    requires t.registry == w.registry
    ensures ProbeOk(t, self)
  {
    hide Deliver;
  }

  lemma SamePending(w: World, t: World, json: Json, parse: Parse)
    requires PendingOk(w, json, parse) && t.chain == w.chain && t.pending == w.pending
    ensures PendingOk(t, json, parse)
  {
    hide SentOk;
  }

  /** Every candidate is the parse of a stored text. */
  lemma CandidateParsed(r: R.Request, parse: Parse, k: Candidate) returns (text: string)
    requires k in CandidatesOf(r, parse)
    ensures k.url == parse(text)
  {
    hide Merged, SafeList;
    var seeds, extras := Parsed(r.seeds, parse), Parsed(r.supplementals, parse);
    MergeFacts(seeds, extras);
    var m := Merged(seeds, extras);
    var i :| 0 <= i < |m| && m[i] == k;
    if k.url in extras {
      text := ParsedFrom(r.supplementals, parse, k.url);
    } else {
      text := ParsedFrom(r.seeds, parse, k.url);
    }
  }

  lemma ParsedFrom(items: seq<string>, parse: Parse, u: Url) returns (text: string)
    requires u in Parsed(items, parse)
    ensures u == parse(text)
  {
    hide SafeList;
    var i :| 0 <= i < |Parsed(items, parse)| && Parsed(items, parse)[i] == u;
    text := SafeList(items)[i];
  }

  /** So a job that passes the URL check only fetches from URLs with a host. */
  lemma JobHosted(c: T.Chain, m: R.Message, e: Event, parse: Parse)
    requires m.ResolveRequest? && e.ResolverRun? && Hosted(parse, e.validUrl)
    requires Job(c, m.to, m.requestId, m.attemptId, e.templateOk, e.validUrl, parse).Some?
    ensures m.requestId in c.reg.requests
    ensures FetchedFrom(CandidatesOf(c.reg.requests[m.requestId], parse), e.fetched) ==> HostsOk(e.fetched)
  {
    hide CandidatesOf, HostOf, P.GetPolicy;
    var r := c.reg.requests[m.requestId];
    var cs := CandidatesOf(r, parse);
    if FetchedFrom(cs, e.fetched) {
      forall f | f in e.fetched ensures HostOf(f.url) != "" {
        var i :| 0 <= i < |e.fetched| && e.fetched[i] == f;
        assert cs[i] in cs;
        var text := CandidateParsed(r, parse, cs[i]);
      }
    }
  }

  lemma JobSound(c: T.Chain, m: R.Message, e: Event, json: Json, parse: Parse)
    requires T.Good(c) && m.ResolveRequest? && m.to != ZERO && e.ResolverRun? && Hosted(parse, e.validUrl)
    requires var rec := Job(c, m.to, m.requestId, m.attemptId, e.templateOk, e.validUrl, parse);
             && rec.Some?
             && FetchedFrom(CandidatesOf(c.reg.requests[m.requestId], parse), e.fetched)
             && Accepts(e.leader, BindingsOf(c.reg.requests[m.requestId]),
                        Semantics(e.fetched, e.reply, c.reg.requests[m.requestId].spec.subject,
                                  RulesOf(rec.value, json)))
    ensures var r := c.reg.requests[m.requestId];
            var rec := Job(c, m.to, m.requestId, m.attemptId, e.templateOk, e.validUrl, parse);
            SentOk(c, Sent(m.to, CommitOf(r, m.attemptId, e.leader, e.now),
                           Proof(e.fetched, r.spec.subject, RulesOf(rec.value, json), e.reply, e.now)), json, parse)
  {
    hide I.RequestsOk, I.ResolutionsOk, I.FactsOk, I.CountsOk, I.MoneyOk, I.OutboxOk, I.BooksOk, Semantics, RulesOf,
         Accepts, FetchedFrom, Merged, Parsed, R.ParseOutcome, R.ParseDiagnostic, Evaluate, Pipeline, Strip,
         P.StorageKey, HostsOk, Hosted;
    JobHosted(c, m, e, parse);
    var r := c.reg.requests[m.requestId];
    var rec := Job(c, m.to, m.requestId, m.attemptId, e.templateOk, e.validUrl, parse).value;
    var rules := RulesOf(rec, json);
    AcceptedSound(e.leader, BindingsOf(r), e.fetched, e.reply, r.spec.subject, rules);
    assert P.StorageKey(Strip(r.policyId), r.policyVersion) in c.book.policies;
  }

  // A delivered commit

  /** The end a commit asks for, unless the answer never expires. */
  predicate KeepsExpiry(r: R.Request, res: R.Resolution, until: nat) {
    && (r.spec.mutability.Immutable? ==> res.validUntil == 0)
    && (r.spec.mutability.MutableTtl? && until > 0 ==> res.validUntil == until)
  }

  /** A commit that is accepted adds one resolution, with the fields of the message. */
  lemma CommitAdds(c: T.Chain, env: R.Env, args: R.CommitArgs)
    requires T.Good(c) && R.Commit(c.reg, env, args).Ok?
    ensures var tx := R.Commit(c.reg, env, args);
            && args.requestId in c.reg.requests
            && tx.value !in c.reg.resolutions && tx.value in tx.state.resolutions
            && tx.state.resolutions == c.reg.resolutions[tx.value := tx.state.resolutions[tx.value]]
            && (var res := tx.state.resolutions[tx.value];
                && res.requestId == args.requestId && res.policyHash == args.policyHash
                && res.policySatisfied == args.policySatisfied
                && R.ParseOutcome(args.outcome) == Some(res.outcome)
                && R.ParseDiagnostic(args.diagnostic) == Some(res.diagnostic)
                && KeepsExpiry(c.reg.requests[args.requestId], res, args.validUntil))
  {
    hide T.Good, R.Commit, R.Record, C.Recorded, R.ParseOutcome, I.RequestsOk, I.IdsOk;
    GoodIds(c);
    CommitMatches(c.reg, env, args);
    var r, res := Res.CommitRecord(c.reg, env, args);
    C.RecordIs(c.reg, r, res);
    NewId(c.reg, r, res);
  }

  lemma GoodIds(c: T.Chain)
    requires T.Good(c)
    ensures I.IdsOk(c.reg) && I.RequestsOk(c.reg)
  {
    hide I.IdsOk, I.RequestsOk, I.ResolutionsOk, I.FactsOk, I.CountsOk, I.MoneyOk, I.OutboxOk, I.BooksOk;
  }

  lemma CommitMatches(s: R.State, env: R.Env, args: R.CommitArgs)
    requires I.IdsOk(s) && R.Commit(s, env, args).Ok?
    ensures args.requestId in s.requests && R.Commit(s, env, args).value == s.nextResolution
    ensures s.requests[args.requestId].id == args.requestId
    ensures args.policyHash == s.requests[args.requestId].policyHash
  {
    hide R.Record, R.NewResolution, R.ParseOutcome, R.ParseDiagnostic, Strip;
  }

  lemma NewId(s: R.State, r: R.Request, res: R.Resolution)
    requires I.IdsOk(s) && C.Fresh(s, r, res) && C.Recorded(s, R.Record(s, r, res), r, res)
    ensures var t := R.Record(s, r, res);
            && res.id == s.nextResolution && res.id !in s.resolutions && t.resolutions == s.resolutions[res.id := res]
            && res.requestId == r.id && r.id in s.requests && s.requests[r.id] == r && res.policyHash == r.policyHash
  {
    hide R.Record, R.PrevLatest, R.NextFact, C.ResolvedRequest, R.CallbackMessage;
  }

  lemma CommitLater(c: T.Chain, env: R.Env, args: R.CommitArgs)
    requires T.Good(c) && env.sender != ZERO && R.Commit(c.reg, env, args).Ok?
    ensures var d := c.(reg := R.Commit(c.reg, env, args).state); Later(c, d) && T.Good(d)
  {
    hide T.Good, Later, R.Commit;
    ActLater(c, T.OnRegistry(env, R.CommitResolution(args)), (s: string) => None);
  }

  lemma DeliverKeeps(w: World, i: nat, env: R.Env, self: Address, json: Json, parse: Parse)
    requires WorldOk(w, self, json, parse) && i < |w.pending|
    ensures WorldOk(AcceptCommit(w, w.pending[i], env), self, json, parse)
  {
    hide T.Good, Backed, SentOk, ProbeOk, PendingOk, R.Commit, Later;
    var sent := w.pending[i];
    var signed := env.(sender := sent.from);
    if R.Commit(w.chain.reg, signed, sent.args).Ok? {
      var tx := R.Commit(w.chain.reg, signed, sent.args);
      var c := w.chain.(reg := tx.state);
      PendingSigned(w, i, json, parse);
      CommitAdds(w.chain, signed, sent.args);
      CommitLater(w.chain, signed, sent.args);
      LaterSends(w.chain, c);
      PendingLater(w, c, json, parse);
      ProbeLater(w, c, self);
      NewBacked(w, c, i, tx.value, json, parse);
      var basis := w.basis[tx.value := sent.proof];
      forall id | id in c.reg.resolutions
        ensures id in basis && Backed(c, c.reg.resolutions[id], basis[id], json, parse)
      {
        if id != tx.value { BackedLater(w.chain, c, w.chain.reg.resolutions[id], w.basis[id], json, parse); }
      }
      SameParts(w, c, basis, json, parse, self);
    }
  }

  lemma LaterSends(a: T.Chain, b: T.Chain)
    requires Later(a, b)
    ensures a.reg.outbox <= b.reg.outbox
  {
  }

  lemma PendingSigned(w: World, i: nat, json: Json, parse: Parse)
    requires PendingOk(w, json, parse) && i < |w.pending|
    ensures SentOk(w.chain, w.pending[i], json, parse) && w.pending[i].from != ZERO
  {
    hide ProofFor, Published, Own, R.ParseOutcome;
  }

  /** The two predicates that do not look at the basis. */
  lemma SameParts(w: World, c: T.Chain, basis: map<nat, Proof>, json: Json, parse: Parse, self: Address)
    requires PendingOk(w.(chain := c), json, parse) && ProbeOk(w.(chain := c), self)
    ensures PendingOk(w.(chain := c, basis := basis), json, parse)
    ensures ProbeOk(w.(chain := c, basis := basis), self)
  {
    hide SentOk, Deliver;
  }

  lemma NewBacked(w: World, c: T.Chain, i: nat, id: nat, json: Json, parse: Parse)
    requires PendingOk(w, json, parse) && i < |w.pending| && Later(w.chain, c) && id in c.reg.resolutions
    requires var res, args := c.reg.resolutions[id], w.pending[i].args;
             && res.requestId == args.requestId && res.policyHash == args.policyHash
             && res.policySatisfied == args.policySatisfied
             && R.ParseOutcome(args.outcome) == Some(res.outcome)
             && R.ParseDiagnostic(args.diagnostic) == Some(res.diagnostic)
             && res.requestId in w.chain.reg.requests
             && KeepsExpiry(w.chain.reg.requests[res.requestId], res, args.validUntil)
    ensures Backed(c, c.reg.resolutions[id], w.pending[i].proof, json, parse)
  {
    hide ProofFor, Published, Own, R.ParseOutcome, R.ParseDiagnostic, Later;
    SentLater(w.chain, c, w.pending[i], json, parse);
    SpecLater(w.chain, c, w.pending[i].args.requestId);
  }

  lemma SpecLater(a: T.Chain, b: T.Chain, id: nat)
    requires Later(a, b) && id in a.reg.requests
    ensures id in b.reg.requests && b.reg.requests[id].spec == a.reg.requests[id].spec
  {
    hide P.Frozen, Res.LedgersGrow;
    assert Res.RequestGrows(a.reg.requests[id], b.reg.requests[id]);
  }

  // The consumer

  lemma ReceiveKeeps(w: World, m: R.Message, self: Address, json: Json, parse: Parse)
    requires WorldOk(w, self, json, parse) && m.Callback? && m in w.chain.reg.outbox && m.to == self
    ensures WorldOk(ConsumerReceives(w, w.registry, m), self, json, parse)
  {
    hide T.Good, PendingOk, BasisOk, ProbeOk, OnResult;
    var t := ConsumerReceives(w, w.registry, m);
    SamePending(w, t, json, parse);
    SameBasis(w, t, json, parse);
    ProbeReceives(w, m, self);
  }

  lemma ProbeReceives(w: World, m: R.Message, self: Address)
    requires ProbeOk(w, self) && m.Callback? && m in w.chain.reg.outbox && m.to == self
    ensures ProbeOk(ConsumerReceives(w, w.registry, m), self)
  {
    hide IdOf;
    var all := w.delivered + [m];
    assert all[..|all| - 1] == w.delivered && all[|all| - 1] == m;
  }

  lemma StepKeeps(w: World, e: Event, self: Address, json: Json, parse: Parse)
    requires WorldOk(w, self, json, parse) && Allowed(w, e, parse)
    ensures WorldOk(Happens(w, e, json, parse), self, json, parse)
    ensures Happens(w, e, json, parse).registry == w.registry
  {
    hide WorldOk, T.Act, Resolve, R.Commit, Hosted;
    match e
    case Public(action) => PublicKeeps(w, action, self, json, parse);
    case ResolverRun(_, _, _, _, _, _, _) =>
      ResolveKeeps(w, e, self, json, parse);
      ResolveRegistry(w, e, json, parse);
    case DeliverCommit(i, env) => if i < |w.pending| { DeliverKeeps(w, i, env, self, json, parse); }
    case DeliverCallback(i) =>
      var outbox := w.chain.reg.outbox;
      ProbeSelf(w, self, json, parse);
      if i < |outbox| && outbox[i].Callback? && outbox[i].to == self {
        ReceiveKeeps(w, outbox[i], self, json, parse);
      }
    case CallConsumer(sender, m) => ProbeSelf(w, self, json, parse);
  }

  lemma ResolveRegistry(w: World, e: Event, json: Json, parse: Parse)
    requires e.ResolverRun?
    ensures Resolve(w, e, json, parse).registry == w.registry
  {
    hide Semantics, Job, Accepts, FetchedFrom, CandidatesOf;
  }

  lemma ProbeSelf(w: World, self: Address, json: Json, parse: Parse)
    requires WorldOk(w, self, json, parse)
    ensures w.probe.self == self && w.probe.registry == w.registry
  {
    hide T.Good, PendingOk, BasisOk;
  }

  ghost predicate AllAllowed(w: World, events: seq<Event>, parse: Parse) {
    forall e :: e in events ==> Allowed(w, e, parse)
  }

  lemma {:induction false} AfterKeeps(cfg: R.Config, owner: Address, registry: Address, self: Address,
                                      events: seq<Event>, json: Json, parse: Parse)
    requires cfg.maxAttempts >= 1 && AllAllowed(Start(cfg, owner, registry, self), events, parse)
    ensures var w := After(Start(cfg, owner, registry, self), events, json, parse);
            WorldOk(w, self, json, parse) && w.registry == registry
  {
    hide WorldOk, Happens, R.Initial, P.Initial, Allowed;
    if |events| == 0 {
      StartOk(cfg, owner, registry, self, json, parse);
    } else {
      var front, last := events[..|events| - 1], events[|events| - 1];
      AfterKeeps(cfg, owner, registry, self, front, json, parse);
      var mid := After(Start(cfg, owner, registry, self), front, json, parse);
      assert last in events;
      SameAllowed(Start(cfg, owner, registry, self), mid, last, parse);
      StepKeeps(mid, last, self, json, parse);
    }
  }

  lemma SameAllowed(w: World, v: World, e: Event, parse: Parse)
    requires Allowed(w, e, parse) && w.registry == v.registry
    ensures Allowed(v, e, parse)
  {
    hide Hosted;
  }

  lemma StartOk(cfg: R.Config, owner: Address, registry: Address, self: Address, json: Json, parse: Parse)
    requires cfg.maxAttempts >= 1
    ensures WorldOk(Start(cfg, owner, registry, self), self, json, parse)
  {
    hide T.Good;
    T.InitialGood(cfg, owner);
  }

  ghost predicate Reached(cfg: R.Config, owner: Address, registry: Address, self: Address, events: seq<Event>,
                          json: Json, parse: Parse, w: World) {
    && cfg.maxAttempts >= 1 && AllAllowed(Start(cfg, owner, registry, self), events, parse)
    && w == After(Start(cfg, owner, registry, self), events, json, parse)
  }

  // Main results

  /**
   When all commits come from resolvers, every resolution that answers TRUE or FALSE rests on
   fetched sources that satisfy the published policy its hash names, and its satisfied flag is
   never wrong.
  */
  lemma BooleanRestsOnPolicy(cfg: R.Config, owner: Address, registry: Address, self: Address, events: seq<Event>,
                             json: Json, parse: Parse, w: World, id: nat)
    requires Reached(cfg, owner, registry, self, events, json, parse, w)
    requires id in w.chain.reg.resolutions
    ensures id in w.basis && w.chain.reg.resolutions[id].requestId in w.chain.reg.requests
    ensures var res, p := w.chain.reg.resolutions[id], w.basis[id];
            var r := w.chain.reg.requests[res.requestId];
            && p.subject == r.spec.subject
            && FetchedFrom(CandidatesOf(r, parse), p.fetched) && HostsOk(p.fetched)
            && Published(w.chain.book, res.policyHash, p.rules, json)
            && (res.policySatisfied <==> Evaluate(Pipeline(p.fetched, p.subject, p.rules), p.rules).ok)
            && (R.Boolean(res.outcome) ==> Evaluate(Pipeline(p.fetched, p.subject, p.rules), p.rules).ok)
  {
    hide T.Good, After, Published, Merged, Parsed, FetchedFrom, Evaluate, Pipeline, PendingOk, ProbeOk, AllAllowed,
         HostsOk, Semantics, Expires;
    AfterKeeps(cfg, owner, registry, self, events, json, parse);
    var p := w.basis[id];
    assert Backed(w.chain, w.chain.reg.resolutions[id], p, json, parse);
    SemanticsSound(p.fetched, p.reply, p.subject, p.rules);
  }

  /**
   And it says exactly what a validator made of its own sources and its own reply: the outcome
   and the diagnostic are those of that evaluation, TRUE or FALSE exactly when the reply claims
   it of sources that meet the policy, with the bindings of its request; and a mutable answer
   expires its time to live after the resolver ran.
  */
  lemma ResolutionTells(cfg: R.Config, owner: Address, registry: Address, self: Address, events: seq<Event>,
                        json: Json, parse: Parse, w: World, id: nat)
    requires Reached(cfg, owner, registry, self, events, json, parse, w)
    requires id in w.chain.reg.resolutions
    ensures id in w.basis && w.chain.reg.resolutions[id].requestId in w.chain.reg.requests
    ensures var res, p := w.chain.reg.resolutions[id], w.basis[id];
            var r, rs := w.chain.reg.requests[res.requestId], Clustered(p.fetched, p.subject);
            && res.outcome == Semantics(p.fetched, p.reply, p.subject, p.rules).outcome
            && res.diagnostic == Semantics(p.fetched, p.reply, p.subject, p.rules).diagnostic
            && (res.policySatisfied <==> Met(rs, p.rules))
            && (res.outcome == R.OutTrue <==> Met(rs, p.rules) && Claims(p.reply, R.OutTrue))
            && (res.outcome == R.OutFalse <==> Met(rs, p.rules) && Claims(p.reply, R.OutFalse))
            && BindingsOf(r) == Bindings(res.claimKey, res.factKey, res.specHash, res.policyHash)
            && (r.spec.mutability.Immutable? ==> res.validUntil == 0)
            && (r.spec.mutability.MutableTtl? && r.spec.ttlSeconds > 0 ==>
                  res.validUntil == p.now + r.spec.ttlSeconds)
  {
    hide T.Good, After, Published, Merged, Parsed, FetchedFrom, Met, Clustered, PendingOk, ProbeOk, AllAllowed,
         HostsOk, Semantics, ProofFor, Claims;
    AfterKeeps(cfg, owner, registry, self, events, json, parse);
    var p := w.basis[id];
    assert Backed(w.chain, w.chain.reg.resolutions[id], p, json, parse);
    SemanticsExact(p.fetched, p.reply, p.subject, p.rules);
    BoundAs(w.chain, id);
  }

  lemma BoundAs(c: T.Chain, id: nat)
    requires T.Good(c) && id in c.reg.resolutions
    ensures var res := c.reg.resolutions[id];
            && res.requestId in c.reg.requests
            && BindingsOf(c.reg.requests[res.requestId])
               == Bindings(res.claimKey, res.factKey, res.specHash, res.policyHash)
  {
    hide I.IdsOk, I.RequestsOk, I.FactsOk, I.CountsOk, I.MoneyOk, I.OutboxOk, I.BooksOk;
    assert I.OwnedOk(c.reg, c.reg.resolutions[id]);
  }

  /** Policies with one hash have one meaning. */
  lemma RulesByHash(b: P.Book, key: string, hash: Digest, rules: Rules, json: Json)
    requires P.BookOk(b) && key in b.policies && b.policies[key].hash == hash && Published(b, hash, rules, json)
    ensures RulesOf(b.policies[key], json) == rules
  {
    hide LenientParse, P.CanonicalLists, Norm, P.StorageKey, P.LatestOk;
    var other :| other in b.policies && b.policies[other].hash == hash && RulesOf(b.policies[other], json) == rules;
    assert P.RecordOk(key, b.policies[key]) && P.RecordOk(other, b.policies[other]);
  }

  /** The rules an evaluation used, field by field as the policy was published. */
  predicate UnderPolicy(rules: Rules, rec: P.PolicyRecord, json: Json) {
    && rules.allowed == LenientParse(rec.allowed, json) && rules.disallowed == LenientParse(rec.disallowed, json)
    && rules.minPrimary == rec.minPrimary && rules.minIndependent == rec.minIndependent
    && rules.requireCross == rec.crossCheck
  }

  /** A policy of the book that a resolution's hash names. */
  predicate Names(b: P.Book, key: string, res: R.Resolution) {
    key in b.policies && b.policies[key].hash == res.policyHash
  }

  lemma RulesNamed(w: World, self: Address, json: Json, parse: Parse, id: nat, key: string)
    requires WorldOk(w, self, json, parse) && id in w.chain.reg.resolutions
    requires Names(w.chain.book, key, w.chain.reg.resolutions[id])
    ensures id in w.basis && RulesOf(w.chain.book.policies[key], json) == w.basis[id].rules
    ensures UnderPolicy(w.basis[id].rules, w.chain.book.policies[key], json)
  {
    hide I.Inv, PendingOk, ProbeOk, ProofFor, Own, LenientParse, P.BookOk, I.PolicyBound, Published;
    assert Backed(w.chain, w.chain.reg.resolutions[id], w.basis[id], json, parse);
    RulesByHash(w.chain.book, key, w.chain.reg.resolutions[id].policyHash, w.basis[id].rules, json);
  }

  /**
   A boolean resolution rests on an acceptable source, on as many acceptable primary sources and
   on as many distinct provenance groups as the policy its hash names was published to want.
  */
  lemma BooleanMeetsPolicy(cfg: R.Config, owner: Address, registry: Address, self: Address, events: seq<Event>,
                           json: Json, parse: Parse, w: World, id: nat, key: string)
    requires Reached(cfg, owner, registry, self, events, json, parse, w)
    requires id in w.chain.reg.resolutions && R.Boolean(w.chain.reg.resolutions[id].outcome)
    requires Names(w.chain.book, key, w.chain.reg.resolutions[id])
    ensures id in w.basis && UnderPolicy(w.basis[id].rules, w.chain.book.policies[key], json)
    ensures var p, rec := w.basis[id], w.chain.book.policies[key];
            var rs := Clustered(p.fetched, p.subject);
            && (exists r :: r in rs && Acceptable(r, p.rules))
            && CountIf(rs, PrimaryUnder(p.rules)) >= rec.minPrimary
            && |Groups(rs, p.rules)| >= rec.minIndependent
            && (rec.crossCheck ==> |Groups(rs, p.rules)| >= 2)
  {
    hide WorldOk, After, AllAllowed, Clustered, Acceptable, CountIf, Groups, Semantics, LenientParse, RulesOf, Claims;
    AfterKeeps(cfg, owner, registry, self, events, json, parse);
    ResolutionTells(cfg, owner, registry, self, events, json, parse, w, id);
    RulesNamed(w, self, json, parse, id, key);
  }

  /**
   A boolean resolution under a policy that wants a cross-check rests on two sources that were
   counted separately and are independent of each other.
  */
  lemma CrossCheckedBoolean(cfg: R.Config, owner: Address, registry: Address, self: Address, events: seq<Event>,
                            json: Json, parse: Parse, w: World, id: nat, key: string)
    requires Reached(cfg, owner, registry, self, events, json, parse, w)
    requires id in w.chain.reg.resolutions && R.Boolean(w.chain.reg.resolutions[id].outcome)
    requires Names(w.chain.book, key, w.chain.reg.resolutions[id]) && w.chain.book.policies[key].crossCheck
    ensures id in w.basis && RestsOnTwo(w.basis[id])
  {
    hide WorldOk, After, AllAllowed, Pipeline, Evaluate, HostsOk, FetchedFrom, Published, CandidatesOf, LenientParse,
         IndependentOf;
    AfterKeeps(cfg, owner, registry, self, events, json, parse);
    BooleanRestsOnPolicy(cfg, owner, registry, self, events, json, parse, w, id);
    RulesNamed(w, self, json, parse, id, key);
    var p := w.basis[id];
    CrossCheckSound(p.fetched, p.subject, p.rules);
  }

  predicate RestsOnTwo(p: Proof) {
    var out := Pipeline(p.fetched, p.subject, p.rules);
    exists i, j :: 0 <= i < j < |out| && IndependentOf(out[i], out[j]) && out[i].independent && out[j].independent
  }

  /**
   Under a policy that wants two primary sources no resolution is ever boolean, unless the
   subject is itself a bare compound top-level domain.
  */
  lemma NoBooleanWithTwoPrimaries(cfg: R.Config, owner: Address, registry: Address, self: Address,
                                  events: seq<Event>, json: Json, parse: Parse, w: World, id: nat, key: string)
    requires Reached(cfg, owner, registry, self, events, json, parse, w)
    requires id in w.chain.reg.resolutions && w.chain.reg.resolutions[id].requestId in w.chain.reg.requests
    requires Names(w.chain.book, key, w.chain.reg.resolutions[id]) && w.chain.book.policies[key].minPrimary >= 2
    requires var r := w.chain.reg.requests[w.chain.reg.resolutions[id].requestId];
             SubjectAuthority(r.spec.subject).host !in COMPOUND_TLDS
    ensures w.chain.reg.resolutions[id].outcome == R.Unresolved && !w.chain.reg.resolutions[id].policySatisfied
  {
    hide WorldOk, After, AllAllowed, Pipeline, Evaluate, HostsOk, FetchedFrom, Published, CandidatesOf, LenientParse,
         SubjectAuthority;
    AfterKeeps(cfg, owner, registry, self, events, json, parse);
    BooleanRestsOnPolicy(cfg, owner, registry, self, events, json, parse, w, id);
    RulesNamed(w, self, json, parse, id, key);
    var p := w.basis[id];
    TwoPrimariesNeverMet(p.fetched, p.subject, p.rules);
  }

  predicate LastBoolean(rs: seq<R.Resolution>, i: nat) {
    && i < |rs|
    && (forall k :: i < k < |rs| ==> !R.Boolean(rs[k].outcome))
    && ((exists k :: 0 <= k < |rs| && R.Boolean(rs[k].outcome)) ==> R.Boolean(rs[i].outcome))
    && ((forall k :: 0 <= k < |rs| ==> !R.Boolean(rs[k].outcome)) ==> i == |rs| - 1)
  }

  /** Then a fact's head is the last boolean resolution of its history, or the last of all. */
  lemma HeadIsLastBoolean(cfg: R.Config, owner: Address, registry: Address, self: Address, events: seq<Event>,
                          json: Json, parse: Parse, w: World, key: Digest)
    requires Reached(cfg, owner, registry, self, events, json, parse, w) && key in w.chain.reg.facts
    ensures key in w.chain.reg.history
            && I.Chained(w.chain.reg.history[key], w.chain.reg.resolutions, key)
    ensures var rs := I.Records(w.chain.reg.history[key], w.chain.reg.resolutions);
            exists i: nat :: LastBoolean(rs, i) && I.FactMatches(w.chain.reg.facts[key], rs[i], rs[|rs| - 1])
  {
    hide After, Backed, PendingOk, ProbeOk, T.Good, BasisOk, LastBoolean, I.FactsOk, Res.IsCanonical, I.Chained,
         I.FactMatches;
    AfterKeeps(cfg, owner, registry, self, events, json, parse);
    var s := w.chain.reg;
    Res.GoodFacts(w.chain);
    Res.GoodHead(s, key);
    Res.HistoryKnown(s, key);
    var rs := I.Records(s.history[key], s.resolutions);
    forall k | 0 <= k < |rs| ensures R.Boolean(rs[k].outcome) ==> rs[k].policySatisfied {
      BackedSatisfied(w, s.history[key][k], json, parse);
    }
    Res.HeadIsCanonical(rs);
    assert Res.IsCanonical(rs, I.HeadIndex(rs));
    CanonicalIsLast(rs, I.HeadIndex(rs));
  }

  lemma BackedSatisfied(w: World, id: nat, json: Json, parse: Parse)
    requires BasisOk(w, json, parse) && id in w.chain.reg.resolutions
    ensures R.Boolean(w.chain.reg.resolutions[id].outcome) ==> w.chain.reg.resolutions[id].policySatisfied
  {
    hide Published, ProofFor, Semantics;
    var p := w.basis[id];
    assert Backed(w.chain, w.chain.reg.resolutions[id], p, json, parse);
    SemanticsSound(p.fetched, p.reply, p.subject, p.rules);
  }

  lemma CanonicalIsLast(rs: seq<R.Resolution>, i: nat)
    requires Res.IsCanonical(rs, i)
    requires forall k :: 0 <= k < |rs| && R.Boolean(rs[k].outcome) ==> rs[k].policySatisfied
    ensures LastBoolean(rs, i)
  {
    if exists k :: 0 <= k < |rs| && R.Boolean(rs[k].outcome) {
      var k :| 0 <= k < |rs| && R.Boolean(rs[k].outcome);
      assert Res.Satisfied(rs[k]);
      forall j | i < j < |rs| ensures !R.Boolean(rs[j].outcome) { assert !Res.Satisfied(rs[j]); }
    }
  }

  /**
   However callbacks are reordered, repeated or lost on the way to a consumer: each payload
   that arrives takes effect exactly once, at most one a request, and the consumer's two
   counters account for every accepted delivery.
  */
  lemma CallbacksTakeEffectOnce(cfg: R.Config, owner: Address, registry: Address, self: Address,
                                events: seq<Event>, json: Json, parse: Parse, w: World)
    requires Reached(cfg, owner, registry, self, events, json, parse, w)
    ensures AllCallbacks(w.delivered)
    ensures var out := Effects(Fresh(registry, self), w.delivered);
            && AllCallbacks(out)
            && (forall m :: m in w.delivered <==> m in out)
            && w.probe.callbackCount == |out|
            && w.probe.callbackCount + w.probe.duplicateIgnored == |w.delivered|
            && (forall i, j :: 0 <= i < j < |out| ==> out[i].requestId != out[j].requestId)
  {
    hide After, Backed, PendingOk, T.Good, BasisOk, Effects, Deliver, IdOf;
    AfterKeeps(cfg, owner, registry, self, events, json, parse);
    var p := Fresh(registry, self);
    ExactlyOnce(registry, self, w.delivered);
    forall x, y | x in w.delivered && y in w.delivered
      ensures IdOf(p, x) == IdOf(p, y) <==> x == y
      ensures x.requestId == y.requestId <==> x == y
    {
      SameCallback(w.chain, p, x, y);
    }
    EveryPayloadApplied(p, w.delivered);
  }

  lemma SameCallback(c: T.Chain, p: Probe, x: R.Message, y: R.Message)
    requires T.Good(c) && x.Callback? && y.Callback? && x in c.reg.outbox && y in c.reg.outbox
    ensures IdOf(p, x) == IdOf(p, y) <==> x == y
    ensures x.requestId == y.requestId <==> x == y
  {
    hide I.RequestsOk, I.ResolutionsOk, I.FactsOk, I.CountsOk, I.MoneyOk, I.BooksOk;
    assert I.MessageOk(c.reg, x) && I.MessageOk(c.reg, y);
  }
}
