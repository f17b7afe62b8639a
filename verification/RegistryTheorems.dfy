/**
 The registry together with the policy registry it reads, run through any interleaving of
 calls by anyone, and what holds in every state such a run reaches.
*/
module RegistryTheorems {
  import opened Common
  import opened Text
  import opened Digests
  import opened Sums
  import opened Seqs
  import opened Registry
  import opened RegistryInvariant
  import opened RegistryRuns
  import opened RegistryCommit
  import opened SourceClasses
  import P = PolicyRegistry

  datatype Chain = Chain(reg: State, book: P.Book)

  datatype Action =
    | OnRegistry(env: Env, call: Call)
    | OnPolicies(policyCall: P.Call)

  function Act(c: Chain, a: Action, json: Json): Chain {
    match a
    case OnRegistry(env, call) => c.(reg := Step(c.reg, c.book, env, call))
    case OnPolicies(call) => c.(book := P.Step(c.book, call, json))
  }

  function Run(c: Chain, actions: seq<Action>, json: Json): Chain {
    if |actions| == 0 then c
    else Act(Run(c, actions[..|actions| - 1], json), actions[|actions| - 1], json)
  }

  /** Calls come from real accounts. */
  predicate Signed(a: Action) { a.OnRegistry? ==> a.env.sender != ZERO }

  ghost predicate Good(c: Chain) {
    Inv(c.reg) && BooksOk(c.reg, c.book) && c.reg.cfg.maxAttempts >= 1
  }

  /** A chain is reachable when some run of signed actions leads to it from fresh contracts. */
  ghost predicate Reaches(cfg: Config, owner: Address, actions: seq<Action>, json: Json, c: Chain) {
    && cfg.maxAttempts >= 1
    && (forall a :: a in actions ==> Signed(a))
    && c == Run(Chain(Initial(cfg), P.Initial(owner)), actions, json)
  }

  lemma InitialGood(cfg: Config, owner: Address)
    requires cfg.maxAttempts >= 1
    ensures Good(Chain(Initial(cfg), P.Initial(owner)))
  {
    var s := Initial(cfg);
    assert StatusWeights(s.requests, Resolved) == map[] && StatusWeights(s.requests, Reused) == map[];
    assert FeeWeights(s.requests) == map[];
    P.InitialOk(owner);
  }

  // Preservation by every call

  lemma RegistryStepKeeps(c: Chain, env: Env, call: Call)
    requires Good(c) && env.sender != ZERO
    ensures Good(c.(reg := Step(c.reg, c.book, env, call)))
  {
    hide Inv, BooksOk, CreateRequest, Retry, Cancel, Commit, CallbackRetry, MarkCallback, Withdraw;
    var s, t := c.reg, Step(c.reg, c.book, env, call);
    if Execute(s, c.book, env, call).Ok? {
      match call
      case RequestFact(value, args) => CreateKeeps(s, c.book, env, value, args); CreationAddsOne(s, c.book, env, call);
      case Refresh(value, key, seeds, callback) =>
        var prev := s.requests[s.facts[key].currentRequest];
        var urls := if seeds.Some? then seeds.value else prev.seeds;
        CreateKeeps(s, c.book, env, value, ArgsOf(prev, urls, callback, []));
        CreationAddsOne(s, c.book, env, call);
      case Reassessment(value, key, extras, notes, callback) =>
        var prev := s.requests[s.facts[key].currentRequest];
        CreateKeeps(s, c.book, env, value, ArgsOf(prev, prev.seeds, callback, extras));
        CreationAddsOne(s, c.book, env, call);
      case RetryResolution(value, id) => RetryKeeps(s, env, value, id); OldRequestsBound(s, c.book, env, call);
      case CancelStale(id) => CancelKeeps(s, env, id); OldRequestsBound(s, c.book, env, call);
      case CommitResolution(commit) => CommitKeeps(s, env, commit); OldRequestsBound(s, c.book, env, call);
      case RequestCallbackRetry(id) => CallbackRetryKeeps(s, env, id); OldRequestsBound(s, c.book, env, call);
      case MarkCallbackResult(id, succeeded) =>
        MarkKeeps(s, env, id, succeeded);
        OldRequestsBound(s, c.book, env, call);
      case WithdrawCredit => WithdrawKeeps(s, env); OldRequestsBound(s, c.book, env, call);
      case Reconfigure(cfg) => ReconfigureKeeps(s, c.book, cfg);
    }
  }

  predicate Creates(call: Call) { call.RequestFact? || call.Refresh? || call.Reassessment? }

  /** A creating call that commits adds one request, under the next id, and nothing else. */
  ghost predicate AddsOne(s: State, t: State) {
    && SameLedgers(s, t) && t.nextRequest == s.nextRequest + 1 && t.cfg == s.cfg
    && s.nextRequest in t.requests
    && t.requests == s.requests[s.nextRequest := t.requests[s.nextRequest]]
  }

  /** Storing one request, under whatever id it has. */
  ghost predicate Puts(s: State, t: State, id: nat) {
    && SameLedgers(s, t) && t.nextRequest == s.nextRequest && t.cfg == s.cfg
    && id in t.requests && t.requests == s.requests[id := t.requests[id]]
  }

  lemma DispatchPuts(s: State, env: Env, r: Request)
    requires Dispatch(s, env, r).Ok?
    ensures Puts(s, Dispatch(s, env, r).state, r.id) && Dispatch(s, env, r).value == r.id
  {
  }

  lemma ReusePuts(s: State, r: Request)
    requires r.factKey in s.facts
    ensures Puts(s, StoreReused(s, r), r.id)
  {
    hide CallbackMessage;
  }

  lemma CreateAddsOne(s: State, book: P.Book, env: Env, value: nat, a: CreateArgs)
    requires CreateRequest(s, book, env, value, a).Ok?
    ensures AddsOne(s, CreateRequest(s, book, env, value, a).state)
    ensures CreateRequest(s, book, env, value, a).value == s.nextRequest
  {
    hide Credit, CheckArgs, LoadPolicy, Quote, NewRequest, Dispatch, StoreReused, ReuseHit, FactKeyOf, ClaimKeyOf;
    var c := CheckArgs(a, s.cfg.maxSeedUrls, env.validUrl);
    var hash := LoadPolicy(book, c.policyId, a.policyVersion).hash;
    var reuse := ReuseHit(s, env, c, hash, a.template.hash);
    var fee := Quote(s.cfg, reuse);
    var r := NewRequest(s, env, a, c, hash, fee);
    var paid := Receive(s, env.sender, value, fee).(nextRequest := s.nextRequest + 1);
    NewRequestFields(s, env, a, c, hash, fee);
    if reuse {
      ReuseHitFact(s, env, c, hash, a.template.hash);
      ReusePuts(paid, r);
    } else {
      DispatchPuts(paid, env, r.(attemptCount := 1));
    }
  }

  lemma ReuseHitFact(s: State, env: Env, c: Checked, hash: Digest, template: Digest)
    requires c.Checked? && ReuseHit(s, env, c, hash, template)
    ensures FactKeyOf(ClaimKeyOf(c.spec), hash, c.spec.schemaVersion, template) in s.facts
  {
    hide Norm, FreshnessAllows, FactKeyOf, ClaimKeyOf;
  }

  lemma NewRequestFields(s: State, env: Env, a: CreateArgs, c: Checked, hash: Digest, fee: nat)
    requires c.Checked?
    ensures var r := NewRequest(s, env, a, c, hash, fee);
            r.id == s.nextRequest
            && r.factKey == FactKeyOf(ClaimKeyOf(c.spec), hash, c.spec.schemaVersion, a.template.hash)
  {
  }

  lemma CreationAddsOne(s: State, book: P.Book, env: Env, call: Call)
    requires Creates(call)
    ensures Step(s, book, env, call) == s || AddsOne(s, Step(s, book, env, call))
  {
    hide CreateRequest, Strip, ArgsOf, AddsOne;
    if Execute(s, book, env, call).Ok? {
      match call
      case RequestFact(value, args) => CreateAddsOne(s, book, env, value, args);
      case Refresh(value, key, seeds, callback) =>
        var prev := s.requests[s.facts[key].currentRequest];
        var urls := if seeds.Some? then seeds.value else prev.seeds;
        CreateAddsOne(s, book, env, value, ArgsOf(prev, urls, callback, []));
      case Reassessment(value, key, extras, notes, callback) =>
        var prev := s.requests[s.facts[key].currentRequest];
        CreateAddsOne(s, book, env, value, ArgsOf(prev, prev.seeds, callback, extras));
    }
  }

  lemma ReconfigureKeeps(s: State, book: P.Book, cfg: Config)
    requires Inv(s) && BooksOk(s, book)
    ensures Inv(s.(cfg := cfg)) && BooksOk(s.(cfg := cfg), book)
  {
    hide RequestsOk, ResolutionsOk, FactsOk, CountsOk, OutboxOk;
    ConfigKeeps(s, s.(cfg := cfg));
  }

  function Touched(call: Call): nat {
    match call
    case RetryResolution(_, id) => id
    case CancelStale(id) => id
    case CommitResolution(commit) => commit.requestId
    case RequestCallbackRetry(id) => id
    case MarkCallbackResult(id, _) => id
    case _ => 0
  }

  /** How a call that commits moves the request it is about. */
  predicate Moves(a: Request, b: Request, call: Call) {
    && SameIdentity(a, b)
    && match call
       case RetryResolution(_, _) =>
         Live(a) && b.status == Dispatched && a.attemptCount < a.maxAttempts
         && b.attemptCount == a.attemptCount + 1
       case CancelStale(_) => Live(a) && b.status == Cancelled && b.attemptCount == a.attemptCount
       case CommitResolution(_) => Live(a) && b.status == Resolved && b.attemptCount == a.attemptCount
       case RequestCallbackRetry(_) => b == a.(callbackStatus := b.callbackStatus)
       case MarkCallbackResult(_, _) => b == a.(callbackStatus := b.callbackStatus)
       case _ => false
  }

  /** Exactly one request moves, and the configuration stays. */
  predicate OneMoves(s: State, t: State, call: Call) {
    && t.cfg == s.cfg && Touched(call) in s.requests && Touched(call) in t.requests
    && t.requests == s.requests[Touched(call) := t.requests[Touched(call)]]
    && Moves(s.requests[Touched(call)], t.requests[Touched(call)], call)
  }

  lemma RetryMoves(s: State, env: Env, value: nat, id: nat)
    requires IdsOk(s) && Retry(s, env, value, id).Ok?
    ensures OneMoves(s, Retry(s, env, value, id).state, RetryResolution(value, id))
  {
    hide Credit;
  }

  lemma CancelMoves(s: State, env: Env, id: nat)
    requires IdsOk(s) && Cancel(s, env, id).Ok?
    ensures OneMoves(s, Cancel(s, env, id).state, CancelStale(id))
  {
    hide Credit;
  }

  lemma CommitMoves(s: State, env: Env, c: CommitArgs)
    requires IdsOk(s) && Commit(s, env, c).Ok?
    ensures OneMoves(s, Commit(s, env, c).state, CommitResolution(c))
  {
    hide NewResolution, NextFact, FactOpt, ParseOutcome, ParseDiagnostic, CallbackMessage, Strip;
  }

  lemma MarksMove(s: State, env: Env, id: nat, succeeded: bool)
    requires IdsOk(s)
    ensures MarkCallback(s, env, id, succeeded).Ok? ==>
              OneMoves(s, MarkCallback(s, env, id, succeeded).state, MarkCallbackResult(id, succeeded))
    ensures CallbackRetry(s, env, id).Ok? ==>
              OneMoves(s, CallbackRetry(s, env, id).state, RequestCallbackRetry(id))
  {
    hide CallbackMessage;
  }

  lemma LifecycleMoves(s: State, book: P.Book, env: Env, call: Call)
    requires IdsOk(s) && !Creates(call) && !call.Reconfigure? && !call.WithdrawCredit?
    requires Execute(s, book, env, call).Ok?
    ensures OneMoves(s, Step(s, book, env, call), call)
  {
    hide OneMoves, CreateRequest, RefreshFact, Reassess, Retry, Cancel, Commit, CallbackRetry,
         MarkCallback, Withdraw;
    match call
    case RetryResolution(value, id) => RetryMoves(s, env, value, id);
    case CancelStale(id) => CancelMoves(s, env, id);
    case CommitResolution(commit) => CommitMoves(s, env, commit);
    case RequestCallbackRetry(id) => MarksMove(s, env, id, true);
    case MarkCallbackResult(id, succeeded) => MarksMove(s, env, id, succeeded);
  }

  /** A call that creates nothing moves one request, or none. */
  lemma Movement(s: State, book: P.Book, env: Env, call: Call)
    requires IdsOk(s) && !Creates(call)
    ensures var t := Step(s, book, env, call);
            || t.requests == s.requests
            || (Execute(s, book, env, call).Ok? && OneMoves(s, t, call))
    ensures !call.Reconfigure? ==> Step(s, book, env, call).cfg == s.cfg
  {
    hide CreateRequest, RefreshFact, Reassess, Retry, Cancel, Commit, CallbackRetry, MarkCallback, Moves;
    if Execute(s, book, env, call).Ok? && !call.Reconfigure? && !call.WithdrawCredit? {
      LifecycleMoves(s, book, env, call);
    }
  }

  lemma OldRequestsBound(s: State, book: P.Book, env: Env, call: Call)
    requires Inv(s) && BooksOk(s, book) && !Creates(call) && !call.Reconfigure?
    ensures BooksOk(Step(s, book, env, call), book) && Step(s, book, env, call).cfg == s.cfg
  {
    hide P.BookOk, P.GetPolicy, RequestsOk, ResolutionsOk, FactsOk, CountsOk, MoneyOk, OutboxOk, Step,
         Execute;
    var t := Step(s, book, env, call);
    Movement(s, book, env, call);
    forall id | id in t.requests ensures PolicyBound(book, t.requests[id]) {
      assert PolicyBound(book, s.requests[id]);
    }
  }

  lemma PolicyStepKeeps(c: Chain, call: P.Call, json: Json)
    requires Good(c)
    ensures Good(c.(book := P.Step(c.book, call, json)))
  {
    hide Inv, P.Step, P.BookOk, P.StorageKey, Strip;
    var after := P.Step(c.book, call, json);
    P.StepKeeps(c.book, call, json);
    forall id | id in c.reg.requests ensures PolicyBound(after, c.reg.requests[id]) {
      assert PolicyBound(c.book, c.reg.requests[id]);
    }
  }

  lemma {:induction false} RunKeeps(c: Chain, actions: seq<Action>, json: Json)
    requires Good(c) && forall a :: a in actions ==> Signed(a)
    ensures Good(Run(c, actions, json))
  {
    hide Good, Act;
    if |actions| > 0 {
      var last := actions[|actions| - 1];
      RunKeeps(c, actions[..|actions| - 1], json);
      ActKeeps(Run(c, actions[..|actions| - 1], json), last, json);
    }
  }

  lemma ActKeeps(c: Chain, a: Action, json: Json)
    requires Good(c) && Signed(a)
    ensures Good(Act(c, a, json))
  {
    hide Good, Step, P.Step;
    match a
    case OnRegistry(env, call) => RegistryStepKeeps(c, env, call);
    case OnPolicies(call) => PolicyStepKeeps(c, call, json);
  }

  /** Every reachable chain satisfies the invariant. */
  lemma ReachableGood(cfg: Config, owner: Address, actions: seq<Action>, json: Json, c: Chain)
    requires Reaches(cfg, owner, actions, json, c)
    ensures Good(c)
  {
    hide Good, Act;
    InitialGood(cfg, owner);
    RunKeeps(Chain(Initial(cfg), P.Initial(owner)), actions, json);
  }
}
