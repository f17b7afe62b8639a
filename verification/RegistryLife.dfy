/** Lifecycle, money, history and callback guarantees of reachable registries. */
module RegistryLife {
  import opened Common
  import opened Text
  import opened Digests
  import opened Sums
  import opened Seqs
  import opened Registry
  import opened RegistryInvariant
  import opened RegistryCommit
  import opened RegistryTheorems
  import opened RegistryResults
  import opened SourceClasses
  import P = PolicyRegistry

  // One resolution per request

  /**
   However retries, cancellations and stale or repeated commits interleave: a request has at
   most one resolution, made by its active attempt; terminal requests stay as they are; and
   no request rests in PENDING or FAILED.
  */
  lemma SingleResolution(cfg: Config, owner: Address, before: seq<Action>, after: seq<Action>, json: Json,
                         c: Chain, i: nat, j: nat)
    requires Reaches(cfg, owner, before, json, c) && forall a :: a in after ==> Signed(a)
    requires i in c.reg.resolutions && j in Run(c, after, json).reg.resolutions
    requires c.reg.resolutions[i].requestId == Run(c, after, json).reg.resolutions[j].requestId
    ensures i == j && Run(c, after, json).reg.resolutions[j] == c.reg.resolutions[i]
    ensures var res, t := c.reg.resolutions[i], Run(c, after, json).reg;
            && res.requestId in t.requests && t.requests[res.requestId].status == Resolved
            && t.requests[res.requestId].currentResolution == i
            && t.requests[res.requestId].activeAttempt == res.attemptId
  {
    hide Reaches, RequestsOk, FactsOk, CountsOk, MoneyOk, OutboxOk, BooksOk, Run;
    ReachableGood(cfg, owner, before, json, c);
    RunExtends(c, after, json);
    var t := Run(c, after, json).reg;
    assert OwnedOk(c.reg, c.reg.resolutions[i]);
    assert OwnedOk(t, t.resolutions[j]);
    assert t.resolutions[i] == c.reg.resolutions[i];
    assert OwnedOk(t, t.resolutions[i]);
  }

  lemma NoIntermediateStatus(cfg: Config, owner: Address, actions: seq<Action>, json: Json, c: Chain, id: nat)
    requires Reaches(cfg, owner, actions, json, c) && id in c.reg.requests
    ensures var r := c.reg.requests[id];
            && (r.status == Dispatched || Settled(r))
            && (r.status == Resolved <==> exists k :: k in c.reg.resolutions && c.reg.resolutions[k].requestId == id)
            && (r.status == Cancelled ==> r.feePaid == 0)
  {
    hide Reaches, FactsOk, CountsOk, MoneyOk, OutboxOk, BooksOk, IdentityOk;
    ReachableGood(cfg, owner, actions, json, c);
    var r := c.reg.requests[id];
    assert LifecycleOk(r) && PointerOk(c.reg, r);
    forall k | k in c.reg.resolutions && c.reg.resolutions[k].requestId == id
      ensures r.status == Resolved
    {
      assert OwnedOk(c.reg, c.reg.resolutions[k]);
    }
    if r.status == Resolved {
      assert c.reg.resolutions[r.currentResolution].requestId == id;
    }
  }

  function WithStatus(m: map<nat, Request>, st: Status): set<nat> {
    set id | id in m && m[id].status == st
  }

  lemma {:induction false} CountIsCardinality(m: map<nat, Request>, st: Status)
    ensures CountStatus(m, st) == |WithStatus(m, st)|
    decreases |m|
  {
    hide MapSum, CountStatus;
    if m == map[] {
      NoneCounted(st);
    } else {
      var k :| k in m;
      var rest := m - {k};
      CountIsCardinality(rest, st);
      PutCount(rest, k, m[k], st);
      assert rest[k := m[k]] == m;
      AddToStatus(rest, k, m[k], st);
    }
  }

  lemma AddToStatus(m: map<nat, Request>, k: nat, r: Request, st: Status)
    requires k !in m
    ensures |WithStatus(m[k := r], st)| == |WithStatus(m, st)| + if r.status == st then 1 else 0
  {
    if r.status == st {
      assert WithStatus(m[k := r], st) == WithStatus(m, st) + {k};
    } else {
      assert WithStatus(m[k := r], st) == WithStatus(m, st);
    }
  }

  lemma NoneCounted(st: Status)
    ensures CountStatus(map[], st) == 0
  {
    assert StatusWeights(map[], st) == map[];
  }

  /** The counters the contract reports are the numbers of resolved and reused requests. */
  lemma CountersAreCounts(cfg: Config, owner: Address, actions: seq<Action>, json: Json, c: Chain)
    requires Reaches(cfg, owner, actions, json, c)
    ensures c.reg.nextResolution - 1 == |WithStatus(c.reg.requests, Resolved)|
                                     == |c.reg.resolutions|
    ensures c.reg.reusedCount == |WithStatus(c.reg.requests, Reused)|
  {
    hide Reaches, RequestsOk, ResolutionsOk, FactsOk, MoneyOk, OutboxOk, BooksOk, CountStatus, WithStatus;
    ReachableGood(cfg, owner, actions, json, c);
    CountIsCardinality(c.reg.requests, Resolved);
    CountIsCardinality(c.reg.requests, Reused);
    DenseCount(c.reg.resolutions.Keys, c.reg.nextResolution);
  }

  lemma {:induction false} DenseCount(ids: set<nat>, n: nat)
    requires n >= 1 && forall i: nat :: i in ids <==> 1 <= i < n
    ensures |ids| == n - 1
  {
    if n == 1 {
      assert ids == {};
    } else {
      DenseCount(ids - {n - 1}, n - 1);
    }
  }

  // Bounded lifecycles

  /** Attempts left, plus one while the request is live. */
  function Budget(r: Request): int {
    r.maxAttempts - r.attemptCount + if Live(r) then 1 else 0
  }

  function LifecycleId(call: Call): Option<nat> {
    match call
    case RetryResolution(_, id) => Some(id)
    case CancelStale(id) => Some(id)
    case CommitResolution(commit) => Some(commit.requestId)
    case _ => None
  }

  /** Successful retries, cancellations and commits of one request in a run. */
  function LifecycleSteps(c: Chain, actions: seq<Action>, json: Json, id: nat): nat {
    if |actions| == 0 then 0
    else
      var front, last := actions[..|actions| - 1], actions[|actions| - 1];
      var mid := Run(c, front, json);
      LifecycleSteps(c, front, json, id) +
      if last.OnRegistry? && LifecycleId(last.call) == Some(id)
         && Execute(mid.reg, mid.book, last.env, last.call).Ok? then 1 else 0
  }

  /** Each successful lifecycle call uses up budget; nothing gives any back. */
  lemma BudgetStep(s: State, book: P.Book, env: Env, call: Call, id: nat)
    requires IdsOk(s) && RequestsOk(s) && id in s.requests
    ensures var t := Step(s, book, env, call);
            && id in t.requests
            && Budget(t.requests[id]) <= Budget(s.requests[id])
            && (LifecycleId(call) == Some(id) && Execute(s, book, env, call).Ok? ==>
                  Budget(t.requests[id]) < Budget(s.requests[id]))
  {
    hide Execute, IdentityOk, PointerOk, LifecycleOk;
    if Creates(call) {
      CreationAddsOne(s, book, env, call);
    } else {
      Movement(s, book, env, call);
      if LifecycleId(call) == Some(id) && Execute(s, book, env, call).Ok? {
        LifecycleMoves(s, book, env, call);
      }
    }
  }

  /** So a request sees at most its attempt budget of lifecycle steps over any run. */
  lemma {:induction false} LifecycleBounded(c: Chain, actions: seq<Action>, json: Json, id: nat)
    requires Good(c) && id in c.reg.requests && forall a :: a in actions ==> Signed(a)
    ensures var t := Run(c, actions, json).reg;
            && id in t.requests && Budget(t.requests[id]) >= 0
            && LifecycleSteps(c, actions, json, id) + Budget(t.requests[id]) <= Budget(c.reg.requests[id])
  {
    hide Act, Execute, ResolutionsOk, FactsOk, CountsOk, MoneyOk, OutboxOk, BooksOk, IdentityOk, PointerOk;
    RunKeeps(c, actions, json);
    if |actions| == 0 {
      assert LifecycleOk(c.reg.requests[id]);
    } else {
      var front, last := actions[..|actions| - 1], actions[|actions| - 1];
      var mid := Run(c, front, json);
      LifecycleBounded(c, front, json, id);
      RunKeeps(c, front, json);
      ActOn(mid, last, json);
      if last.OnRegistry? { BudgetStep(mid.reg, mid.book, last.env, last.call, id); }
      assert LifecycleOk(Run(c, actions, json).reg.requests[id]);
    }
  }

  lemma ActOn(c: Chain, a: Action, json: Json)
    ensures Act(c, a, json).reg == if a.OnRegistry? then Step(c.reg, c.book, a.env, a.call) else c.reg
  {
  }

  // Money

  /**
   Every unit received is a credit, held as a fee, or paid out; so the balance covers all
   credits together, hence each of them.
  */
  lemma Solvent(cfg: Config, owner: Address, actions: seq<Action>, json: Json, c: Chain)
    requires Reaches(cfg, owner, actions, json, c)
    ensures c.reg.received == MapSum(c.reg.credits) + FeesHeld(c.reg.requests) + c.reg.withdrawn
    ensures forall who :: who in c.reg.credits ==>
              c.reg.credits[who] <= MapSum(c.reg.credits) <= c.reg.received - c.reg.withdrawn
  {
    hide Reaches, RequestsOk, ResolutionsOk, FactsOk, CountsOk, OutboxOk, BooksOk, MapSum;
    ReachableGood(cfg, owner, actions, json, c);
    forall who | who in c.reg.credits ensures c.reg.credits[who] <= MapSum(c.reg.credits) {
      MapSumBound(c.reg.credits, who);
    }
  }

  /** A payment conserves value exactly when the payer is a real account or paid no surplus. */
  lemma PaymentConserves(s: State, sender: Address, value: nat, required: nat)
    requires value >= required
    ensures var t := Receive(s, sender, value, required);
            (t.received - s.received == MapSum(t.credits) - MapSum(s.credits) + required)
            <==> sender != ZERO || value == required
  {
    if sender != ZERO { CreditSum(s.credits, sender, value - required); }
  }

  // History

  /** A fact's history lists exactly its resolutions, in the order they were committed. */
  lemma HistoryExact(cfg: Config, owner: Address, actions: seq<Action>, json: Json, c: Chain, key: Digest)
    requires Reaches(cfg, owner, actions, json, c)
    ensures var s, h := c.reg, HistoryOf(c.reg, key);
            && (key in s.facts <==> |h| > 0)
            && (|h| > 0 ==> Chained(h, s.resolutions, key))
            && (key in s.facts ==> s.facts[key].latestResolution == h[|h| - 1])
            && forall id :: id in h <==> id in s.resolutions && s.resolutions[id].factKey == key
  {
    hide Reaches, Good;
    ReachableGood(cfg, owner, actions, json, c);
    GoodRecords(c);
    ExactHistory(c.reg, key);
  }

  lemma GoodRecords(c: Chain)
    requires Good(c)
    ensures FactsOk(c.reg) && ResolutionsOk(c.reg) && IdsOk(c.reg)
  {
    hide RequestsOk, ResolutionsOk, FactsOk, CountsOk, MoneyOk, OutboxOk, BooksOk, IdsOk;
  }

  lemma ExactHistory(s: State, key: Digest)
    requires FactsOk(s) && ResolutionsOk(s) && IdsOk(s)
    ensures var h := HistoryOf(s, key);
            && (key in s.facts <==> |h| > 0)
            && (|h| > 0 ==> Chained(h, s.resolutions, key))
            && (key in s.facts ==> s.facts[key].latestResolution == h[|h| - 1])
            && forall id :: id in h <==> id in s.resolutions && s.resolutions[id].factKey == key
  {
    hide FactsOk, ResolutionsOk, IdsOk, Chained, FactMatches, HeadIndex;
    var h := HistoryOf(s, key);
    FactKeys(s);
    if key in s.facts {
      GoodHead(s, key);
      HistoryIds(s, key);
    }
    forall id | id in s.resolutions && s.resolutions[id].factKey == key ensures id in h {
      OwnedInHistory(s, id);
    }
  }

  lemma FactKeys(s: State)
    requires FactsOk(s)
    ensures s.facts.Keys == s.history.Keys
  {
    hide FactOk, Chained;
  }

  lemma HistoryIds(s: State, key: Digest)
    requires key in s.facts && key in s.history && Chained(s.history[key], s.resolutions, key)
    requires var rs := Records(s.history[key], s.resolutions);
             |rs| > 0 && FactMatches(s.facts[key], rs[HeadIndex(rs)], rs[|rs| - 1])
    ensures var h := s.history[key];
            && |h| > 0 && s.facts[key].latestResolution == h[|h| - 1]
            && forall id :: id in h ==> id in s.resolutions && s.resolutions[id].factKey == key
  {
    hide HeadIndex;
  }

  lemma OwnedInHistory(s: State, id: nat)
    requires ResolutionsOk(s) && IdsOk(s) && id in s.resolutions
    ensures id in HistoryOf(s, s.resolutions[id].factKey)
  {
    assert OwnedOk(s, s.resolutions[id]);
  }

  /** One page of a history or of an event log, as the paging views cut it. */
  function Page<T>(items: seq<T>, offset: nat, limit: nat): seq<T> {
    if offset >= |items| then []
    else if offset + limit > |items| then items[offset..]
    else items[offset..offset + limit]
  }

  /** The paging loop. */
  method ReadPage<T>(items: seq<T>, offset: nat, limit: nat) returns (page: seq<T>)
    ensures page == Page(items, offset, limit)
  {
    page := [];
    if offset < |items| {
      var end := offset + limit;
      if end > |items| { end := |items|; }
      var i := offset;
      while i < end
        invariant offset <= i <= end <= |items|
        invariant page == items[offset..i]
      {
        page := page + [items[i]];
        i := i + 1;
      }
    }
  }

  function Pages<T>(items: seq<T>, offset: nat, limit: nat): seq<T>
    requires limit > 0
    decreases |items| - offset
  {
    var page := Page(items, offset, limit);
    if page == [] then [] else page + Pages(items, offset + limit, limit)
  }

  /** Reading successive pages until an empty one reproduces the list. */
  lemma {:induction false} PagesReproduce<T>(items: seq<T>, offset: nat, limit: nat)
    requires limit > 0 && offset <= |items|
    ensures Pages(items, offset, limit) == items[offset..]
    decreases |items| - offset
  {
    if offset < |items| {
      if offset + limit <= |items| {
        PagesReproduce(items, offset + limit, limit);
        assert items[offset..] == items[offset..offset + limit] + items[offset + limit..];
      } else {
        assert Page(items, offset + limit, limit) == [];
      }
    }
  }

  // Callbacks

  /**
   All callbacks ever sent for one request, first or repeated, from a commit or a reuse, are
   the same message; and messages for different requests carry different ids.
  */
  lemma CallbacksAgree(cfg: Config, owner: Address, actions: seq<Action>, json: Json, c: Chain, i: nat, j: nat)
    requires Reaches(cfg, owner, actions, json, c)
    requires i < |c.reg.outbox| && j < |c.reg.outbox|
    requires c.reg.outbox[i].Callback? && c.reg.outbox[j].Callback?
    ensures c.reg.outbox[i].callbackId == c.reg.outbox[j].callbackId
            <==> c.reg.outbox[i].requestId == c.reg.outbox[j].requestId
    ensures c.reg.outbox[i].callbackId == c.reg.outbox[j].callbackId
            <==> c.reg.outbox[i] == c.reg.outbox[j]
  {
    hide Reaches, RequestsOk, ResolutionsOk, FactsOk, CountsOk, MoneyOk, BooksOk;
    ReachableGood(cfg, owner, actions, json, c);
    assert MessageOk(c.reg, c.reg.outbox[i]) && MessageOk(c.reg, c.reg.outbox[j]);
  }
}
