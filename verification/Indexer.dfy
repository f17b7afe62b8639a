/**
 The chain indexer: cycles that read a moving chain and write the projection tables, any of
 which may stop at any read or write.
*/
module Indexer {
  import opened Text
  import opened Digests
  import opened Registry
  import opened RegistryInvariant
  import opened RegistryResults
  import opened RegistryLife
  import opened Projection
  import opened Seqs

  const PAGE_LIMIT := 50
  const MAX_LISTED := 100

  predicate IsMutable(r: Request) {
    Live(r) || r.callbackStatus == CallbackDispatched || r.callbackStatus == FailedReported
  }

  /** The rows a cycle would have to read again. */
  function Unsettled(rows: map<nat, Request>): set<nat> { set id | id in rows && IsMutable(rows[id]) }

  function Newer(ids: set<nat>, id: nat): set<nat> { set k | k in ids && k > id }

  function Least(a: nat, b: nat): nat { if a < b then a else b }

  /** An unsettled row among the newest ones, as many as a cycle reads again. */
  predicate Listed(rows: map<nat, Request>, id: nat, limit: nat) {
    id in Unsettled(rows) && |Newer(Unsettled(rows), id)| < Least(limit, MAX_LISTED)
  }

  /** When they all fit, every unsettled row is listed. */
  lemma AllListed(rows: map<nat, Request>, id: nat, limit: nat)
    requires id in Unsettled(rows) && |Unsettled(rows)| <= Least(limit, MAX_LISTED)
    ensures Listed(rows, id, limit)
  {
    hide Unsettled;
    SubsetSize(Newer(Unsettled(rows), id), Unsettled(rows) - {id});
  }

  predicate Descending(ids: seq<nat>) { forall i, j :: 0 <= i < j < |ids| ==> ids[i] > ids[j] }

  /** A descending list of unsettled rows that leaves out only older ones, for want of room. */
  predicate Newest(rows: map<nat, Request>, ids: seq<nat>, limit: nat) {
    && Descending(ids) && |ids| <= Least(limit, MAX_LISTED)
    && (forall i :: 0 <= i < |ids| ==> ids[i] in Unsettled(rows))
    && forall id :: id in Unsettled(rows) && id !in ids ==>
         |ids| == Least(limit, MAX_LISTED) && forall i :: 0 <= i < |ids| ==> ids[i] > id
  }

  lemma NewestIsListed(rows: map<nat, Request>, ids: seq<nat>, limit: nat)
    requires Newest(rows, ids, limit)
    ensures forall id :: id in ids <==> Listed(rows, id, limit)
  {
    hide Newest, Listed, Descending, Unsettled;
    forall id ensures id in ids <==> Listed(rows, id, limit) {
      if id in ids {
        var k :| 0 <= k < |ids| && ids[k] == id;
        InList(rows, ids, limit, k);
      } else if id in Unsettled(rows) {
        OutOfList(rows, ids, limit, id);
      } else {
        NotUnsettled(rows, id, limit);
      }
    }
  }

  lemma NotUnsettled(rows: map<nat, Request>, id: nat, limit: nat)
    requires id !in Unsettled(rows)
    ensures !Listed(rows, id, limit)
  {
  }

  lemma InList(rows: map<nat, Request>, ids: seq<nat>, limit: nat, k: nat)
    requires Newest(rows, ids, limit) && k < |ids|
    ensures Listed(rows, ids[k], limit)
  {
    hide Unsettled;
    var all, front := Unsettled(rows), ids[..k];
    forall x | x in Newer(all, ids[k]) ensures x in Elems(front) {
      assert x in ids;
      var i :| 0 <= i < |ids| && ids[i] == x;
      assert front[i] == x;
    }
    SubsetSize(Newer(all, ids[k]), Elems(front));
    ElemsSize(front);
  }

  lemma OutOfList(rows: map<nat, Request>, ids: seq<nat>, limit: nat, id: nat)
    requires Newest(rows, ids, limit) && id in Unsettled(rows) && id !in ids
    ensures !Listed(rows, id, limit)
  {
    hide Unsettled;
    ElemsSize(ids);
    SubsetSize(Elems(ids), Newer(Unsettled(rows), id));
  }

  /** The tables, changed one statement at a time. */
  class ProjectionRepository {
    var requests: map<nat, Request>
    var resolutions: map<nat, Row>
    var facts: map<Digest, Fact>
    var lastRequest: nat
    var lastResolution: nat
    var policyEvents: nat
    var registryEvents: nat

    ghost function State(): Tables
      reads this
    {
      Tables(requests, resolutions, facts, lastRequest, lastResolution, policyEvents, registryEvents)
    }

    constructor ()
      ensures State() == Tables(map[], map[], map[], 0, 0, 0, 0)
    {
      requests, resolutions, facts := map[], map[], map[];
      lastRequest, lastResolution, policyEvents, registryEvents := 0, 0, 0, 0;
    }

    method UpsertRequest(r: Request)
      modifies this
      ensures State() == PutRequest(old(State()), r)
    {
      requests := requests[r.id := r];
    }

    method UpsertResolution(res: Resolution, canonical: bool, latest: bool)
      modifies this
      ensures State() == PutResolution(old(State()), res, canonical, latest)
    {
      resolutions := resolutions[res.id := Row(res, canonical, latest)];
    }

    method SetResolutionFlags(key: Digest, canonical: nat, latest: nat)
      modifies this
      ensures State() == SetFlags(old(State()), key, canonical, latest)
    {
      resolutions := map id | id in resolutions ::
        if resolutions[id].res.factKey == key
        then Row(resolutions[id].res, id == canonical, id == latest)
        else resolutions[id];
    }

    method UpsertFact(f: Fact)
      modifies this
      ensures State() == PutFact(old(State()), f)
    {
      facts := facts[f.factKey := f];
    }

    method SetSyncStatus(request: Option<nat>, resolution: Option<nat>, policy: Option<nat>, registry: Option<nat>)
      modifies this
      ensures State() == SetSync(old(State()), request, resolution, policy, registry)
    {
      if request.Some? { lastRequest := request.value; }
      if resolution.Some? { lastResolution := resolution.value; }
      if policy.Some? { policyEvents := policy.value; }
      if registry.Some? { registryEvents := registry.value; }
    }

    /** The unsettled requests, newest first, as many as asked for. */
    method ListMutableRequestIds(limit: nat) returns (ids: seq<nat>)
      ensures Newest(requests, ids, limit)
      ensures forall id :: id in ids <==> Listed(requests, id, limit)
    {
      hide IsMutable, Listed;
      var n := if limit < MAX_LISTED then limit else MAX_LISTED;
      var rest := set id | id in requests && IsMutable(requests[id]);
      ids := [];
      while rest != {} && |ids| < n
        invariant |ids| <= n && Descending(ids)
        invariant forall i :: 0 <= i < |ids| ==> ids[i] in Unsettled(requests)
        invariant forall id :: id in Unsettled(requests) ==> id in ids || id in rest
        invariant rest <= Unsettled(requests)
        invariant forall id, i :: id in rest && 0 <= i < |ids| ==> ids[i] > id
        decreases |rest|
      {
        var top := Largest(rest);
        ids := ids + [top];
        rest := rest - {top};
      }
      NewestIsListed(requests, ids, limit);
    }
  }

  method Largest(ids: set<nat>) returns (top: nat)
    requires ids != {}
    ensures top in ids && forall id :: id in ids ==> id <= top
  {
    top :| top in ids;
    var rest := ids - {top};
    while rest != {}
      invariant rest <= ids && top in ids
      invariant forall id :: id in ids ==> id in rest || id <= top
      decreases |rest|
    {
      var id :| id in rest;
      if id > top { top := id; }
      rest := rest - {id};
    }
  }

  datatype CycleResult = Skipped | FailedCycle | Synced

  /** Logs that only grow as the chain moves on. */
  predicate LogsOk(logs: seq<seq<string>>, h: nat) {
    |logs| == h && forall i, j :: 0 <= i <= j < h ==> logs[i] <= logs[j]
  }

  // What a cycle reads again

  predicate SameRow(a: Tables, b: Tables, id: nat) {
    (id in a.requests <==> id in b.requests) && (id in a.requests ==> b.requests[id] == a.requests[id])
  }

  /** A row read between two moments of the chain. */
  ghost predicate FreshRow(b: Tables, h: seq<State>, from: nat, to: nat, id: nat) {
    to < |h| && exists u :: from <= u <= to && RequestIn(b, h[u], id)
  }

  ghost predicate ReadSome(a: Tables, b: Tables, h: seq<State>, from: nat, to: nat, ids: seq<nat>) {
    && (forall id: nat :: id !in ids ==> SameRow(a, b, id))
    && (forall id: nat :: id in ids ==> SameRow(a, b, id) || FreshRow(b, h, from, to, id))
  }

  ghost predicate ReadAll(b: Tables, h: seq<State>, from: nat, to: nat, ids: seq<nat>) {
    from < |h| && forall id: nat :: id in ids && id in h[from].requests ==> FreshRow(b, h, from, to, id)
  }

  predicate HasKey(records: seq<Request>, key: Digest) { exists r :: r in records && r.factKey == key }

  ghost predicate KeysRead(records: seq<Request>, h: seq<State>, from: nat, ids: seq<nat>) {
    && from < |h|
    && forall id: nat :: id in ids && id in h[from].requests ==> HasKey(records, h[from].requests[id].factKey)
  }

  lemma FreshLater(b: Tables, h: seq<State>, from: nat, t: nat, n: nat, id: nat)
    requires FreshRow(b, h, from, t, id) && t <= n < |h|
    ensures FreshRow(b, h, from, n, id)
  {
  }

  lemma ReadLater(a: Tables, b: Tables, h: seq<State>, from: nat, t: nat, n: nat, ids: seq<nat>, done: seq<nat>)
    requires ReadSome(a, b, h, from, t, ids) && ReadAll(b, h, from, t, done) && t <= n < |h|
    ensures ReadSome(a, b, h, from, n, ids) && ReadAll(b, h, from, n, done)
  {
    hide FreshRow;
    forall id: nat | FreshRow(b, h, from, t, id) ensures FreshRow(b, h, from, n, id) {
      FreshLater(b, h, from, t, n, id);
    }
  }

  lemma PutFresh(b: Tables, h: seq<State>, from: nat, t: nat, id: nat, k: nat)
    requires from <= t < |h| && id in h[t].requests && h[t].requests[id].id == id
    ensures var c := PutRequest(b, h[t].requests[id]);
            && (k == id ==> FreshRow(c, h, from, t, k)) && (k != id ==> SameRow(b, c, k))
            && (FreshRow(b, h, from, t, k) ==> FreshRow(c, h, from, t, k))
  {
    var c := PutRequest(b, h[t].requests[id]);
    if k == id {
      assert RequestIn(c, h[t], k);
    } else if FreshRow(b, h, from, t, k) {
      var u :| from <= u <= t && RequestIn(b, h[u], k);
      assert RequestIn(c, h[u], k);
    }
  }

  lemma PutRead(a: Tables, b: Tables, h: seq<State>, from: nat, t: nat, ids: seq<nat>, done: seq<nat>, id: nat)
    requires ReadSome(a, b, h, from, t, ids) && ReadAll(b, h, from, t, done) && id in ids
    requires from <= t < |h| && id in h[t].requests && h[t].requests[id].id == id
    ensures var c := PutRequest(b, h[t].requests[id]);
            ReadSome(a, c, h, from, t, ids) && ReadAll(c, h, from, t, done + [id])
  {
    hide FreshRow, PutRequest;
    var c := PutRequest(b, h[t].requests[id]);
    forall k: nat
      ensures k !in ids ==> SameRow(a, c, k)
      ensures k in ids ==> SameRow(a, c, k) || FreshRow(c, h, from, t, k)
      ensures k in done + [id] && k in h[from].requests ==> FreshRow(c, h, from, t, k)
    {
      PutFresh(b, h, from, t, id, k);
    }
  }

  /** A request that did not exist when the reading began asks for nothing. */
  lemma SkipRead(b: Tables, h: seq<State>, from: nat, t: nat, done: seq<nat>, id: nat)
    requires ReadAll(b, h, from, t, done) && id !in h[from].requests
    ensures ReadAll(b, h, from, t, done + [id])
  {
    hide FreshRow;
  }

  lemma KeysMore(records: seq<Request>, h: seq<State>, from: nat, t: nat, done: seq<nat>, id: nat)
    requires KeysRead(records, h, from, done) && ChainHistory(h) && from <= t < |h|
    ensures id !in h[from].requests ==> KeysRead(records, h, from, done + [id])
    ensures id in h[t].requests ==> KeysRead(records + [h[t].requests[id]], h, from, done + [id])
  {
    hide ChainHistory, RequestGrows, LedgersGrow;
    SameKey(h, from, t, id);
    if id in h[t].requests {
      var more := records + [h[t].requests[id]];
      assert h[t].requests[id] in more && forall r :: r in records ==> r in more;
      forall k: nat | k in done + [id] && k in h[from].requests ensures HasKey(more, h[from].requests[k].factKey) {
        if k in done { assert HasKey(records, h[from].requests[k].factKey); }
      }
    }
  }

  lemma SameKey(h: seq<State>, from: nat, t: nat, id: nat)
    requires ChainHistory(h) && from <= t < |h|
    ensures id in h[from].requests ==>
              id in h[t].requests && h[t].requests[id].factKey == h[from].requests[id].factKey
  {
    hide Inv, LedgersGrow;
    assert Extends(h[from], h[t]);
  }

  lemma PutRequestOnly(a: Tables, r: Request)
    ensures PutRequest(a, r) == a.(requests := PutRequest(a, r).requests)
  {
  }

  lemma NothingRead(a: Tables, h: seq<State>, from: nat, ids: seq<nat>)
    requires from < |h|
    ensures ReadSome(a, a, h, from, from, ids) && ReadAll(a, h, from, from, []) && KeysRead([], h, from, [])
  {
  }

  // The facts of a batch

  predicate KeyAt(h: seq<State>, t: nat, key: Digest) { t < |h| && key in h[t].facts }

  /** The facts that were on the chain when the work began are processed. */
  ghost predicate FactsDone(tb: Tables, h: seq<State>, keys: set<Digest>, since: nat, from: nat, now: nat) {
    forall key :: key in keys && KeyAt(h, from, key) ==> Done(tb, h, since, now, key)
  }

  predicate RowsDone(tb: Tables, keys: set<Digest>, rs: seq<Resolution>) {
    forall i :: 0 <= i < |rs| && rs[i].factKey in keys ==> rs[i].id in tb.resolutions
  }

  ghost predicate RequestFactsDone(tb: Tables, h: seq<State>, requests: seq<Request>, since: nat, from: nat, now: nat) {
    forall r :: r in requests && KeyAt(h, from, r.factKey) ==> Done(tb, h, since, now, r.factKey)
  }

  lemma NoFactsDone(tb: Tables, h: seq<State>, rs: seq<Resolution>, since: nat, from: nat)
    ensures FactsDone(tb, h, {}, since, from, from) && RowsDone(tb, {}, rs)
  {
  }

  /** One more fact processed, or not on the chain when it was asked for. */
  lemma FactsDoneStep(a: Tables, b: Tables, h: seq<State>, keys: set<Digest>, key: Digest, since: nat, from: nat,
                      start: nat, now: nat)
    requires FactsDone(a, h, keys, since, from, start) && OnlyFact(a, b, key) && key !in keys
    requires from <= start <= now < |h| && (KeyAt(h, from, key) ==> Done(b, h, since, now, key))
    ensures FactsDone(b, h, keys + {key}, since, from, now)
  {
    hide OnlyFact, Done;
    forall k | k in keys && KeyAt(h, from, k) ensures Done(b, h, since, now, k) {
      DoneKept(a, b, h, since, start, now, key, k);
    }
  }

  lemma OneMoved(done: set<Digest>, todo: set<Digest>, key: Digest)
    requires key in todo && done !! todo
    ensures (done + {key}) + (todo - {key}) == done + todo && done + {key} !! todo - {key}
  {
  }

  lemma RowsDoneStep(a: Tables, b: Tables, keys: set<Digest>, key: Digest, rs: seq<Resolution>)
    requires OnlyFact(a, b, key) && RowsDone(a, keys, rs)
    requires forall i :: 0 <= i < |rs| && rs[i].factKey == key ==> rs[i].id in b.resolutions
    ensures RowsDone(b, keys + {key}, rs)
  {
    OnlyFactFrame(a, b, key);
  }

  /** Once all facts of a batch are processed, so are all its records and requests. */
  lemma AllFactsDone(tb: Tables, h: seq<State>, requests: seq<Request>, rs: seq<Resolution>, keys: set<Digest>,
                     since: nat, from: nat, now: nat)
    requires FactsDone(tb, h, keys, since, from, now) && RowsDone(tb, keys, rs)
    requires forall i :: 0 <= i < |rs| ==> rs[i].factKey in keys && KeyAt(h, from, rs[i].factKey)
    requires forall i :: 0 <= i < |requests| ==> requests[i].factKey in keys
    ensures forall i :: 0 <= i < |rs| ==> rs[i].id in tb.resolutions && Done(tb, h, since, now, rs[i].factKey)
    ensures RequestFactsDone(tb, h, requests, since, from, now)
  {
    hide Done;
  }

  /** The requests a cycle reads: the new ones up to `top`, and the listed unsettled ones. */
  predicate InBatch(a: Tables, id: nat, top: nat, limit: nat) {
    a.lastRequest < id <= top || Listed(a.requests, id, limit)
  }

  ghost predicate HeldSince(b: Tables, h: seq<State>, from: nat, to: nat, key: Digest) {
    to < |h| && exists u :: from <= u <= to && FactIn(b, h[u], key)
  }

  predicate FactIn(tb: Tables, s: State, key: Digest) {
    key in tb.facts && key in s.facts && tb.facts[key] == s.facts[key]
  }

  /** A row of the batch, and the fact it asks about, as the chain held them during the cycle. */
  ghost predicate ReadAgain(b: Tables, h: seq<State>, from: nat, to: nat, id: nat) {
    && from < |h| && FreshRow(b, h, from, to, id) && id in b.requests
    && (b.requests[id].factKey in h[from].facts ==> HeldSince(b, h, from, to, b.requests[id].factKey))
  }

  /**
   What a cycle does to the request rows: it touches none outside its batch, whatever it writes was on the
   chain meanwhile, and when it is done every row of the batch was read again, with its fact.
  */
  ghost predicate Reread(a: Tables, b: Tables, h: seq<State>, from: nat, to: nat, top: nat, limit: nat, done: bool) {
    && (forall id: nat :: SameRow(a, b, id) || (InBatch(a, id, top, limit) && FreshRow(b, h, from, to, id)))
    && (done ==> forall id: nat :: InBatch(a, id, top, limit) ==> ReadAgain(b, h, from, to, id))
  }

  lemma FreshWider(b: Tables, c: Tables, h: seq<State>, since: nat, from: nat, t: nat, n: nat, id: nat)
    requires FreshRow(b, h, from, t, id) && since <= from && t <= n < |h| && c.requests == b.requests
    ensures FreshRow(c, h, since, n, id)
  {
    var u :| from <= u <= t && RequestIn(b, h[u], id);
    assert RequestIn(c, h[u], id);
  }

  lemma PartReread(a: Tables, b: Tables, c: Tables, h: seq<State>, since: nat, from: nat, t: nat, n: nat, ids: seq<nat>,
                   top: nat, limit: nat)
    requires ReadSome(a, b, h, from, t, ids) && since <= from && t <= n < |h| && c.requests == b.requests
    requires forall id: nat :: id in ids ==> InBatch(a, id, top, limit)
    ensures Reread(a, c, h, since, n, top, limit, false)
  {
    hide FreshRow, InBatch;
    forall id: nat ensures SameRow(a, c, id) || (InBatch(a, id, top, limit) && FreshRow(c, h, since, n, id)) {
      if FreshRow(b, h, from, t, id) { FreshWider(b, c, h, since, from, t, n, id); }
    }
  }

  lemma FullReread(a: Tables, b: Tables, c: Tables, h: seq<State>, since: nat, from: nat, t: nat, n: nat, ids: seq<nat>,
                   top: nat, limit: nat, records: seq<Request>, f: nat)
    requires ReadSome(a, b, h, from, t, ids) && ReadAll(b, h, from, t, ids) && KeysRead(records, h, from, ids)
    requires since <= from <= t <= f <= n < |h| && c.requests == b.requests && ChainHistory(h)
    requires forall id: nat :: id in ids <==> InBatch(a, id, top, limit)
    requires forall id: nat :: id in ids ==> id in h[from].requests
    requires forall r :: r in records && r.factKey in h[f].facts ==> Done(c, h, since, n, r.factKey)
    ensures Reread(a, c, h, since, n, top, limit, true)
  {
    hide InBatch, ReadAgain, FreshRow, ChainHistory;
    PartReread(a, b, c, h, since, from, t, n, ids, top, limit);
    forall id: nat | InBatch(a, id, top, limit) ensures ReadAgain(c, h, since, n, id) {
      OneReread(b, c, h, since, from, t, n, records, f, id);
    }
  }

  lemma OneReread(b: Tables, c: Tables, h: seq<State>, since: nat, from: nat, t: nat, n: nat, records: seq<Request>,
                  f: nat, id: nat)
    requires FreshRow(b, h, from, t, id) && id in h[from].requests && HasKey(records, h[from].requests[id].factKey)
    requires since <= from <= t <= f <= n < |h| && c.requests == b.requests && ChainHistory(h)
    requires forall r :: r in records && r.factKey in h[f].facts ==> Done(c, h, since, n, r.factKey)
    ensures ReadAgain(c, h, since, n, id)
  {
    hide ChainHistory, Clean;
    FreshWider(b, c, h, since, from, t, n, id);
    var u :| from <= u <= t && RequestIn(b, h[u], id);
    SameKey(h, from, u, id);
    Grows(h, since, f);
    var r :| r in records && r.factKey == h[from].requests[id].factKey;
    var key := c.requests[id].factKey;
    if key in h[since].facts {
      var v :| since <= v <= n && key in h[v].facts && c.facts[key] == h[v].facts[key];
      assert FactIn(c, h[v], key);
    }
  }

  lemma ListedRow(rows: map<nat, Request>, id: nat, limit: nat)
    requires Listed(rows, id, limit)
    ensures id in rows && IsMutable(rows[id])
  {
  }

  /** So the new requests all have rows. */
  lemma NewRead(a: Tables, b: Tables, h: seq<State>, from: nat, to: nat, top: nat, limit: nat, ids: seq<nat>)
    requires Reread(a, b, h, from, to, top, limit, true)
    requires forall i :: 0 <= i < |ids| ==> a.lastRequest < ids[i] <= top
    ensures forall i :: 0 <= i < |ids| ==> ids[i] in b.requests
  {
    hide FreshRow, HeldSince, Listed;
    forall i | 0 <= i < |ids| ensures ids[i] in b.requests {
      assert InBatch(a, ids[i], top, limit);
      assert ReadAgain(b, h, from, to, ids[i]);
    }
  }

  lemma RereadSame(a: Tables, b: Tables, c: Tables, h: seq<State>, from: nat, to: nat, top: nat, limit: nat, done: bool,
                   less: bool)
    requires Reread(a, b, h, from, to, top, limit, done) && c.requests == b.requests && c.facts == b.facts
    requires less ==> done
    ensures Reread(a, c, h, from, to, top, limit, less)
  {
    hide InBatch;
    forall id: nat ensures FreshRow(b, h, from, to, id) ==> FreshRow(c, h, from, to, id) {
      if FreshRow(b, h, from, to, id) { FreshWider(b, c, h, from, from, to, to, id); }
    }
    forall id: nat | ReadAgain(b, h, from, to, id) ensures ReadAgain(c, h, from, to, id) {
      var key := b.requests[id].factKey;
      if key in h[from].facts {
        var u :| from <= u <= to && FactIn(b, h[u], key);
        assert FactIn(c, h[u], key);
      }
    }
  }

  /** A log offset after a cycle: past what was there when it began, or a whole batch further. */
  predicate OffsetMoved(before: nat, after: nat, known: nat, all: nat, batch: nat) {
    before <= after <= all && (after >= known || after == before + batch)
  }

  lemma NothingReread(a: Tables, b: Tables, h: seq<State>, from: nat, to: nat, top: nat, limit: nat)
    requires b.requests == a.requests
    ensures Reread(a, b, h, from, to, top, limit, false)
  {
  }

  /** Every row was on the chain, so its request still is. */
  lemma RowsOnChain(tb: Tables, h: seq<State>, t: nat, batch: nat, id: nat)
    requires ChainHistory(h) && Agrees(tb, h, t, batch) && id in tb.requests
    ensures id in h[t].requests
  {
    hide ChainHistory, RowsExact, Covered, FactsAgree, FlagsOk;
    var u :| 0 <= u <= t && RequestIn(tb, h[u], id);
    Grows(h, u, t);
  }

  lemma Glued<T>(xs: seq<T>, i: nat, j: nat, k: nat)
    requires i <= j <= k <= |xs|
    ensures xs[i..j] + xs[j..k] == xs[i..k]
  {
  }

  /**
   `chain` and the logs are the states the chain will pass through; `now` is the latest one a
   read has seen, and moves forward at every read.
  */
  class ChainIndexer {
    const chain: seq<State>
    const policyLog: seq<seq<string>>
    const registryLog: seq<seq<string>>
    const repo: ProjectionRepository
    const maxRecords: nat
    const maxMutable: nat
    var now: nat
    var syncing: bool

    ghost predicate Valid()
      reads this, repo
    {
      && ChainHistory(chain) && LogsOk(policyLog, |chain|) && LogsOk(registryLog, |chain|)
      && maxRecords >= 1 && now < |chain|
      && Agrees(repo.State(), chain, now, maxRecords)
      && repo.policyEvents <= |policyLog[now]| && repo.registryEvents <= |registryLog[now]|
    }

    constructor (h: seq<State>, policy: seq<seq<string>>, registry: seq<seq<string>>, tables: ProjectionRepository,
                 records: nat, mutable: nat)
      requires ChainHistory(h) && LogsOk(policy, |h|) && LogsOk(registry, |h|) && records >= 1
      requires tables.State() == Tables(map[], map[], map[], 0, 0, 0, 0)
      ensures Valid() && chain == h && repo == tables && maxRecords == records
      ensures now == 0 && !syncing
    {
      chain, policyLog, registryLog, repo := h, policy, registry, tables;
      maxRecords, maxMutable := records, mutable;
      now, syncing := 0, false;
      new;
      Dense(chain, 0);
      EmptyAgrees(chain, records);
    }

    /**
     After a restart: over the tables an earlier indexer, of any batch size, left at some moment of
     the chain. A failed cycle may have left rows past the checkpoint; the new batch must reach them.
    */
    constructor Resume(h: seq<State>, policy: seq<seq<string>>, registry: seq<seq<string>>,
                       tables: ProjectionRepository, at: nat, records: nat, mutable: nat, ghost before: nat)
      requires at < |h| && LogsOk(policy, |h|) && LogsOk(registry, |h|) && records >= 1
      requires tables.policyEvents <= |policy[at]| && tables.registryEvents <= |registry[at]|
      requires Agrees(tables.State(), h, at, before) && ChainHistory(h)
      requires before <= records || RowsWithin(tables.State(), tables.lastResolution + records)
      ensures Valid() && chain == h && repo == tables && maxRecords == records
      ensures now == at && !syncing
    {
      hide ChainHistory, Agrees, RowsWithin;
      chain, policyLog, registryLog, repo := h, policy, registry, tables;
      maxRecords, maxMutable := records, mutable;
      now, syncing := at, false;
      new;
      OtherBatch(repo.State(), chain, at, before, records);
    }

    /** Time passes before a read. */
    method Advance()
      requires Valid()
      modifies this`now
      ensures Valid() && old(now) <= now
    {
      hide ChainHistory, Agrees;
      var next :| now <= next < |chain|;
      TimePasses(repo.State(), chain, now, next, maxRecords);
      now := next;
    }

    /** The new events of a log, page by page. */
    method ReadEventDelta(logs: seq<seq<string>>, previous: nat, current: nat)
      returns (ok: bool, events: seq<string>, nextOffset: nat)
      requires Valid() && LogsOk(logs, |chain|) && previous <= |logs[now]| && current <= |logs[now]|
      modifies this`now
      ensures Valid() && old(now) <= now
      ensures previous <= nextOffset <= |logs[now]|
      ensures events == logs[now][previous..nextOffset] && |events| <= maxRecords
      ensures ok ==> nextOffset >= current || nextOffset == previous + maxRecords
    {
      hide ChainHistory, Agrees;
      ok, events, nextOffset := true, [], previous;
      if current <= previous { return; }
      while nextOffset < current && |events| < maxRecords
        invariant Valid() && old(now) <= now
        invariant previous <= nextOffset <= |logs[now]| && current <= |logs[now]|
        invariant events == logs[now][previous..nextOffset] && |events| <= maxRecords
        decreases maxRecords - |events|
      {
        if * { return false, events, nextOffset; }
        ghost var before := now;
        Advance();
        assert logs[before] <= logs[now];
        assert events == logs[now][previous..nextOffset];
        var limit := if PAGE_LIMIT < maxRecords - |events| then PAGE_LIMIT else maxRecords - |events|;
        var page := ReadPage(logs[now], nextOffset, limit);
        assert page == Page(logs[now], nextOffset, limit);
        Glued(logs[now], previous, nextOffset, nextOffset + |page|);
        events := events + page;
        if |page| == 0 { break; }
        nextOffset := nextOffset + |page|;
      }
    }

    /** The next ids, at most one batch of them. */
    method Range(start: nat, end: nat) returns (ids: seq<nat>)
      ensures |ids| <= maxRecords && forall i :: 0 <= i < |ids| ==> ids[i] == start + i
      ensures |ids| == if end < start then 0 else if end - start + 1 < maxRecords then end - start + 1 else maxRecords
    {
      ids := [];
      if end < start { return; }
      var id := start;
      while id <= end && |ids| < maxRecords
        invariant start <= id <= end + 1 && |ids| == id - start <= maxRecords
        invariant forall i :: 0 <= i < |ids| ==> ids[i] == start + i
        decreases end + 1 - id
      {
        ids := ids + [id];
        id := id + 1;
      }
    }

    method SyncRequests(ids: seq<nat>) returns (ok: bool, records: seq<Request>)
      requires Valid()
      modifies this`now, repo
      ensures Valid() && old(now) <= now && SameCheckpoint(repo.State(), old(repo.State()))
      ensures repo.resolutions == old(repo.resolutions) && repo.facts == old(repo.facts)
      ensures ReadSome(old(repo.State()), repo.State(), chain, old(now), now, ids)
      ensures ok ==> ReadAll(repo.State(), chain, old(now), now, ids) && KeysRead(records, chain, old(now), ids)
    {
      hide ChainHistory, Agrees, ReadSome, ReadAll, KeysRead, PutRequest;
      records := [];
      ghost var tb, from := repo.State(), now;
      NothingRead(tb, chain, from, ids);
      for i := 0 to |ids|
        invariant Valid() && from <= now && SameCheckpoint(repo.State(), tb)
        invariant repo.resolutions == tb.resolutions && repo.facts == tb.facts
        invariant ReadSome(tb, repo.State(), chain, from, now, ids)
        invariant ReadAll(repo.State(), chain, from, now, ids[..i]) && KeysRead(records, chain, from, ids[..i])
      {
        if * { return false, records; }
        ghost var t := now;
        Advance();
        ReadLater(tb, repo.State(), chain, from, t, now, ids, ids[..i]);
        assert ids[..i + 1] == ids[..i] + [ids[i]];
        KeysMore(records, chain, from, now, ids[..i], ids[i]);
        Grows(chain, from, now);
        if ids[i] !in chain[now].requests {
          SkipRead(repo.State(), chain, from, now, ids[..i], ids[i]);
          continue;
        }
        var request := chain[now].requests[ids[i]];
        if * { return false, records; }
        Dense(chain, now);
        PutRequestKeeps(repo.State(), chain, now, ids[i], maxRecords);
        PutRead(tb, repo.State(), chain, from, now, ids, ids[..i], ids[i]);
        PutRequestOnly(repo.State(), request);
        repo.UpsertRequest(request);
        records := records + [request];
      }
      assert ids[..|ids|] == ids;
      return true, records;
    }

    /** Records read from the chain that are still what the chain holds. */
    ghost predicate ReadFrom(rs: seq<Resolution>, t: nat) {
      && t < |chain|
      && forall i :: 0 <= i < |rs| ==> rs[i].id in chain[t].resolutions && chain[t].resolutions[rs[i].id] == rs[i]
    }

    lemma StillRead(rs: seq<Resolution>, t: nat, n: nat)
      requires ReadFrom(rs, t) && t <= n < |chain| && ChainHistory(chain)
      ensures ReadFrom(rs, n)
    {
      hide ChainHistory;
      forall i | 0 <= i < |rs| ensures rs[i].id in chain[n].resolutions && chain[n].resolutions[rs[i].id] == rs[i] {
        Earlier(chain, t, n, rs[i].id);
      }
    }

    method SyncResolutions(ids: seq<nat>) returns (ok: bool, records: seq<Resolution>)
      requires Valid() && forall i :: 0 <= i < |ids| ==> ids[i] in chain[now].resolutions
      modifies this`now
      ensures Valid() && old(now) <= now && ReadFrom(records, now)
      ensures ok ==> |records| == |ids| && forall i :: 0 <= i < |ids| ==> records[i].id == ids[i]
    {
      hide ChainHistory, Agrees;
      records := [];
      for i := 0 to |ids|
        invariant Valid() && old(now) <= now && ReadFrom(records, now)
        invariant |records| == i && forall k :: 0 <= k < i ==> records[k].id == ids[k]
      {
        if * { return false, records; }
        ghost var before := now;
        Advance();
        StillRead(records, before, now);
        Earlier(chain, old(now), now, ids[i]);
        Dense(chain, now);
        if ids[i] in chain[now].resolutions {
          records := records + [chain[now].resolutions[ids[i]]];
        }
      }
      return true, records;
    }

    /** A batch of records that lies between the checkpoint and the end of the cycle's reach. */
    ghost predicate BatchOk(rs: seq<Resolution>, since: nat, reach: nat)
      reads this, repo
    {
      && since <= now && ReadFrom(rs, now) && repo.lastResolution < chain[since].nextResolution
      && reach <= repo.lastResolution + maxRecords && RowsWithin(repo.State(), reach)
      && forall i :: 0 <= i < |rs| ==> repo.lastResolution < rs[i].id <= reach
    }

    ghost predicate RowsOf(rs: seq<Resolution>, key: Digest)
      reads repo
    {
      forall i :: 0 <= i < |rs| && rs[i].factKey == key ==> rs[i].id in repo.resolutions
    }

    /** The new rows of one fact, flagged against the fact just read. */
    method UpsertRows(fact: Fact, resolutions: seq<Resolution>, ghost since: nat, ghost reach: nat, ghost read: nat)
      returns (ok: bool)
      requires BatchOk(resolutions, since, reach)
      requires ReadFrom(resolutions, read) && KnownIn(repo.State(), chain[read])
      requires Valid()
      modifies this`now, repo
      ensures old(now) <= now && OnlyFact(old(repo.State()), repo.State(), fact.factKey)
      ensures RowsWithin(repo.State(), reach) && KnownIn(repo.State(), chain[read])
      ensures ok ==> RowsOf(resolutions, fact.factKey)
      ensures Valid()
    {
      hide ChainHistory, Agrees, OnlyFact, RowsWithin, PutResolution;
      var key, latestId := fact.factKey, LatestOf(fact);
      OnlySame(repo.State(), key);
      for i := 0 to |resolutions|
        invariant Valid() && old(now) <= now && OnlyFact(old(repo.State()), repo.State(), key)
        invariant RowsWithin(repo.State(), reach) && repo.lastResolution == old(repo.lastResolution)
        invariant KnownIn(repo.State(), chain[read])
        invariant forall k :: 0 <= k < i && resolutions[k].factKey == key ==> resolutions[k].id in repo.resolutions
      {
        var res := resolutions[i];
        if res.factKey != key { continue; }
        if * { return false; }
        StillRead(resolutions, old(now), now);
        RowIs(repo.State(), chain, now, res, maxRecords);
        PutResolutionKeeps(repo.State(), chain, now, res.id, res.id == fact.currentResolution, res.id == latestId,
                           maxRecords);
        PutRowOnly(old(repo.State()), repo.State(), key, res, res.id == fact.currentResolution, res.id == latestId,
                   reach);
        repo.UpsertResolution(res, res.id == fact.currentResolution, res.id == latestId);
        if * { return false; }
        Advance();
      }
      return true;
    }

    /** One fact: its new rows, its flags, then itself. */
    method SyncFact(key: Digest, resolutions: seq<Resolution>, ghost since: nat, ghost reach: nat) returns (ok: bool)
      requires BatchOk(resolutions, since, reach)
      requires Valid()
      modifies this`now, repo
      ensures old(now) <= now && OnlyFact(old(repo.State()), repo.State(), key) && RowsWithin(repo.State(), reach)
      ensures ok && KeyAt(chain, old(now), key) ==>
                Done(repo.State(), chain, since, now, key) && RowsOf(resolutions, key)
      ensures Valid()
    {
      hide ChainHistory, Agrees, OnlyFact, RowsWithin, Done, SetFlags, PutFact, ReadFrom;
      OnlySame(repo.State(), key);
      if * { return false; }
      Advance();
      Grows(chain, old(now), now);
      if key !in chain[now].facts { return true; }
      var fact := chain[now].facts[key];
      ghost var read := now;
      FactKeyed(chain, now, key);
      StillRead(resolutions, old(now), now);
      AllKnown(repo.State(), chain, now, maxRecords);
      ok := UpsertRows(fact, resolutions, since, reach, read);
      if !ok { return; }
      if * { return false; }
      SetFlagsKeeps(repo.State(), chain, now, read, key, maxRecords);
      SetFlagsOnly(old(repo.State()), repo.State(), key, fact.currentResolution, LatestOf(fact), reach);
      repo.SetResolutionFlags(fact.factKey, fact.currentResolution, LatestOf(fact));
      ghost var flagged := repo.State();
      if * { return false; }
      OnlyFactFrame(old(repo.State()), repo.State(), key);
      Grows(chain, since, read);
      PutFactKeeps(repo.State(), chain, now, read, key, maxRecords);
      PutFactOnly(old(repo.State()), repo.State(), key, fact, reach);
      repo.UpsertFact(fact);
      IsDone(flagged, repo.State(), chain, since, read, now, key);
      return true;
    }

    /** All facts touched by the batch; the order does not matter. */
    method SyncFacts(requests: seq<Request>, resolutions: seq<Resolution>, ghost since: nat, ghost reach: nat)
      returns (ok: bool)
      requires BatchOk(resolutions, since, reach)
      requires Valid()
      modifies this`now, repo
      ensures old(now) <= now && RowsWithin(repo.State(), reach)
      ensures repo.requests == old(repo.requests) && SameCheckpoint(old(repo.State()), repo.State())
      ensures ok ==> forall i :: 0 <= i < |resolutions| ==>
                resolutions[i].id in repo.resolutions && Done(repo.State(), chain, since, now, resolutions[i].factKey)
      ensures ok ==> RequestFactsDone(repo.State(), chain, requests, since, old(now), now)
      ensures Valid()
    {
      hide ChainHistory, Agrees, OnlyFact, RowsWithin, Done, FactsDone, RowsDone, RequestFactsDone;
      var todo := (set i | 0 <= i < |requests| :: requests[i].factKey)
                  + (set i | 0 <= i < |resolutions| :: resolutions[i].factKey);
      ghost var keys, from, processed: set<Digest> := todo, now, {};
      assert forall i :: 0 <= i < |requests| ==> requests[i].factKey in keys;
      forall i | 0 <= i < |resolutions|
        ensures resolutions[i].factKey in keys && KeyAt(chain, from, resolutions[i].factKey)
      {
        FactOfResolution(chain, now, resolutions[i].id);
      }
      NoFactsDone(repo.State(), chain, resolutions, since, from);
      while todo != {}
        invariant Valid() && from <= now && RowsWithin(repo.State(), reach)
        invariant repo.requests == old(repo.requests) && SameCheckpoint(old(repo.State()), repo.State())
        invariant ReadFrom(resolutions, now) && processed + todo == keys && processed !! todo
        invariant FactsDone(repo.State(), chain, processed, since, from, now)
        invariant RowsDone(repo.State(), processed, resolutions)
        decreases |todo|
      {
        var key :| key in todo;
        ghost var before, start := repo.State(), now;
        var done := SyncFact(key, resolutions, since, reach);
        StillRead(resolutions, start, now);
        Grows(chain, from, start);
        OnlyFactFrame(before, repo.State(), key);
        if !done { return false; }
        FactsDoneStep(before, repo.State(), chain, processed, key, since, from, start, now);
        RowsDoneStep(before, repo.State(), processed, key, resolutions);
        OneMoved(processed, todo, key);
        todo, processed := todo - {key}, processed + {key};
      }
      AllFactsDone(repo.State(), chain, requests, resolutions, keys, since, from, now);
      return true;
    }

    /** What was on the chain when the batch was chosen still is. */
    lemma Known(since: nat, requests: seq<nat>, resolutions: seq<nat>)
      requires ChainHistory(chain) && since <= now < |chain|
      requires forall i :: 0 <= i < |requests| ==> 1 <= requests[i] < chain[since].nextRequest
      requires forall i :: 0 <= i < |resolutions| ==> 1 <= resolutions[i] < chain[since].nextResolution
      ensures OnChain(now, requests, resolutions)
    {
      hide ChainHistory;
      Grows(chain, since, now);
      Dense(chain, now);
    }

    ghost predicate OnChain(t: nat, requests: seq<nat>, resolutions: seq<nat>) {
      && t < |chain|
      && (forall i :: 0 <= i < |requests| ==> requests[i] in chain[t].requests)
      && (forall i :: 0 <= i < |resolutions| ==> resolutions[i] in chain[t].resolutions)
    }

    lemma StillThere(t: nat, n: nat, requests: seq<nat>, resolutions: seq<nat>)
      requires OnChain(t, requests, resolutions) && t <= n < |chain| && ChainHistory(chain)
      ensures OnChain(n, requests, resolutions)
    {
      hide ChainHistory;
      Grows(chain, t, n);
      forall i | 0 <= i < |resolutions| ensures resolutions[i] in chain[n].resolutions {
        Earlier(chain, t, n, resolutions[i]);
      }
    }

    /** Once every record of the batch is processed, so is every row past the checkpoint. */
    lemma BatchIsDone(since: nat, reach: nat, records: seq<Resolution>)
      requires RowsWithin(repo.State(), reach) && ReadFrom(records, now) && since <= now
      requires |records| == reach - repo.lastResolution
      requires forall i :: 0 <= i < |records| ==> records[i].id == repo.lastResolution + 1 + i
      requires forall i :: 0 <= i < |records| ==>
                 records[i].id in repo.resolutions && Done(repo.State(), chain, since, now, records[i].factKey)
      requires Valid()
      ensures BatchDone(repo.State(), chain, since, now, reach)
    {
      hide ChainHistory, Done, FactsAgree, FlagsOk, RequestsAgree, Covered;
      var tb := repo.State();
      forall id | tb.lastResolution < id <= reach ensures id in tb.resolutions {
        assert records[id - tb.lastResolution - 1].id == id;
      }
      forall id | id in tb.resolutions && id > tb.lastResolution
        ensures id <= reach && Done(tb, chain, since, now, tb.resolutions[id].res.factKey)
      {
        var i := id - tb.lastResolution - 1;
        assert records[i].id == id;
      }
    }

    /** The counters a cycle works from, and where its batch ends. */
    ghost function Target(since: nat): nat
      reads this, repo
      requires since < |chain| && chain[since].nextResolution >= 1
    {
      Reach(repo.lastResolution, chain[since].nextResolution - 1, maxRecords)
    }

    /** Where both event logs stand, and how far this cycle reads them. */
    method ReadLogs(registryCount: nat) returns (ok: bool, nextPolicy: nat, nextRegistry: nat)
      requires Valid() && registryCount <= |registryLog[now]|
      modifies this`now
      ensures Valid() && old(now) <= now
      ensures nextPolicy <= |policyLog[now]| && nextRegistry <= |registryLog[now]|
      ensures ok ==> OffsetMoved(repo.policyEvents, nextPolicy, |policyLog[old(now)]|, |policyLog[now]|, maxRecords)
      ensures ok ==> OffsetMoved(repo.registryEvents, nextRegistry, registryCount, |registryLog[now]|, maxRecords)
    {
      hide ChainHistory, Agrees;
      ghost var start := now;
      Advance();
      assert policyLog[start] <= policyLog[now];
      nextPolicy, nextRegistry := repo.policyEvents, repo.registryEvents;
      if * { return false, nextPolicy, nextRegistry; }
      var policyCount := |policyLog[now]|;
      var policyDelta, registryDelta;
      ok, policyDelta, nextPolicy := ReadEventDelta(policyLog, repo.policyEvents, policyCount);
      if !ok { return; }
      assert registryLog[start] <= registryLog[now];
      ghost var middle := now;
      ok, registryDelta, nextRegistry := ReadEventDelta(registryLog, repo.registryEvents, registryCount);
      assert policyLog[middle] <= policyLog[now];
    }

    /** What a cycle's batch is: the next ids of both kinds, all on the chain. */
    ghost predicate BatchOf(since: nat, newRequests: seq<nat>, newResolutions: seq<nat>)
      reads this, repo
    {
      && OnChain(now, newRequests, newResolutions) && since <= now && repo.lastResolution < chain[since].nextResolution
      && RowsWithin(repo.State(), Target(since)) && |newResolutions| == Target(since) - repo.lastResolution
      && (forall i :: 0 <= i < |newResolutions| ==> newResolutions[i] == repo.lastResolution + 1 + i)
      && (forall i :: 0 <= i < |newRequests| ==> newRequests[i] == repo.lastRequest + 1 + i)
    }

    /** All rows of a batch are written. */
    ghost predicate Written(since: nat, newRequests: seq<nat>, reach: nat)
      reads this, repo
    {
      && since <= now && BatchDone(repo.State(), chain, since, now, reach)
      && forall i :: 0 <= i < |newRequests| ==> newRequests[i] in repo.requests
    }

    /** The ids of a batch: the new requests, and the unsettled ones that are listed. */
    lemma BatchIds(since: nat, newRequests: seq<nat>, newResolutions: seq<nat>, mutable: seq<nat>)
      requires Valid() && BatchOf(since, newRequests, newResolutions)
      requires forall id :: id in mutable <==> Listed(repo.requests, id, maxMutable)
      ensures var top := repo.lastRequest + |newRequests|;
              forall id: nat :: id in newRequests + mutable <==> InBatch(repo.State(), id, top, maxMutable)
      ensures forall id: nat :: id in newRequests + mutable ==> id in chain[now].requests
    {
      hide ChainHistory, Agrees, RowsWithin, Listed, Reach;
      var tb, top := repo.State(), repo.lastRequest + |newRequests|;
      forall id: nat ensures id in newRequests <==> tb.lastRequest < id <= top {
        if tb.lastRequest < id <= top { assert newRequests[id - tb.lastRequest - 1] == id; }
      }
      forall id: nat | id in mutable ensures id in chain[now].requests {
        ListedRow(tb.requests, id, maxMutable);
        RowsOnChain(tb, chain, now, maxRecords, id);
      }
    }

    /** The rows of one batch. */
    method WriteBatch(ghost since: nat, newRequests: seq<nat>, newResolutions: seq<nat>) returns (ok: bool)
      requires BatchOf(since, newRequests, newResolutions)
      requires Valid()
      modifies this`now, repo
      ensures old(now) <= now && SameCheckpoint(old(repo.State()), repo.State())
      ensures ok ==> Written(since, newRequests, old(Target(since))) && OnChain(now, newRequests, newResolutions)
      ensures Reread(old(repo.State()), repo.State(), chain, since, now, old(repo.lastRequest) + |newRequests|,
                     maxMutable, ok)
      ensures Valid()
    {
      hide ChainHistory, Agrees, RowsWithin, Done, BatchDone, Reach, ReadSome, ReadAll, KeysRead, InBatch, Reread;
      ghost var start, reach, tb, top := now, Target(since), repo.State(), repo.lastRequest + |newRequests|;
      var mutable := repo.ListMutableRequestIds(maxMutable);
      BatchIds(since, newRequests, newResolutions, mutable);
      var done, requests := SyncRequests(newRequests + mutable);
      ghost var read, t := repo.State(), now;
      PartReread(tb, read, read, chain, since, start, t, now, newRequests + mutable, top, maxMutable);
      if !done { return false; }
      StillThere(start, now, newRequests, newResolutions);
      WithinSame(tb, repo.State(), reach);
      ReachWithin(repo.lastResolution, chain[since].nextResolution - 1, maxRecords);
      var resolutions;
      done, resolutions := SyncResolutions(newResolutions);
      PartReread(tb, read, repo.State(), chain, since, start, t, now, newRequests + mutable, top, maxMutable);
      if !done { return false; }
      ghost var f := now;
      done := SyncFacts(requests, resolutions, since, reach);
      PartReread(tb, read, repo.State(), chain, since, start, t, now, newRequests + mutable, top, maxMutable);
      if !done { return false; }
      StillRead(resolutions, f, now);
      StillThere(start, now, newRequests, newResolutions);
      BatchIsDone(since, reach, resolutions);
      assert forall r :: r in requests && r.factKey in chain[f].facts ==> KeyAt(chain, f, r.factKey);
      FullReread(tb, read, repo.State(), chain, since, start, t, now, newRequests + mutable, top, maxMutable,
                 requests, f);
      NewRead(tb, repo.State(), chain, since, now, top, maxMutable, newRequests);
      return true;
    }

    /** The rows of one batch, and the checkpoint once they are all written. */
    method ProcessBatch(ghost since: nat, newRequests: seq<nat>, newResolutions: seq<nat>, nextPolicy: nat,
                        nextRegistry: nat) returns (ok: bool)
      requires BatchOf(since, newRequests, newResolutions)
      requires |policyLog| == |registryLog| == |chain| && now < |chain|
      requires nextPolicy <= |policyLog[now]| && nextRegistry <= |registryLog[now]|
      requires Valid()
      modifies this`now, repo
      ensures old(now) <= now
      ensures !ok ==> SameCheckpoint(old(repo.State()), repo.State())
      ensures ok ==> AllClean(repo.State(), chain, now) && repo.lastResolution == old(Target(since))
                     && repo.lastRequest == old(repo.lastRequest) + |newRequests|
                     && repo.policyEvents == nextPolicy && repo.registryEvents == nextRegistry
      ensures Reread(old(repo.State()), repo.State(), chain, since, now, old(repo.lastRequest) + |newRequests|,
                     maxMutable, ok)
      ensures Valid()
    {
      hide ChainHistory, Agrees, RowsWithin, Done, AllClean, BatchDone, Reread;
      ghost var tb, top := repo.State(), repo.lastRequest + |newRequests|;
      var previousRequest, previousResolution := repo.lastRequest, repo.lastResolution;
      ghost var start := now;
      ok := WriteBatch(since, newRequests, newResolutions);
      if !ok { return; }
      ghost var written := repo.State();
      RereadSame(tb, written, written, chain, since, now, top, maxMutable, true, false);
      if * { return false; }
      var nextRequest := if |newRequests| > 0 then newRequests[|newRequests| - 1] else previousRequest;
      var nextResolution := if |newResolutions| > 0 then newResolutions[|newResolutions| - 1] else previousResolution;
      RequestKnown(repo.State(), nextRequest);
      forall id | previousRequest < id <= nextRequest ensures id in repo.requests {
        assert newRequests[id - previousRequest - 1] == id;
      }
      CheckpointKeeps(repo.State(), chain, since, now, nextRequest, nextPolicy, nextRegistry, maxRecords);
      assert policyLog[start] <= policyLog[now] && registryLog[start] <= registryLog[now];
      repo.SetSyncStatus(Some(nextRequest), Some(nextResolution), Some(nextPolicy), Some(nextRegistry));
      RereadSame(tb, written, repo.State(), chain, since, now, top, maxMutable, true, true);
      return true;
    }

    lemma RequestKnown(tb: Tables, id: nat)
      requires ChainHistory(chain) && now < |chain| && Agrees(tb, chain, now, maxRecords)
      requires id == tb.lastRequest || id in chain[now].requests
      ensures id < chain[now].nextRequest
    {
      hide ChainHistory, Agrees;
      CoveredBy(tb, chain, now, maxRecords);
      Dense(chain, now);
    }

    /** One cycle; it stops, leaving the checkpoint alone, wherever a read or write fails. */
    method Cycle() returns (ok: bool, ghost since: nat)
      requires Valid()
      modifies this`now, repo
      ensures Valid() && old(now) <= since <= now && chain[since].nextResolution >= 1
      ensures chain[since].nextRequest >= 1
      ensures !ok ==> SameCheckpoint(old(repo.State()), repo.State())
      ensures ok ==> AllClean(repo.State(), chain, now)
      ensures ok ==> repo.lastResolution == old(Target(since))
                     && repo.lastRequest == Reach(old(repo.lastRequest), chain[since].nextRequest - 1, maxRecords)
                     && OffsetMoved(old(repo.policyEvents), repo.policyEvents, |policyLog[since]|, |policyLog[now]|,
                                    maxRecords)
                     && OffsetMoved(old(repo.registryEvents), repo.registryEvents, |registryLog[since]|,
                                    |registryLog[now]|, maxRecords)
      ensures Reread(old(repo.State()), repo.State(), chain, since, now,
                     Reach(old(repo.lastRequest), chain[since].nextRequest - 1, maxRecords), maxMutable, ok)
    {
      hide ChainHistory, Agrees, RowsWithin, AllClean, Reread;
      since := now;
      Dense(chain, now);
      Unread(since);
      if * { return false, since; }
      var previousRequest, previousResolution := repo.lastRequest, repo.lastResolution;
      Advance();
      since := now;
      Dense(chain, now);
      Unread(since);
      CoveredBy(repo.State(), chain, now, maxRecords);
      WithinReach(repo.State(), chain, now, maxRecords);
      if * { return false, since; }
      var requestEnd, resolutionEnd := chain[now].nextRequest - 1, chain[now].nextResolution - 1;
      var done, nextPolicy, nextRegistry := ReadLogs(|registryLog[now]|);
      Unread(since);
      if !done { return false, since; }
      ghost var read := now;
      var newRequests := Range(previousRequest + 1, requestEnd);
      var newResolutions := Range(previousResolution + 1, resolutionEnd);
      Known(since, newRequests, newResolutions);
      ok := ProcessBatch(since, newRequests, newResolutions, nextPolicy, nextRegistry);
      assert policyLog[read] <= policyLog[now] && registryLog[read] <= registryLog[now];
    }

    lemma Unread(since: nat)
      requires Valid() && since <= now && chain[since].nextRequest >= 1
      ensures Reread(repo.State(), repo.State(), chain, since, now,
                     Reach(repo.lastRequest, chain[since].nextRequest - 1, maxRecords), maxMutable, false)
    {
      hide ChainHistory, Agrees, Reach, Reread;
      NothingReread(repo.State(), repo.State(), chain, since, now,
                    Reach(repo.lastRequest, chain[since].nextRequest - 1, maxRecords), maxMutable);
    }

    /**
     One run of the timer. It does nothing while another cycle runs or while the RPC quota
     cools down; a cycle that fails leaves the checkpoint for the next one to retry.
    */
    method SyncOnce(coolingDown: bool) returns (r: CycleResult, ghost since: nat)
      requires Valid()
      modifies this`now, this`syncing, repo
      ensures Valid() && old(now) <= since <= now && syncing == old(syncing)
      ensures chain[since].nextResolution >= 1 && chain[since].nextRequest >= 1
      ensures r.Skipped? <==> old(syncing) || coolingDown
      ensures r.Skipped? ==> repo.State() == old(repo.State())
      ensures !r.Synced? ==> SameCheckpoint(old(repo.State()), repo.State())
      ensures r.Synced? ==> AllClean(repo.State(), chain, now)
      ensures r.Synced? ==>
                repo.lastResolution == old(Target(since))
                && repo.lastRequest == Reach(old(repo.lastRequest), chain[since].nextRequest - 1, maxRecords)
                && OffsetMoved(old(repo.policyEvents), repo.policyEvents, |policyLog[since]|, |policyLog[now]|,
                               maxRecords)
                && OffsetMoved(old(repo.registryEvents), repo.registryEvents, |registryLog[since]|,
                               |registryLog[now]|, maxRecords)
      ensures Reread(old(repo.State()), repo.State(), chain, since, now,
                     Reach(old(repo.lastRequest), chain[since].nextRequest - 1, maxRecords), maxMutable, r.Synced?)
    {
      hide ChainHistory, Agrees, AllClean, Reread;
      since := now;
      Dense(chain, now);
      Unread(since);
      r := Skipped;
      if syncing { return; }
      if coolingDown { return; }
      syncing := true;
      // the sync-start status is written here; it touches no checkpoint and may fail unnoticed
      if * { repo.SetSyncStatus(None, None, None, None); }
      var ok;
      ok, since := Cycle();
      if !ok {
        if * { repo.SetSyncStatus(None, None, None, None); }
      }
      r := if ok then Synced else FailedCycle;
      syncing := false;
    }
  }

  /** Agreement for one batch size is agreement for another exactly when every row is within its reach. */
  lemma OtherBatch(tb: Tables, h: seq<State>, t: nat, batch: nat, other: nat)
    requires Agrees(tb, h, t, batch)
    ensures Agrees(tb, h, t, other) <==> RowsWithin(tb, tb.lastResolution + other)
    ensures batch <= other ==> Agrees(tb, h, t, other)
  {
    hide Covered, FactsAgree, FlagsOk, RequestsAgree;
  }

  lemma EmptyAgrees(h: seq<State>, batch: nat)
    requires |h| > 0 && h[0].nextResolution >= 1 && h[0].nextRequest >= 1
    ensures Agrees(Tables(map[], map[], map[], 0, 0, 0, 0), h, 0, batch)
  {
  }

  // What processing one fact leaves alone

  ghost predicate SameCheckpoint(a: Tables, b: Tables) {
    && a.lastRequest == b.lastRequest && a.lastResolution == b.lastResolution
    && a.policyEvents == b.policyEvents && a.registryEvents == b.registryEvents
  }

  ghost predicate OnlyFact(a: Tables, b: Tables, key: Digest) {
    && b.requests == a.requests && SameCheckpoint(a, b)
    && (forall k :: k in a.facts ==> k in b.facts)
    && (forall k :: k in b.facts && k != key ==> k in a.facts && b.facts[k] == a.facts[k])
    && (forall id :: id in a.resolutions ==> id in b.resolutions && b.resolutions[id].res == a.resolutions[id].res)
    && (forall id :: id in b.resolutions && b.resolutions[id].res.factKey != key ==>
          id in a.resolutions && b.resolutions[id] == a.resolutions[id])
  }

  predicate RowsWithin(tb: Tables, reach: nat) {
    forall id :: id in tb.resolutions && id > tb.lastResolution ==> id <= reach
  }

  lemma OnlyFactFrame(a: Tables, b: Tables, key: Digest)
    requires OnlyFact(a, b, key)
    ensures b.requests == a.requests && SameCheckpoint(a, b)
    ensures forall id :: id in a.resolutions ==> id in b.resolutions
  {
  }

  lemma DoneKept(a: Tables, b: Tables, h: seq<State>, since: nat, t: nat, n: nat, key: Digest, other: Digest)
    requires t <= n < |h| && OnlyFact(a, b, key) && other != key && Done(a, h, since, t, other)
    ensures Done(b, h, since, n, other)
  {
    hide FlagsFrom;
    var u :| 0 <= u <= t && FlagsFrom(a, h[u], other);
    assert Clean(a, h, n, other);
    CleanSame(a, b, h, n, other);
  }

  lemma CoveredBy(tb: Tables, h: seq<State>, t: nat, batch: nat)
    requires Agrees(tb, h, t, batch)
    ensures tb.lastResolution < h[t].nextResolution && tb.lastRequest < h[t].nextRequest
  {
    hide RowsExact, FactsAgree, FlagsOk, RequestsAgree;
  }

  /** Rows past the checkpoint are within reach of the next batch. */
  lemma WithinReach(tb: Tables, h: seq<State>, t: nat, batch: nat)
    requires ChainHistory(h) && Agrees(tb, h, t, batch)
    ensures h[t].nextResolution >= 1
    ensures RowsWithin(tb, Reach(tb.lastResolution, h[t].nextResolution - 1, batch))
  {
    hide ChainHistory, FactsAgree, FlagsOk, RequestsAgree;
    Dense(h, t);
  }

  lemma ReachWithin(previous: nat, count: nat, batch: nat)
    ensures previous <= Reach(previous, count, batch) <= previous + batch
  {
  }

  lemma WithinSame(a: Tables, b: Tables, reach: nat)
    requires RowsWithin(a, reach) && b.resolutions == a.resolutions && b.lastResolution == a.lastResolution
    ensures RowsWithin(b, reach)
  {
  }

  lemma OnlySame(a: Tables, key: Digest)
    ensures OnlyFact(a, a, key)
  {
  }

  lemma AllKnown(tb: Tables, h: seq<State>, t: nat, batch: nat)
    requires Agrees(tb, h, t, batch)
    ensures KnownIn(tb, h[t])
  {
    hide Covered, FactsAgree, FlagsOk, RequestsAgree;
  }

  lemma RowIs(tb: Tables, h: seq<State>, t: nat, res: Resolution, batch: nat)
    requires Agrees(tb, h, t, batch) && res.id in h[t].resolutions && h[t].resolutions[res.id] == res
    ensures res.id in tb.resolutions ==> tb.resolutions[res.id].res == res
  {
    hide Covered, FactsAgree, FlagsOk, RequestsAgree;
  }

  lemma PutRowOnly(a: Tables, b: Tables, key: Digest, res: Resolution, c: bool, l: bool, reach: nat)
    requires OnlyFact(a, b, key) && res.factKey == key && RowsWithin(b, reach) && res.id <= reach
    requires res.id in b.resolutions ==> b.resolutions[res.id].res == res
    ensures OnlyFact(a, PutResolution(b, res, c, l), key) && RowsWithin(PutResolution(b, res, c, l), reach)
    ensures PutResolution(b, res, c, l) == b.(resolutions := b.resolutions[res.id := Row(res, c, l)])
  {
  }

  lemma SetFlagsOnly(a: Tables, b: Tables, key: Digest, c: nat, l: nat, reach: nat)
    requires OnlyFact(a, b, key) && RowsWithin(b, reach)
    ensures OnlyFact(a, SetFlags(b, key, c, l), key) && RowsWithin(SetFlags(b, key, c, l), reach)
    ensures SetFlags(b, key, c, l).resolutions.Keys == b.resolutions.Keys
    ensures SetFlags(b, key, c, l) == b.(resolutions := SetFlags(b, key, c, l).resolutions)
  {
    SetFlagsRows(b, key, c, l);
  }

  lemma PutFactOnly(a: Tables, b: Tables, key: Digest, f: Fact, reach: nat)
    requires OnlyFact(a, b, key) && f.factKey == key && RowsWithin(b, reach)
    ensures OnlyFact(a, PutFact(b, f), key) && RowsWithin(PutFact(b, f), reach)
    ensures PutFact(b, f) == b.(facts := b.facts[key := f])
  {
  }

  lemma IsDone(tb: Tables, tc: Tables, h: seq<State>, since: nat, read: nat, t: nat, key: Digest)
    requires since <= read <= t < |h| && Clean(tb, h, t, key) && key in h[read].facts
    requires tc == tb.(facts := tb.facts[key := h[read].facts[key]])
    ensures Done(tc, h, since, t, key)
  {
    CleanSame(tb, tc, h, t, key);
  }
}
