/** The indexer's timer: any number of cycles over a moving chain, some skipped and some failed. */
module IndexerRuns {
  import opened Text
  import opened Digests
  import opened Common
  import opened Registry
  import opened RegistryInvariant
  import opened RegistryResults
  import opened Projection
  import opened Seqs
  import opened Indexer
  import opened IndexerTheorems

  function Synced(results: seq<CycleResult>): nat {
    if |results| == 0 then 0
    else Synced(results[..|results| - 1]) + if results[|results| - 1].Synced? then 1 else 0
  }

  /** The last cycle that was not skipped succeeded. */
  predicate EndsSynced(results: seq<CycleResult>) {
    |results| > 0
    && (results[|results| - 1].Synced?
        || (results[|results| - 1].Skipped? && EndsSynced(results[..|results| - 1])))
  }

  /** What readers of the tables can rely on, whatever the cycles so far did. */
  ghost predicate Reliable(tb: Tables, h: seq<State>, t: nat) {
    && t < |h|
    && (forall id: nat :: 1 <= id <= tb.lastResolution ==> RowExact(tb, h, t, id) && FactWasHeld(tb, h, t, id))
    && (forall id: nat :: 1 <= id <= tb.lastRequest ==> RequestCurrent(tb, h, t, id))
    && (forall key :: CaughtUp(tb, h[t], key) ==> SameFact(tb, h[t], key))
  }

  predicate SameFact(tb: Tables, s: State, key: Digest) {
    key in tb.facts && key in s.facts && tb.facts[key] == s.facts[key]
  }

  ghost predicate FactWasHeld(tb: Tables, h: seq<State>, t: nat, id: nat) {
    exists u :: 0 <= u <= t && FactHeld(tb, h, u, t, id)
  }

  lemma AgreesReliable(tb: Tables, h: seq<State>, t: nat, batch: nat)
    requires t < |h| && Agrees(tb, h, t, batch) && ChainHistory(h)
    ensures Reliable(tb, h, t)
  {
    hide Agrees, ChainHistory, RowExact, RequestCurrent, CaughtUp, FactHeld;
    forall id: nat | 1 <= id <= tb.lastResolution
      ensures RowExact(tb, h, t, id) && FactWasHeld(tb, h, t, id)
    {
      Agreement(tb, h, t, batch, id);
    }
    forall id: nat | 1 <= id <= tb.lastRequest ensures RequestCurrent(tb, h, t, id) {
      RequestRow(tb, h, t, batch, id);
    }
    forall key | CaughtUp(tb, h[t], key) ensures SameFact(tb, h[t], key) {
      CaughtUpFact(tb, h, t, batch, key);
      CaughtUpKnown(tb, h[t], key);
    }
  }

  lemma CaughtUpKnown(tb: Tables, s: State, key: Digest)
    requires CaughtUp(tb, s, key)
    ensures key in s.facts
  {
  }

  lemma CleanLater(tb: Tables, h: seq<State>, t: nat, n: nat)
    requires AllClean(tb, h, t) && t <= n < |h|
    ensures AllClean(tb, h, n)
  {
    hide FlagsFrom;
    forall id | id in tb.resolutions ensures Clean(tb, h, n, tb.resolutions[id].res.factKey) {
      assert Clean(tb, h, t, tb.resolutions[id].res.factKey);
    }
  }

  /** A checkpoint lies between what the old and the new counter allow after so many batches. */
  predicate Between(checkpoint: nat, cycles: nat, base: nat, low: nat, high: nat, batch: nat) {
    CheckpointAfter(cycles, base, low, batch) <= checkpoint <= CheckpointAfter(cycles, base, high, batch)
  }

  /** One more successful cycle keeps it there. */
  lemma BetweenStep(checkpoint: nat, cycles: nat, base: nat, low: nat, seen: nat, middle: nat, high: nat, batch: nat)
    requires base <= low <= seen <= middle <= high && checkpoint <= seen
    requires Between(checkpoint, cycles, base, low, seen, batch)
    ensures Between(Reach(checkpoint, middle, batch), cycles + 1, base, low, high, batch)
  {
    hide CheckpointAfter;
    CatchesUp(cycles, base, low, batch);
    CatchesUp(cycles, base, seen, batch);
    CatchesUp(cycles + 1, base, low, batch);
    CatchesUp(cycles + 1, base, high, batch);
    assert (cycles + 1) * batch == cycles * batch + batch;
  }

  lemma BetweenLater(checkpoint: nat, cycles: nat, base: nat, low: nat, seen: nat, high: nat, batch: nat)
    requires base <= low <= seen <= high && Between(checkpoint, cycles, base, low, seen, batch)
    ensures Between(checkpoint, cycles, base, low, high, batch)
  {
    hide CheckpointAfter;
    CatchesUp(cycles, base, seen, batch);
    CatchesUp(cycles, base, high, batch);
  }

  /** Both checkpoints, against the counters when the run began and now. */
  ghost predicate Progress(before: Tables, tb: Tables, first: State, now: State, cycles: nat, batch: nat) {
    && first.nextResolution >= 1 && first.nextRequest >= 1 && now.nextResolution >= 1 && now.nextRequest >= 1
    && Between(tb.lastResolution, cycles, before.lastResolution, first.nextResolution - 1, now.nextResolution - 1,
               batch)
    && Between(tb.lastRequest, cycles, before.lastRequest, first.nextRequest - 1, now.nextRequest - 1, batch)
  }

  /** On a chain that stood still both checkpoints reached the counters exactly with enough cycles. */
  ghost predicate CatchUp(before: Tables, tb: Tables, first: State, now: State, cycles: nat, batch: nat)
    requires batch >= 1
  {
    && (now.nextResolution == first.nextResolution ==>
          (tb.lastResolution == now.nextResolution - 1 <==>
             cycles >= (now.nextResolution - 1 - before.lastResolution + batch - 1) / batch))
    && (now.nextRequest == first.nextRequest ==>
          (tb.lastRequest == now.nextRequest - 1 <==>
             cycles >= (now.nextRequest - 1 - before.lastRequest + batch - 1) / batch))
  }

  lemma ProgressCatchesUp(before: Tables, tb: Tables, first: State, now: State, cycles: nat, batch: nat)
    requires first.nextResolution >= 1 && first.nextRequest >= 1 && now.nextResolution >= 1 && now.nextRequest >= 1
    requires before.lastResolution < first.nextResolution && before.lastRequest < first.nextRequest
    requires batch >= 1 && Progress(before, tb, first, now, cycles, batch)
    ensures CatchUp(before, tb, first, now, cycles, batch)
  {
    hide CheckpointAfter;
    if now.nextResolution == first.nextResolution {
      BacklogCycles(before.lastResolution, now.nextResolution - 1, batch, cycles);
    }
    if now.nextRequest == first.nextRequest {
      BacklogCycles(before.lastRequest, now.nextRequest - 1, batch, cycles);
    }
  }

  // Request rows on a chain whose requests stand still

  predicate StoodStill(h: seq<State>, from: nat, to: nat) {
    from <= to < |h| && forall u :: from <= u <= to ==> h[u].requests == h[from].requests
  }

  /** A settled row behind the checkpoint that no cycle reads again, and whose request moved on since. */
  predicate Stale(a: Tables, m: map<nat, Request>, id: nat) {
    && 1 <= id <= a.lastRequest && id in a.requests && !IsMutable(a.requests[id])
    && !(id in m && a.requests[id] == m[id])
  }

  /** A stale row is settled, and wrong in nothing but a callback mark that looked final. */
  lemma StaleRow(tb: Tables, h: seq<State>, t: nat, batch: nat, id: nat)
    requires t < |h| && ChainHistory(h) && Agrees(tb, h, t, batch) && Stale(tb, h[t].requests, id)
    ensures id in h[t].requests
    ensures var a, b := tb.requests[id], h[t].requests[id];
            && (a.status == Resolved || a.status == Reused || a.status == Cancelled)
            && (a.callbackStatus == NotRequested || a.callbackStatus == Acknowledged)
            && b == a.(callbackStatus := b.callbackStatus) && b.callbackStatus != a.callbackStatus
  {
    hide RowsExact, FactsAgree, FlagsOk, ChainHistory, Inv, Extends;
    RequestRow(tb, h, t, batch, id);
    var u :| 0 <= u <= t && RequestIn(tb, h[u], id);
    Pair(h, u, t);
    LifecycleAt(h[u], id);
  }

  lemma LifecycleAt(s: State, id: nat)
    requires Inv(s) && id in s.requests
    ensures LifecycleOk(s.requests[id])
  {
    hide IdsOk, IdentityOk, PointerOk, ResolutionsOk, FactsOk, CountsOk, MoneyOk, OutboxOk;
  }

  /** And that happens: a consumer may report a failure after it had acknowledged. */
  lemma StaleHappens(s: State, env: Env, id: nat, tb: Tables)
    requires id in s.requests && s.requests[id].status == Resolved && s.requests[id].callbackStatus == Acknowledged
    requires env.sender == s.requests[id].callbackTarget && env.sender != ZERO
    requires 1 <= id <= tb.lastRequest && id in tb.requests && tb.requests[id] == s.requests[id]
    ensures MarkCallback(s, env, id, false).Ok?
    ensures !Stale(tb, s.requests, id) && Stale(tb, MarkCallback(s, env, id, false).state.requests, id)
  {
  }

  predicate RowIs(b: Tables, m: map<nat, Request>, id: nat) { id in b.requests && id in m && b.requests[id] == m[id] }

  /** Since then every row is the old one or the chain's, and stale ones stayed. */
  ghost predicate OldOrChain(a: Tables, b: Tables, m: map<nat, Request>) {
    && a.lastRequest <= b.lastRequest
    && (forall id: nat :: SameRow(a, b, id) || RowIs(b, m, id))
    && (forall id: nat :: Stale(a, m, id) ==> SameRow(a, b, id))
    && (forall id: nat :: a.lastRequest < id <= b.lastRequest ==> RowIs(b, m, id))
  }

  /** The rows up to the checkpoint are the chain's, but for the stale ones. */
  ghost predicate RowsCurrent(a: Tables, b: Tables, m: map<nat, Request>) {
    forall id: nat :: 1 <= id <= b.lastRequest ==> (RowIs(b, m, id) <==> !Stale(a, m, id))
  }

  predicate AllFit(a: Tables, m: map<nat, Request>, limit: nat) {
    |Unsettled(a.requests) + Unsettled(m)| <= Least(limit, MAX_LISTED)
  }

  lemma FreshIsChain(b: Tables, h: seq<State>, start: nat, from: nat, to: nat, id: nat)
    requires StoodStill(h, start, to) && start <= from && FreshRow(b, h, from, to, id)
    ensures RowIs(b, h[start].requests, id)
  {
    var u :| from <= u <= to && RequestIn(b, h[u], id);
  }

  /** One more cycle, done or not. */
  lemma OldOrChainStep(a: Tables, b: Tables, c: Tables, h: seq<State>, start: nat, from: nat, to: nat, top: nat,
                       limit: nat, done: bool)
    requires StoodStill(h, start, to) && start <= from && OldOrChain(a, b, h[start].requests)
    requires Reread(b, c, h, from, to, top, limit, done) && b.lastRequest <= top
    requires c.lastRequest == if done then top else b.lastRequest
    ensures OldOrChain(a, c, h[start].requests)
  {
    hide Listed, Unsettled, FreshRow, IsMutable, HeldSince;
    var m := h[start].requests;
    forall id: nat
      ensures SameRow(a, c, id) || RowIs(c, m, id)
      ensures Stale(a, m, id) ==> SameRow(a, c, id)
      ensures a.lastRequest < id <= c.lastRequest ==> RowIs(c, m, id)
    {
      if b.lastRequest < id <= c.lastRequest {
        assert InBatch(b, id, top, limit);
        assert ReadAgain(c, h, from, to, id);
        FreshIsChain(c, h, start, from, to, id);
      }
      assert SameRow(b, c, id) || (InBatch(b, id, top, limit) && FreshRow(c, h, from, to, id));
      assert SameRow(a, b, id) || RowIs(b, m, id);
      if !SameRow(b, c, id) {
        FreshIsChain(c, h, start, from, to, id);
        if Stale(a, m, id) { NotListed(b, id, limit); }
      } else if a.lastRequest < id <= b.lastRequest {
        assert RowIs(b, m, id) && RowIs(c, m, id);
      }
    }
  }

  lemma NotListed(b: Tables, id: nat, limit: nat)
    requires id in b.requests && !IsMutable(b.requests[id])
    ensures !Listed(b.requests, id, limit)
  {
  }

  /** After a cycle that is done, with room for all unsettled rows, only stale rows differ from the chain. */
  lemma DoneIsCurrent(a: Tables, b: Tables, c: Tables, h: seq<State>, start: nat, from: nat, to: nat, top: nat,
                      limit: nat)
    requires StoodStill(h, start, to) && start <= from && OldOrChain(a, b, h[start].requests)
    requires Reread(b, c, h, from, to, top, limit, true) && c.lastRequest == top && b.lastRequest <= top
    requires forall id :: 1 <= id <= b.lastRequest ==> id in b.requests
    requires AllFit(a, h[start].requests, limit)
    ensures RowsCurrent(a, c, h[start].requests)
  {
    hide Listed, FreshRow, IsMutable, Unsettled, Reread, AllFit;
    var m := h[start].requests;
    OldOrChainStep(a, b, c, h, start, from, to, top, limit, true);
    forall id: nat | 1 <= id <= c.lastRequest ensures RowIs(c, m, id) <==> !Stale(a, m, id) {
      if Stale(a, m, id) {
        assert SameRow(a, c, id);
      } else {
        OneCurrent(a, b, c, h, start, from, to, top, limit, id);
      }
    }
  }

  lemma OneCurrent(a: Tables, b: Tables, c: Tables, h: seq<State>, start: nat, from: nat, to: nat, top: nat,
                   limit: nat, id: nat)
    requires StoodStill(h, start, to) && start <= from && OldOrChain(a, b, h[start].requests)
    requires Reread(b, c, h, from, to, top, limit, true) && b.lastRequest <= top && 1 <= id <= top
    requires id <= b.lastRequest ==> id in b.requests
    requires AllFit(a, h[start].requests, limit) && !Stale(a, h[start].requests, id)
    ensures RowIs(c, h[start].requests, id)
  {
    hide Listed, FreshRow, IsMutable, Unsettled, AllFit, HeldSince;
    var m := h[start].requests;
    if InBatch(b, id, top, limit) {
      assert ReadAgain(c, h, from, to, id);
      FreshIsChain(c, h, start, from, to, id);
    } else {
      assert SameRow(b, c, id);
      if !RowIs(b, m, id) {
        assert SameRow(a, b, id);
        WouldBeListed(a, b, m, limit, id);
      }
    }
  }

  lemma WouldBeListed(a: Tables, b: Tables, m: map<nat, Request>, limit: nat, id: nat)
    requires OldOrChain(a, b, m) && AllFit(a, m, limit) && id in b.requests && IsMutable(b.requests[id])
    ensures Listed(b.requests, id, limit)
  {
    hide IsMutable, Listed;
    forall k | k in Unsettled(b.requests) ensures k in Unsettled(a.requests) + Unsettled(m) {
      assert SameRow(a, b, k) || RowIs(b, m, k);
    }
    SubsetSize(Unsettled(b.requests), Unsettled(a.requests) + Unsettled(m));
    AllListed(b.requests, id, limit);
  }

  ghost predicate StillFollows(a: Tables, b: Tables, h: seq<State>, start: nat, now: nat) {
    StoodStill(h, start, now) ==> OldOrChain(a, b, h[start].requests)
  }

  ghost predicate StillCurrent(a: Tables, b: Tables, h: seq<State>, start: nat, now: nat, limit: nat, synced: bool) {
    StoodStill(h, start, now) && AllFit(a, h[now].requests, limit) && synced ==> RowsCurrent(a, b, h[now].requests)
  }

  lemma StillStarts(a: Tables, h: seq<State>, start: nat, limit: nat)
    requires start < |h|
    ensures StillFollows(a, a, h, start, start) && StillCurrent(a, a, h, start, start, limit, false)
  {
  }

  /** Every request up to the checkpoint has a row. */
  lemma RowsCovered(tb: Tables, h: seq<State>, t: nat, batch: nat)
    requires t < |h| && Agrees(tb, h, t, batch)
    ensures forall id :: 1 <= id <= tb.lastRequest ==> id in tb.requests
  {
    hide RowsExact, FactsAgree, FlagsOk, RequestsAgree;
  }

  /** One more run of the timer, whatever came of it. */
  lemma StillStep(a: Tables, b: Tables, c: Tables, h: seq<State>, start: nat, t: nat, since: nat, now: nat, batch: nat,
                  limit: nat, r: CycleResult, synced: bool)
    requires start <= t <= since <= now < |h| && h[since].nextRequest >= 1
    requires b.lastRequest < h[t].nextRequest <= h[since].nextRequest
    requires StillFollows(a, b, h, start, t) && StillCurrent(a, b, h, start, t, limit, synced)
    requires forall id :: 1 <= id <= b.lastRequest ==> id in b.requests
    requires var top := Reach(b.lastRequest, h[since].nextRequest - 1, batch);
             Reread(b, c, h, since, now, top, limit, r.Synced?)
             && c.lastRequest == if r.Synced? then top else b.lastRequest
    requires r.Skipped? ==> c == b
    ensures StillFollows(a, c, h, start, now)
    ensures StillCurrent(a, c, h, start, now, limit, r.Synced? || (r.Skipped? && synced))
  {
    hide Reread, OldOrChain, RowsCurrent, AllFit;
    var top := Reach(b.lastRequest, h[since].nextRequest - 1, batch);
    if StoodStill(h, start, now) {
      assert StoodStill(h, start, t) && h[t].requests == h[start].requests == h[now].requests;
      OldOrChainStep(a, b, c, h, start, since, now, top, limit, r.Synced?);
      if r.Synced? && AllFit(a, h[now].requests, limit) {
        DoneIsCurrent(a, b, c, h, start, since, now, top, limit);
      }
    }
  }

  /**
   Any run of the timer. However cycles fail, are skipped or are cut short while the chain
   moves on: the tables are reliable afterwards; the checkpoints have moved by the batches of
   the cycles that succeeded, as far as the counters allow, and on a chain that stood still
   they reach the counters exactly when those are at least as many as the backlog has batches;
   if the last cycle that ran succeeded, caught-up facts carry exactly the chain's flags; and if
   moreover the chain's requests stood still and the unsettled ones fit the limit of a cycle, the rows
   up to the checkpoint are exactly the chain's requests, but for rows stale from the start.
  */
  method RunTimer(ix: ChainIndexer, cooling: seq<bool>) returns (results: seq<CycleResult>)
    requires ix.Valid() && !ix.syncing
    modifies ix`now, ix`syncing, ix.repo
    ensures ix.Valid() && !ix.syncing && old(ix.now) <= ix.now
    ensures |results| == |cooling| && forall i :: 0 <= i < |results| ==> (results[i].Skipped? <==> cooling[i])
    ensures Reliable(ix.repo.State(), ix.chain, ix.now)
    ensures Progress(old(ix.repo.State()), ix.repo.State(), ix.chain[old(ix.now)], ix.chain[ix.now],
                     Synced(results), ix.maxRecords)
    ensures CatchUp(old(ix.repo.State()), ix.repo.State(), ix.chain[old(ix.now)], ix.chain[ix.now],
                    Synced(results), ix.maxRecords)
    ensures EndsSynced(results) ==> forall key :: FlaggedOnce(ix.repo.State(), key)
    ensures EndsSynced(results) ==>
              forall key :: CaughtUp(ix.repo.State(), ix.chain[ix.now], key) ==>
                FlagsExact(ix.repo.State(), ix.chain[ix.now], key)
    ensures StillCurrent(old(ix.repo.State()), ix.repo.State(), ix.chain, old(ix.now), ix.now, ix.maxMutable,
                         EndsSynced(results))
  {
    hide ChainHistory, Agrees, AllClean, Progress, CatchUp, Reliable, CaughtUp, FlagsExact, FlaggedOnce, Reread,
         StillCurrent, StillFollows;
    results := [];
    ghost var start, before := ix.now, ix.repo.State();
    Counters(ix);
    Starts(before, ix.chain[start], ix.maxRecords);
    StillStarts(before, ix.chain, start, ix.maxMutable);
    for i := 0 to |cooling|
      invariant ix.Valid() && !ix.syncing && start <= ix.now
      invariant |results| == i && forall k :: 0 <= k < i ==> (results[k].Skipped? <==> cooling[k])
      invariant Progress(before, ix.repo.State(), ix.chain[start], ix.chain[ix.now], Synced(results), ix.maxRecords)
      invariant EndsSynced(results) ==> AllClean(ix.repo.State(), ix.chain, ix.now)
      invariant StillFollows(before, ix.repo.State(), ix.chain, start, ix.now)
      invariant StillCurrent(before, ix.repo.State(), ix.chain, start, ix.now, ix.maxMutable, EndsSynced(results))
    {
      ghost var tb, t := ix.repo.State(), ix.now;
      Counters(ix);
      var r, since := ix.SyncOnce(cooling[i]);
      Grows(ix.chain, start, t);
      Grows(ix.chain, t, since);
      Grows(ix.chain, since, ix.now);
      ProgressStep(before, tb, ix.repo.State(), ix.chain[start], ix.chain[t], ix.chain[since], ix.chain[ix.now],
                   Synced(results), ix.maxRecords, r.Synced?);
      if r.Skipped? && EndsSynced(results) { CleanLater(tb, ix.chain, t, ix.now); }
      assert (results + [r])[..|results|] == results;
      RowsCovered(tb, ix.chain, t, ix.maxRecords);
      StillStep(before, tb, ix.repo.State(), ix.chain, start, t, since, ix.now, ix.maxRecords, ix.maxMutable, r,
                EndsSynced(results));
      results := results + [r];
    }
    Finish(ix, before, start, results);
  }

  lemma Counters(ix: ChainIndexer)
    requires ix.Valid()
    ensures var s := ix.chain[ix.now];
            && s.nextResolution >= 1 && s.nextRequest >= 1
            && ix.repo.lastResolution < s.nextResolution && ix.repo.lastRequest < s.nextRequest
  {
    hide ChainHistory, Agrees;
    Dense(ix.chain, ix.now);
    CoveredBy(ix.repo.State(), ix.chain, ix.now, ix.maxRecords);
  }

  lemma Starts(tb: Tables, s: State, batch: nat)
    requires s.nextResolution >= 1 && s.nextRequest >= 1
    requires tb.lastResolution < s.nextResolution && tb.lastRequest < s.nextRequest
    ensures Progress(tb, tb, s, s, 0, batch)
  {
  }

  lemma ProgressStep(before: Tables, tb: Tables, tc: Tables, first: State, seen: State, since: State, now: State,
                     cycles: nat, batch: nat, synced: bool)
    requires first.nextResolution >= 1 && first.nextRequest >= 1
    requires first.nextResolution <= seen.nextResolution <= since.nextResolution <= now.nextResolution
    requires first.nextRequest <= seen.nextRequest <= since.nextRequest <= now.nextRequest
    requires before.lastResolution < first.nextResolution && before.lastRequest < first.nextRequest
    requires tb.lastResolution < seen.nextResolution && tb.lastRequest < seen.nextRequest
    requires Progress(before, tb, first, seen, cycles, batch)
    requires tc.lastResolution == if synced then Reach(tb.lastResolution, since.nextResolution - 1, batch)
                                  else tb.lastResolution
    requires tc.lastRequest == if synced then Reach(tb.lastRequest, since.nextRequest - 1, batch) else tb.lastRequest
    ensures Progress(before, tc, first, now, cycles + if synced then 1 else 0, batch)
  {
    hide Between, Reach;
    if synced {
      BetweenStep(tb.lastResolution, cycles, before.lastResolution, first.nextResolution - 1, seen.nextResolution - 1,
                  since.nextResolution - 1, now.nextResolution - 1, batch);
      BetweenStep(tb.lastRequest, cycles, before.lastRequest, first.nextRequest - 1, seen.nextRequest - 1,
                  since.nextRequest - 1, now.nextRequest - 1, batch);
    } else {
      BetweenLater(tb.lastResolution, cycles, before.lastResolution, first.nextResolution - 1,
                   seen.nextResolution - 1, now.nextResolution - 1, batch);
      BetweenLater(tb.lastRequest, cycles, before.lastRequest, first.nextRequest - 1, seen.nextRequest - 1,
                   now.nextRequest - 1, batch);
    }
  }

  lemma Finish(ix: ChainIndexer, before: Tables, start: nat, results: seq<CycleResult>)
    requires ix.Valid() && start <= ix.now
    requires ix.chain[start].nextResolution >= 1 && ix.chain[start].nextRequest >= 1
    requires before.lastResolution < ix.chain[start].nextResolution && before.lastRequest < ix.chain[start].nextRequest
    requires Progress(before, ix.repo.State(), ix.chain[start], ix.chain[ix.now], Synced(results), ix.maxRecords)
    requires EndsSynced(results) ==> AllClean(ix.repo.State(), ix.chain, ix.now)
    ensures Reliable(ix.repo.State(), ix.chain, ix.now)
    ensures CatchUp(before, ix.repo.State(), ix.chain[start], ix.chain[ix.now], Synced(results), ix.maxRecords)
    ensures EndsSynced(results) ==> forall key :: FlaggedOnce(ix.repo.State(), key)
    ensures EndsSynced(results) ==>
              forall key :: CaughtUp(ix.repo.State(), ix.chain[ix.now], key) ==>
                FlagsExact(ix.repo.State(), ix.chain[ix.now], key)
  {
    hide ChainHistory, Agrees, AllClean, Progress, CatchUp, Reliable, CaughtUp, FlagsExact, FlaggedOnce;
    var tb := ix.repo.State();
    Counters(ix);
    AgreesReliable(tb, ix.chain, ix.now, ix.maxRecords);
    ProgressCatchesUp(before, tb, ix.chain[start], ix.chain[ix.now], Synced(results), ix.maxRecords);
    if EndsSynced(results) {
      forall key
        ensures FlaggedOnce(tb, key)
        ensures CaughtUp(tb, ix.chain[ix.now], key) ==> FlagsExact(tb, ix.chain[ix.now], key)
      {
        FlaggedExactly(tb, ix.chain, ix.now, ix.maxRecords, key);
      }
    }
  }
}
