/**
 The tables of the projection, the writes made to them, and when they agree with the chain.
 A chain is seen as the list of the states it passes through; the projection is judged
 against the latest state read so far.
*/
module Projection {
  import opened Text
  import opened Digests
  import opened Registry
  import opened RegistryInvariant
  import opened RegistryResults

  datatype Row = Row(res: Resolution, canonical: bool, latest: bool)

  datatype Tables = Tables(
    requests: map<nat, Request>, resolutions: map<nat, Row>, facts: map<Digest, Fact>,
    lastRequest: nat, lastResolution: nat, policyEvents: nat, registryEvents: nat)

  // The statements the indexer issues

  function PutRequest(tb: Tables, r: Request): Tables { tb.(requests := tb.requests[r.id := r]) }

  function PutResolution(tb: Tables, res: Resolution, canonical: bool, latest: bool): Tables {
    tb.(resolutions := tb.resolutions[res.id := Row(res, canonical, latest)])
  }

  function SetFlags(tb: Tables, key: Digest, canonical: nat, latest: nat): Tables {
    tb.(resolutions := map id | id in tb.resolutions ::
          if tb.resolutions[id].res.factKey == key
          then Row(tb.resolutions[id].res, id == canonical, id == latest)
          else tb.resolutions[id])
  }

  function PutFact(tb: Tables, f: Fact): Tables { tb.(facts := tb.facts[f.factKey := f]) }

  function Or(given: Option<nat>, stored: nat): nat { if given.Some? then given.value else stored }

  /** Fields that are not given keep their stored value. */
  function SetSync(tb: Tables, request: Option<nat>, resolution: Option<nat>, policy: Option<nat>,
                   registry: Option<nat>): Tables {
    tb.(lastRequest := Or(request, tb.lastRequest), lastResolution := Or(resolution, tb.lastResolution),
        policyEvents := Or(policy, tb.policyEvents), registryEvents := Or(registry, tb.registryEvents))
  }

  function LatestOf(f: Fact): nat { if f.latestResolution == 0 then f.currentResolution else f.latestResolution }

  // The chain over time

  ghost predicate ChainHistory(h: seq<State>) {
    && |h| > 0
    && (forall i :: 0 <= i < |h| ==> Inv(h[i]))
    && (forall i, j :: 0 <= i <= j < |h| ==> Extends(h[i], h[j]))
  }

  // Agreement

  predicate RowsExact(tb: Tables, s: State, batch: nat) {
    forall id :: id in tb.resolutions ==>
      id in s.resolutions && tb.resolutions[id].res == s.resolutions[id] && id <= tb.lastResolution + batch
  }

  predicate Covered(tb: Tables, s: State) {
    && tb.lastResolution < s.nextResolution && tb.lastRequest < s.nextRequest
    && (forall id :: 1 <= id <= tb.lastResolution ==> id in tb.resolutions)
    && (forall id :: 1 <= id <= tb.lastRequest ==> id in tb.requests)
  }

  predicate OfFact(tb: Tables, id: int, key: Digest) {
    id in tb.resolutions && tb.resolutions[id].res.factKey == key
  }

  /** The projected fact is the one of this state, which has all its resolutions up to `upTo`. */
  ghost predicate SeenIn(tb: Tables, s: State, key: Digest, upTo: nat) {
    && key in tb.facts && key in s.facts && tb.facts[key] == s.facts[key]
    && forall id :: OfFact(tb, id, key) && id <= upTo ==> id in s.resolutions
  }

  ghost predicate FactSeen(tb: Tables, h: seq<State>, t: nat, key: Digest)
  {
    && t < |h|
    && exists u :: 0 <= u <= t && SeenIn(tb, h[u], key, tb.lastResolution)
  }

  ghost predicate FactsAgree(tb: Tables, h: seq<State>, t: nat)
  {
    && t < |h|
    && (forall key :: key in tb.facts ==> FactSeen(tb, h, t, key))
    && (forall id :: id in tb.resolutions && id <= tb.lastResolution ==> tb.resolutions[id].res.factKey in tb.facts)
  }

  /** The flags of all rows of a fact come from one state of the chain, which has all of them. */
  ghost predicate FlagsFrom(tb: Tables, s: State, key: Digest) {
    && key in s.facts
    && forall id :: OfFact(tb, id, key) ==>
         id in s.resolutions
         && tb.resolutions[id].canonical == (id == s.facts[key].currentResolution)
         && tb.resolutions[id].latest == (id == LatestOf(s.facts[key]))
  }

  ghost predicate Clean(tb: Tables, h: seq<State>, t: nat, key: Digest)
  {
    && t < |h|
    && exists u :: 0 <= u <= t && FlagsFrom(tb, h[u], key)
  }

  /** Every row was on the chain by then. */
  predicate KnownIn(tb: Tables, s: State) { forall id :: id in tb.resolutions ==> id in s.resolutions }

  /** A cycle that failed left a row past the checkpoint. */
  ghost predicate Unfinished(tb: Tables, key: Digest) {
    exists id :: OfFact(tb, id, key) && id > tb.lastResolution
  }

  ghost predicate FlagsOk(tb: Tables, h: seq<State>, t: nat)
  {
    && t < |h|
    && forall id :: id in tb.resolutions ==>
      Clean(tb, h, t, tb.resolutions[id].res.factKey) || Unfinished(tb, tb.resolutions[id].res.factKey)
  }

  predicate RequestIn(tb: Tables, s: State, id: nat) {
    id in tb.requests && id in s.requests && tb.requests[id] == s.requests[id]
  }

  ghost predicate RequestsAgree(tb: Tables, h: seq<State>, t: nat)
  {
    && t < |h|
    && forall id :: id in tb.requests ==> exists u :: 0 <= u <= t && RequestIn(tb, h[u], id)
  }

  ghost predicate Agrees(tb: Tables, h: seq<State>, t: nat, batch: nat) {
    && t < |h|
    && RowsExact(tb, h[t], batch) && Covered(tb, h[t])
    && FactsAgree(tb, h, t) && FlagsOk(tb, h, t) && RequestsAgree(tb, h, t)
  }

  // Facts about chains

  lemma Earlier(h: seq<State>, i: nat, j: nat, id: nat)
    requires ChainHistory(h) && i <= j < |h| && id in h[i].resolutions
    ensures id in h[j].resolutions && h[j].resolutions[id] == h[i].resolutions[id]
  {
    hide Inv;
    assert Extends(h[i], h[j]);
  }

  lemma Grows(h: seq<State>, i: nat, j: nat)
    requires ChainHistory(h) && i <= j < |h|
    ensures h[i].nextResolution <= h[j].nextResolution && h[i].nextRequest <= h[j].nextRequest
    ensures forall key :: key in h[i].facts ==> key in h[j].facts
    ensures forall id :: id in h[i].requests ==> id in h[j].requests
  {
    hide Inv, RequestGrows;
    assert Extends(h[i], h[j]);
  }

  lemma Dense(h: seq<State>, i: nat)
    requires ChainHistory(h) && i < |h|
    ensures forall id: nat :: id in h[i].resolutions <==> 1 <= id < h[i].nextResolution
    ensures forall id: nat :: id in h[i].requests <==> 1 <= id < h[i].nextRequest
    ensures forall id :: id in h[i].requests ==> h[i].requests[id].id == id
    ensures forall id :: id in h[i].resolutions ==> h[i].resolutions[id].id == id
    ensures h[i].nextResolution >= 1 && h[i].nextRequest >= 1
  {
    hide Extends, RequestsOk, ResolutionsOk, FactsOk, CountsOk, MoneyOk, OutboxOk;
    assert Inv(h[i]);
  }

  /** A recorded resolution's fact exists, under its own key. */
  lemma FactOfResolution(h: seq<State>, i: nat, id: nat)
    requires ChainHistory(h) && i < |h| && id in h[i].resolutions
    ensures h[i].resolutions[id].factKey in h[i].facts
  {
    hide Extends, IdsOk, RequestsOk, CountsOk, MoneyOk, OutboxOk, Chained, FactOk;
    assert Inv(h[i]);
    assert OwnedOk(h[i], h[i].resolutions[id]);
  }

  lemma FactKeyed(h: seq<State>, i: nat, key: Digest)
    requires ChainHistory(h) && i < |h| && key in h[i].facts
    ensures h[i].facts[key].factKey == key
  {
    hide Extends, IdsOk, RequestsOk, ResolutionsOk, CountsOk, MoneyOk, OutboxOk, HeadIndex;
    assert Inv(h[i]);
    assert FactOk(h[i], key);
  }

  // What each statement keeps

  lemma TimePasses(tb: Tables, h: seq<State>, t: nat, n: nat, batch: nat)
    requires ChainHistory(h) && Agrees(tb, h, t, batch) && t <= n < |h|
    ensures Agrees(tb, h, n, batch)
  {
    hide ChainHistory, OfFact, FlagsFrom, SeenIn, RequestIn;
    Grows(h, t, n);
    forall id | id in tb.resolutions
      ensures id in h[n].resolutions && tb.resolutions[id].res == h[n].resolutions[id]
    {
      Earlier(h, t, n, id);
    }
    forall key | key in tb.facts ensures FactSeen(tb, h, n, key) { assert FactSeen(tb, h, t, key); }
    forall key | Clean(tb, h, t, key) ensures Clean(tb, h, n, key) {
      var u :| 0 <= u <= t && FlagsFrom(tb, h[u], key);
    }
  }

  lemma PutRequestKeeps(tb: Tables, h: seq<State>, t: nat, id: nat, batch: nat)
    requires ChainHistory(h) && Agrees(tb, h, t, batch) && id in h[t].requests
    ensures Agrees(PutRequest(tb, h[t].requests[id]), h, t, batch)
    ensures id in PutRequest(tb, h[t].requests[id]).requests
  {
    hide ChainHistory, FactsAgree, FlagsOk, RequestsAgree;
    Dense(h, t);
    var tc := PutRequest(tb, h[t].requests[id]);
    RequestRows(tb, h, t, id);
    FactsSame(tb, tc, h, t);
    FlagsSame(tb, tc, h, t);
  }

  lemma RequestRows(tb: Tables, h: seq<State>, t: nat, id: nat)
    requires t < |h| && RequestsAgree(tb, h, t) && id in h[t].requests && h[t].requests[id].id == id
    ensures RequestsAgree(PutRequest(tb, h[t].requests[id]), h, t)
  {
    var tc := PutRequest(tb, h[t].requests[id]);
    forall k | k in tc.requests ensures exists u :: 0 <= u <= t && RequestIn(tc, h[u], k) {
      if k == id {
        assert RequestIn(tc, h[t], k);
      } else {
        var u :| 0 <= u <= t && RequestIn(tb, h[u], k);
        assert RequestIn(tc, h[u], k);
      }
    }
  }

  lemma FactsSame(tb: Tables, tc: Tables, h: seq<State>, t: nat)
    requires t < |h| && FactsAgree(tb, h, t)
    requires tc.facts == tb.facts && tc.lastResolution == tb.lastResolution
    requires forall id :: id <= tb.lastResolution ==> (id in tc.resolutions <==> id in tb.resolutions)
    requires forall id :: id <= tb.lastResolution && id in tc.resolutions ==>
               tc.resolutions[id].res == tb.resolutions[id].res
    ensures FactsAgree(tc, h, t)
  {
    forall key | key in tc.facts ensures FactSeen(tc, h, t, key) {
      assert FactSeen(tb, h, t, key);
      var u :| 0 <= u <= t && SeenIn(tb, h[u], key, tb.lastResolution);
      forall id | OfFact(tc, id, key) && id <= tc.lastResolution ensures id in h[u].resolutions {
        assert OfFact(tb, id, key);
      }
      assert SeenIn(tc, h[u], key, tc.lastResolution);
    }
  }

  lemma FlagsSame(tb: Tables, tc: Tables, h: seq<State>, t: nat)
    requires t < |h| && FlagsOk(tb, h, t)
    requires tc.resolutions == tb.resolutions && tc.lastResolution == tb.lastResolution
    ensures FlagsOk(tc, h, t)
  {
    forall id | id in tc.resolutions
      ensures Clean(tc, h, t, tc.resolutions[id].res.factKey) || Unfinished(tc, tc.resolutions[id].res.factKey)
    {
      var key := tc.resolutions[id].res.factKey;
      if Clean(tb, h, t, key) {
        CleanSame(tb, tc, h, t, key);
      } else {
        var k :| OfFact(tb, k, key) && k > tb.lastResolution;
        assert OfFact(tc, k, key);
      }
    }
  }

  /** Cleanness only looks at the fact's own rows. */
  lemma CleanSame(tb: Tables, tc: Tables, h: seq<State>, t: nat, key: Digest)
    requires t < |h| && Clean(tb, h, t, key)
    requires forall id :: OfFact(tc, id, key) ==> OfFact(tb, id, key) && tc.resolutions[id] == tb.resolutions[id]
    ensures Clean(tc, h, t, key)
  {
    var u :| 0 <= u <= t && FlagsFrom(tb, h[u], key);
    assert FlagsFrom(tc, h[u], key);
  }

  /** Rewriting the rows of one fact, to clean or unfinished ones, leaves the others as they were. */
  lemma OthersFlagged(tb: Tables, tc: Tables, h: seq<State>, t: nat, key: Digest)
    requires t < |h| && FlagsOk(tb, h, t) && tc.lastResolution == tb.lastResolution
    requires Clean(tc, h, t, key) || Unfinished(tc, key)
    requires forall id :: id in tb.resolutions ==> id in tc.resolutions
    requires forall id :: id in tc.resolutions && tc.resolutions[id].res.factKey != key ==>
               id in tb.resolutions && tc.resolutions[id] == tb.resolutions[id]
    requires forall id :: id in tb.resolutions ==> tc.resolutions[id].res == tb.resolutions[id].res
    ensures FlagsOk(tc, h, t)
  {
    hide Clean;
    forall k | k in tc.resolutions
      ensures Clean(tc, h, t, tc.resolutions[k].res.factKey) || Unfinished(tc, tc.resolutions[k].res.factKey)
    {
      var other := tc.resolutions[k].res.factKey;
      if other != key {
        if Clean(tb, h, t, other) {
          CleanSame(tb, tc, h, t, other);
        } else {
          var i :| OfFact(tb, i, other) && i > tb.lastResolution;
          assert OfFact(tc, i, other);
        }
      }
    }
  }

  lemma PutResolutionKeeps(tb: Tables, h: seq<State>, t: nat, id: nat, canonical: bool, latest: bool, batch: nat)
    requires ChainHistory(h) && Agrees(tb, h, t, batch) && id in h[t].resolutions
    requires tb.lastResolution < id <= tb.lastResolution + batch
    ensures var tc := PutResolution(tb, h[t].resolutions[id], canonical, latest);
            Agrees(tc, h, t, batch) && id in tc.resolutions
  {
    hide ChainHistory, FactsAgree, RequestsAgree, FlagsOk, Unfinished;
    Dense(h, t);
    var res := h[t].resolutions[id];
    var tc := PutResolution(tb, res, canonical, latest);
    FactsSame(tb, tc, h, t);
    RequestsSame(tb, tc, h, t);
    IsUnfinished(tc, id);
    OthersFlagged(tb, tc, h, t, res.factKey);
  }

  lemma IsUnfinished(tb: Tables, id: nat)
    requires id in tb.resolutions && id > tb.lastResolution
    ensures Unfinished(tb, tb.resolutions[id].res.factKey)
  {
    assert OfFact(tb, id, tb.resolutions[id].res.factKey);
  }

  lemma RequestsSame(tb: Tables, tc: Tables, h: seq<State>, t: nat)
    requires t < |h| && RequestsAgree(tb, h, t) && tc.requests == tb.requests
    ensures RequestsAgree(tc, h, t)
  {
    forall id | id in tc.requests ensures exists u :: 0 <= u <= t && RequestIn(tc, h[u], id) {
      var u :| 0 <= u <= t && RequestIn(tb, h[u], id);
      assert RequestIn(tc, h[u], id);
    }
  }

  /** The update touches the flags of one fact's rows, and nothing else. */
  lemma SetFlagsRows(tb: Tables, key: Digest, c: nat, l: nat)
    ensures var tc := SetFlags(tb, key, c, l);
            && tc == tb.(resolutions := tc.resolutions)
            && (forall id :: id in tc.resolutions <==> id in tb.resolutions)
            && (forall id :: id in tb.resolutions ==> tc.resolutions[id].res == tb.resolutions[id].res)
            && (forall id :: OfFact(tc, id, key) ==>
                  tc.resolutions[id].canonical == (id == c) && tc.resolutions[id].latest == (id == l))
            && (forall id :: id in tb.resolutions && tb.resolutions[id].res.factKey != key ==>
                  tc.resolutions[id] == tb.resolutions[id])
  {
  }

  lemma SetFlagsKeeps(tb: Tables, h: seq<State>, t: nat, u: nat, key: Digest, batch: nat)
    requires ChainHistory(h) && Agrees(tb, h, t, batch) && u <= t && key in h[u].facts && KnownIn(tb, h[u])
    ensures var tc := SetFlags(tb, key, h[u].facts[key].currentResolution, LatestOf(h[u].facts[key]));
            Agrees(tc, h, t, batch) && Clean(tc, h, t, key)
  {
    hide ChainHistory, FactsAgree, RequestsAgree, SetFlags, LatestOf, FlagsOk, Clean;
    var c, l := h[u].facts[key].currentResolution, LatestOf(h[u].facts[key]);
    var tc := SetFlags(tb, key, c, l);
    SetFlagsRows(tb, key, c, l);
    assert KnownIn(tc, h[u]);
    FlagsClean(tc, h, t, u, key);
    FactsSame(tb, tc, h, t);
    RequestsSame(tb, tc, h, t);
    OthersFlagged(tb, tc, h, t, key);
  }

  lemma FlagsClean(tc: Tables, h: seq<State>, t: nat, u: nat, key: Digest)
    requires u <= t < |h| && key in h[u].facts && KnownIn(tc, h[u])
    requires forall id :: OfFact(tc, id, key) ==>
               tc.resolutions[id].canonical == (id == h[u].facts[key].currentResolution)
               && tc.resolutions[id].latest == (id == LatestOf(h[u].facts[key]))
    ensures Clean(tc, h, t, key)
  {
    assert FlagsFrom(tc, h[u], key);
  }

  lemma PutFactKeeps(tb: Tables, h: seq<State>, t: nat, u: nat, key: Digest, batch: nat)
    requires ChainHistory(h) && Agrees(tb, h, t, batch) && u <= t && key in h[u].facts
    requires tb.lastResolution < h[u].nextResolution
    ensures Agrees(PutFact(tb, h[u].facts[key]), h, t, batch)
    ensures PutFact(tb, h[u].facts[key]).facts == tb.facts[key := h[u].facts[key]]
  {
    hide ChainHistory, RequestsAgree, FlagsOk;
    FactKeyed(h, u, key);
    Dense(h, u);
    Dense(h, t);
    var tc := PutFact(tb, h[u].facts[key]);
    RequestsSame(tb, tc, h, t);
    FlagsSame(tb, tc, h, t);
    forall k | k in tc.facts ensures FactSeen(tc, h, t, k) {
      if k == key {
        assert SeenIn(tc, h[u], k, tc.lastResolution);
      } else {
        assert FactSeen(tb, h, t, k);
        var i :| 0 <= i <= t && SeenIn(tb, h[i], k, tb.lastResolution);
        forall id | OfFact(tc, id, k) && id <= tc.lastResolution ensures id in h[i].resolutions {
          assert OfFact(tb, id, k);
        }
        assert SeenIn(tc, h[i], k, tc.lastResolution);
      }
    }
  }

  // Moving the checkpoint

  function Reach(previous: nat, count: nat, batch: nat): nat {
    if count <= previous then previous else if count < previous + batch then count else previous + batch
  }

  /** A fact processed since a given time, with its rows and flags. */
  ghost predicate Done(tb: Tables, h: seq<State>, since: nat, t: nat, key: Digest)
  {
    && t < |h|
    && Clean(tb, h, t, key) && key in tb.facts
    && exists u :: since <= u <= t && key in h[u].facts && tb.facts[key] == h[u].facts[key]
  }

  /** Every row past the checkpoint belongs to a fact processed in this cycle. */
  ghost predicate BatchDone(tb: Tables, h: seq<State>, since: nat, t: nat, reach: nat)
  {
    && t < |h|
    && (forall id :: tb.lastResolution < id <= reach ==> id in tb.resolutions)
    && (forall id :: id in tb.resolutions && id > tb.lastResolution ==>
          id <= reach && Done(tb, h, since, t, tb.resolutions[id].res.factKey))
  }

  ghost predicate AllClean(tb: Tables, h: seq<State>, t: nat)
  {
    && t < |h|
    && forall id :: id in tb.resolutions ==> Clean(tb, h, t, tb.resolutions[id].res.factKey)
  }

  lemma CheckpointKeeps(tb: Tables, h: seq<State>, since: nat, t: nat, request: nat, policy: nat, registry: nat,
                        batch: nat)
    requires ChainHistory(h) && Agrees(tb, h, t, batch) && since <= t
    requires var reach := Reach(tb.lastResolution, h[since].nextResolution - 1, batch);
             BatchDone(tb, h, since, t, reach) && tb.lastResolution < h[since].nextResolution
    requires tb.lastRequest <= request < h[t].nextRequest
    requires forall id :: tb.lastRequest < id <= request ==> id in tb.requests
    ensures var reach := Reach(tb.lastResolution, h[since].nextResolution - 1, batch);
            var tc := SetSync(tb, Some(request), Some(reach), Some(policy), Some(registry));
            Agrees(tc, h, t, batch) && AllClean(tc, h, t)
  {
    hide ChainHistory, RequestsAgree, Clean, FactSeen;
    var reach := Reach(tb.lastResolution, h[since].nextResolution - 1, batch);
    var tc := SetSync(tb, Some(request), Some(reach), Some(policy), Some(registry));
    Grows(h, since, t);
    RequestsSame(tb, tc, h, t);
    forall key | key in tc.facts ensures FactSeen(tc, h, t, key) {
      FactSeenReach(tb, tc, h, since, t, key, batch);
    }
    forall id | id in tb.resolutions ensures Clean(tc, h, t, tb.resolutions[id].res.factKey) {
      CleanReach(tb, tc, h, since, t, id);
    }
    forall id | id in tc.resolutions ensures tc.resolutions[id].res.factKey in tc.facts {
      if id > tb.lastResolution { assert Done(tb, h, since, t, tb.resolutions[id].res.factKey); }
    }
  }

  lemma FactSeenReach(tb: Tables, tc: Tables, h: seq<State>, since: nat, t: nat, key: Digest, batch: nat)
    requires ChainHistory(h) && Agrees(tb, h, t, batch) && since <= t && key in tb.facts
    requires var reach := Reach(tb.lastResolution, h[since].nextResolution - 1, batch);
             && BatchDone(tb, h, since, t, reach) && tb.lastResolution < h[since].nextResolution
             && tc == tb.(lastRequest := tc.lastRequest, lastResolution := reach, policyEvents := tc.policyEvents,
                          registryEvents := tc.registryEvents)
    ensures FactSeen(tc, h, t, key)
  {
    hide ChainHistory, RequestsAgree, FlagsOk, Clean, FactSeen, SeenIn, Reach, RowsExact, Covered;
    if Unfinished(tb, key) {
      assert Done(tb, h, since, t, key);
      DoneSeen(tb, tc, h, since, t, key, batch);
    } else {
      assert FactSeen(tb, h, t, key);
      StillSeen(tb, tc, h, t, key);
    }
  }

  /** A fact processed since the counters were read has been seen with all of the batch. */
  lemma DoneSeen(tb: Tables, tc: Tables, h: seq<State>, since: nat, t: nat, key: Digest, batch: nat)
    requires since <= t < |h| && Done(tb, h, since, t, key) && tb.lastResolution < h[since].nextResolution
    requires RowsExact(tb, h[t], batch) && tc.facts == tb.facts && tc.resolutions == tb.resolutions
    requires tc.lastResolution == Reach(tb.lastResolution, h[since].nextResolution - 1, batch)
    requires ChainHistory(h)
    ensures FactSeen(tc, h, t, key)
  {
    hide ChainHistory, Clean;
    var u :| since <= u <= t && key in h[u].facts && tb.facts[key] == h[u].facts[key];
    Grows(h, since, u);
    Dense(h, u);
    Dense(h, t);
    assert SeenIn(tc, h[u], key, tc.lastResolution);
  }

  /** A fact without new rows is as it was seen before. */
  lemma StillSeen(tb: Tables, tc: Tables, h: seq<State>, t: nat, key: Digest)
    requires FactSeen(tb, h, t, key) && !Unfinished(tb, key)
    requires tc.facts == tb.facts && tc.resolutions == tb.resolutions
    ensures FactSeen(tc, h, t, key)
  {
    var u :| 0 <= u <= t && SeenIn(tb, h[u], key, tb.lastResolution);
    forall id | OfFact(tc, id, key) && id <= tc.lastResolution ensures id in h[u].resolutions {
      assert OfFact(tb, id, key);
    }
    assert SeenIn(tc, h[u], key, tc.lastResolution);
  }

  lemma CleanReach(tb: Tables, tc: Tables, h: seq<State>, since: nat, t: nat, id: nat)
    requires t < |h| && FlagsOk(tb, h, t) && id in tb.resolutions && tc.resolutions == tb.resolutions
    requires forall k :: k in tb.resolutions && k > tb.lastResolution ==>
               Done(tb, h, since, t, tb.resolutions[k].res.factKey)
    ensures Clean(tc, h, t, tb.resolutions[id].res.factKey)
  {
    CleanSame(tb, tc, h, t, tb.resolutions[id].res.factKey);
  }
}
