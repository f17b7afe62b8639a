/** What readers of the projection can rely on, in terms of the chain. */
module IndexerTheorems {
  import opened Text
  import opened Digests
  import opened Registry
  import opened RegistryInvariant
  import opened RegistryCommit
  import opened RegistryResults
  import opened SourceClasses
  import opened Projection
  import T = RegistryTheorems

  // Chains of states come from runs of the registry

  /** The registry's state after each prefix of a run. */
  function States(c: T.Chain, actions: seq<T.Action>, json: Json): (h: seq<State>)
    ensures |h| == |actions| + 1
    ensures h[|actions|] == T.Run(c, actions, json).reg
  {
    if |actions| == 0 then [c.reg]
    else States(c, actions[..|actions| - 1], json) + [T.Run(c, actions, json).reg]
  }

  /** The states of any run of signed actions form such a history. */
  lemma {:induction false} RunIsHistory(c: T.Chain, actions: seq<T.Action>, json: Json)
    requires T.Good(c) && forall a :: a in actions ==> T.Signed(a)
    ensures ChainHistory(States(c, actions, json))
  {
    hide T.Good, T.Act, Inv, Extends;
    var h := States(c, actions, json);
    GoodInv(c);
    ExtendsRefl(c.reg);
    if |actions| > 0 {
      var n := |actions| - 1;
      var front, last := actions[..n], actions[n];
      var mid := T.Run(c, front, json);
      RunIsHistory(c, front, json);
      T.RunKeeps(c, front, json);
      StepExtends(mid, last, json);
      T.ActKeeps(mid, last, json);
      GoodInv(T.Act(mid, last, json));
      assert h[n] == mid.reg && h[n + 1] == T.Act(mid, last, json).reg;
      assert h[..n + 1] == States(c, front, json);
      ExtendsRefl(h[n + 1]);
      forall i | 0 <= i <= n ensures Extends(h[i], h[n + 1]) {
        assert h[i] == States(c, front, json)[i] && h[n] == States(c, front, json)[n];
        ExtendsTrans(h[i], h[n], h[n + 1]);
      }
      forall i, j | 0 <= i <= j < |h| ensures Extends(h[i], h[j]) {
        if j <= n { assert h[i] == States(c, front, json)[i] && h[j] == States(c, front, json)[j]; }
      }
      forall i | 0 <= i < |h| ensures Inv(h[i]) {
        if i <= n { assert h[i] == States(c, front, json)[i]; }
      }
    }
  }

  lemma GoodInv(c: T.Chain)
    requires T.Good(c)
    ensures Inv(c.reg)
  {
    hide Inv;
  }

  // A fact is determined by its history

  lemma FactDetermined(s: State, t: State, key: Digest, h: seq<nat>)
    requires key in s.facts && key in t.facts && key in s.history && key in t.history
    requires s.history[key] == h == t.history[key]
    requires Chained(h, s.resolutions, key) && Chained(h, t.resolutions, key)
    requires FactOk(s, key) && FactOk(t, key) && Extends(s, t)
    ensures s.facts[key] == t.facts[key]
  {
    hide HeadIndex, Chained, FactMatches, RequestGrows, RequestsGrow;
    ChainedIn(h, s.resolutions, key);
    ChainedIn(h, t.resolutions, key);
    var rs := Records(h, s.resolutions);
    assert rs == Records(h, t.resolutions);
    var last := rs[|h| - 1].requestId;
    SameRequestSpec(s, t, last);
    FactFromRecords(s.facts[key], t.facts[key], rs[HeadIndex(rs)], rs[|h| - 1]);
  }

  lemma SameRequestSpec(s: State, t: State, id: nat)
    requires RequestsGrow(s, t) && id in s.requests
    ensures id in t.requests && t.requests[id].spec == s.requests[id].spec
  {
    assert RequestGrows(s.requests[id], t.requests[id]);
  }

  lemma FactFromRecords(f: Fact, g: Fact, head: Resolution, last: Resolution)
    requires FactMatches(f, head, last) && FactMatches(g, head, last)
    requires f.schemaVersion == g.schemaVersion && f.mutability == g.mutability
    ensures f == g
  {
  }

  lemma ChainedIn(h: seq<nat>, m: map<nat, Resolution>, key: Digest)
    requires Chained(h, m, key)
    ensures |h| > 0 && forall i :: 0 <= i < |h| ==> h[i] in m && m[h[i]].factKey == key
    ensures forall i, j :: 0 <= i < j < |h| ==> h[i] != h[j]
  {
  }

  lemma FactParts(s: State, key: Digest)
    requires FactsOk(s) && key in s.facts
    ensures key in s.history && Chained(s.history[key], s.resolutions, key) && FactOk(s, key)
  {
    hide Chained, FactOk;
  }

  /** With no further resolution of a fact, its history stays as it is. */
  lemma HistorySame(a: seq<nat>, b: seq<nat>, s: State, t: State, key: Digest)
    requires a <= b && Chained(b, t.resolutions, key)
    requires forall id :: id in t.resolutions && t.resolutions[id].factKey == key ==> id in s.resolutions
    requires forall id :: id in s.resolutions && id in t.resolutions && t.resolutions[id].factKey == key ==> id in a
    ensures a == b
  {
    hide Chained;
    ChainedIn(b, t.resolutions, key);
    NextIsNew(a, b);
  }

  lemma NextIsNew(a: seq<nat>, b: seq<nat>)
    requires a <= b && forall i, j :: 0 <= i < j < |b| ==> b[i] != b[j]
    ensures |a| < |b| ==> b[|a|] in b && b[|a|] !in a
  {
    assert forall i :: 0 <= i < |a| ==> a[i] == b[i];
  }

  lemma InHistory(s: State, id: nat)
    requires ResolutionsOk(s) && id in s.resolutions
    ensures s.resolutions[id].factKey in s.history && s.resolutions[id].id in s.history[s.resolutions[id].factKey]
  {
    assert OwnedOk(s, s.resolutions[id]);
  }

  lemma InvParts(s: State)
    requires Inv(s)
    ensures FactsOk(s) && ResolutionsOk(s) && s.facts.Keys == s.history.Keys
  {
    hide IdsOk, RequestsOk, ResolutionsOk, CountsOk, MoneyOk, OutboxOk, Chained, FactOk;
  }

  // Main results

  /**
   Whatever cycles succeeded, failed or were cut short: every resolution up to the checkpoint
   has its exact row, and every fact behind one has a row that the chain held at a moment when
   all the fact's resolutions up to the checkpoint were there.
  */
  lemma Agreement(tb: Tables, h: seq<State>, t: nat, batch: nat, id: nat)
    requires Agrees(tb, h, t, batch) && 1 <= id <= tb.lastResolution
    requires ChainHistory(h)
    ensures RowExact(tb, h, t, id)
    ensures exists u :: 0 <= u <= t && FactHeld(tb, h, u, t, id)
  {
    hide ChainHistory, Agrees, HeldAt, SeenIn, FactSeen;
    RowFacts(tb, h, t, batch, id);
    Dense(h, t);
    var key := h[t].resolutions[id].factKey;
    var u := SeenAt(tb, h, t, key);
    HeldFromSeen(tb, h, u, t, key, batch);
    assert FactHeld(tb, h, u, t, id);
  }

  predicate RowExact(tb: Tables, h: seq<State>, t: nat, id: nat) {
    && t < |h| && id in h[t].resolutions && id in tb.resolutions
    && tb.resolutions[id].res == h[t].resolutions[id]
  }

  /** The fact behind a resolution is projected as it was at `u`. */
  predicate FactHeld(tb: Tables, h: seq<State>, u: nat, t: nat, id: nat) {
    u <= t < |h| && id in h[t].resolutions && HeldAt(tb, h[u], h[t], h[t].resolutions[id].factKey)
  }

  lemma RowFacts(tb: Tables, h: seq<State>, t: nat, batch: nat, id: nat)
    requires Agrees(tb, h, t, batch) && 1 <= id <= tb.lastResolution
    ensures t < |h| && id in h[t].resolutions && id in tb.resolutions && tb.resolutions[id].res == h[t].resolutions[id]
    ensures FactSeen(tb, h, t, h[t].resolutions[id].factKey)
  {
    hide FlagsOk, RequestsAgree, FactSeen;
  }

  /** The projected fact is the one `s` holds, and `s` has all its resolutions up to the checkpoint. */
  predicate HeldAt(tb: Tables, s: State, latest: State, key: Digest) {
    && key in tb.facts && key in s.facts && tb.facts[key] == s.facts[key]
    && forall k :: k in latest.resolutions && k <= tb.lastResolution && latest.resolutions[k].factKey == key
         ==> k in s.resolutions
  }

  lemma HeldFromSeen(tb: Tables, h: seq<State>, u: nat, t: nat, key: Digest, batch: nat)
    requires u <= t < |h| && SeenIn(tb, h[u], key, tb.lastResolution)
    requires forall id: nat :: id in h[t].resolutions <==> 1 <= id < h[t].nextResolution
    requires Agrees(tb, h, t, batch)
    ensures HeldAt(tb, h[u], h[t], key)
  {
    hide FlagsOk, RequestsAgree, FactsAgree;
    forall k | k in h[t].resolutions && k <= tb.lastResolution && h[t].resolutions[k].factKey == key
      ensures k in h[u].resolutions
    {
      assert OfFact(tb, k, key);
    }
  }

  lemma SeenAt(tb: Tables, h: seq<State>, t: nat, key: Digest) returns (u: nat)
    requires t < |h| && FactSeen(tb, h, t, key)
    ensures u <= t && SeenIn(tb, h[u], key, tb.lastResolution)
  {
    u :| 0 <= u <= t && SeenIn(tb, h[u], key, tb.lastResolution);
  }

  /** A fact of the chain with no resolution past the checkpoint. */
  predicate CaughtUp(tb: Tables, s: State, key: Digest) {
    && key in s.facts
    && forall id :: id in s.resolutions && s.resolutions[id].factKey == key ==> id <= tb.lastResolution
  }

  /** So a fact with no resolution past the checkpoint is projected exactly as the chain has it. */
  lemma CaughtUpFact(tb: Tables, h: seq<State>, t: nat, batch: nat, key: Digest)
    requires t < |h| && CaughtUp(tb, h[t], key)
    requires Agrees(tb, h, t, batch) && ChainHistory(h)
    ensures key in tb.facts && tb.facts[key] == h[t].facts[key]
  {
    hide ChainHistory, Agrees, Inv, Extends, FactsOk, ResolutionsOk;
    Pair(h, t, t);
    InvParts(h[t]);
    var first := FirstOf(h[t], key);
    Dense(h, t);
    var u := HeldBy(tb, h, t, batch, first);
    Pair(h, u, t);
    InvParts(h[u]);
    Dense(h, u);
    Unchanged(h[u], h[t], key);
  }

  lemma HeldBy(tb: Tables, h: seq<State>, t: nat, batch: nat, id: nat) returns (u: nat)
    requires Agrees(tb, h, t, batch) && 1 <= id <= tb.lastResolution
    requires ChainHistory(h)
    ensures RowExact(tb, h, t, id) && FactHeld(tb, h, u, t, id)
  {
    hide ChainHistory, Agrees, FactHeld;
    Agreement(tb, h, t, batch, id);
    u :| 0 <= u <= t && FactHeld(tb, h, u, t, id);
  }

  /** Nothing new for a fact means nothing changed in it. */
  lemma Unchanged(s: State, t: State, key: Digest)
    requires FactsOk(s) && FactsOk(t) && ResolutionsOk(s) && Extends(s, t) && key in s.facts && key in t.facts
    requires (forall id :: id in s.resolutions ==> s.resolutions[id].id == id)
    requires forall id :: id in t.resolutions && t.resolutions[id].factKey == key ==> id in s.resolutions
    ensures s.facts[key] == t.facts[key]
  {
    hide FactsOk, ResolutionsOk, Chained, FactOk, RequestsGrow;
    FactParts(s, key);
    FactParts(t, key);
    var a, b := s.history[key], t.history[key];
    forall id | id in s.resolutions && id in t.resolutions && t.resolutions[id].factKey == key ensures id in a {
      InHistory(s, id);
    }
    HistorySame(a, b, s, t, key);
    FactDetermined(s, t, key, a);
  }

  lemma Pair(h: seq<State>, u: nat, t: nat)
    requires ChainHistory(h) && u <= t < |h|
    ensures Inv(h[u]) && Extends(h[u], h[t])
  {
    hide Inv, Extends;
  }

  lemma FirstOf(s: State, key: Digest) returns (id: nat)
    requires FactsOk(s) && key in s.facts
    ensures id in s.resolutions && s.resolutions[id].factKey == key
  {
    hide FactOk;
    assert Chained(s.history[key], s.resolutions, key);
    id := s.history[key][0];
  }

  /** Exactly the head of a fact is flagged canonical, exactly its last resolution latest, and both have rows. */
  ghost predicate FlagsExact(tb: Tables, s: State, key: Digest) {
    && key in s.facts
    && OfFact(tb, s.facts[key].currentResolution, key) && OfFact(tb, s.facts[key].latestResolution, key)
    && forall id :: OfFact(tb, id, key) ==>
         tb.resolutions[id].canonical == (id == s.facts[key].currentResolution)
         && tb.resolutions[id].latest == (id == s.facts[key].latestResolution)
  }

  /** A fact has at most one canonical and one latest row. */
  ghost predicate FlaggedOnce(tb: Tables, key: Digest) {
    forall i, j :: OfFact(tb, i, key) && OfFact(tb, j, key) ==>
      (tb.resolutions[i].canonical && tb.resolutions[j].canonical ==> i == j)
      && (tb.resolutions[i].latest && tb.resolutions[j].latest ==> i == j)
  }

  /**
   Right after a cycle that succeeded, no fact has two rows with the same flag, and a caught-up
   fact carries exactly the chain's flags.
  */
  lemma FlaggedExactly(tb: Tables, h: seq<State>, t: nat, batch: nat, key: Digest)
    requires t < |h| && AllClean(tb, h, t) && Agrees(tb, h, t, batch) && ChainHistory(h)
    ensures FlaggedOnce(tb, key)
    ensures CaughtUp(tb, h[t], key) ==> FlagsExact(tb, h[t], key)
  {
    hide ChainHistory, Agrees, Inv, Extends, FactsOk, ResolutionsOk, Clean, CaughtUp, FlagsExact;
    if id :| OfFact(tb, id, key) {
      var u := CleanAt(tb, h, t, key);
    }
    if CaughtUp(tb, h[t], key) { CaughtUpFlags(tb, h, t, batch, key); }
  }

  lemma CaughtUpFlags(tb: Tables, h: seq<State>, t: nat, batch: nat, key: Digest)
    requires t < |h| && AllClean(tb, h, t) && CaughtUp(tb, h[t], key)
    requires Agrees(tb, h, t, batch) && ChainHistory(h)
    ensures FlagsExact(tb, h[t], key)
  {
    hide ChainHistory, Agrees, Inv, Extends, FactsOk, ResolutionsOk, Clean, FlagsFrom;
    Pair(h, t, t);
    InvParts(h[t]);
    Dense(h, t);
    HeadAndLast(h[t], key);
    var f := h[t].facts[key];
    HasRow(tb, h, t, batch, key, f.currentResolution);
    HasRow(tb, h, t, batch, key, f.latestResolution);
    var u := CleanAt(tb, h, t, key);
    Pair(h, u, t);
    InvParts(h[u]);
    Dense(h, u);
    AllThere(tb, h, u, t, batch, key);
    Unchanged(h[u], h[t], key);
    SameFlags(tb, h[u], h[t], key);
  }

  lemma HeadAndLast(s: State, key: Digest)
    requires FactsOk(s) && key in s.facts
    requires forall id :: id in s.resolutions ==> 1 <= id && s.resolutions[id].id == id
    ensures var f := s.facts[key];
            && f.currentResolution in s.resolutions && s.resolutions[f.currentResolution].factKey == key
            && f.latestResolution in s.resolutions && s.resolutions[f.latestResolution].factKey == key
            && f.latestResolution != 0
  {
    hide FactsOk, HeadIndex, Chained;
    FactParts(s, key);
    ChainedIn(s.history[key], s.resolutions, key);
  }

  lemma HasRow(tb: Tables, h: seq<State>, t: nat, batch: nat, key: Digest, id: nat)
    requires t < |h| && id in h[t].resolutions && h[t].resolutions[id].factKey == key && 1 <= id <= tb.lastResolution
    requires Agrees(tb, h, t, batch)
    ensures OfFact(tb, id, key)
  {
    hide FactsAgree, FlagsOk, RequestsAgree;
  }

  lemma CleanAt(tb: Tables, h: seq<State>, t: nat, key: Digest) returns (u: nat)
    requires AllClean(tb, h, t) && exists id :: OfFact(tb, id, key)
    ensures u <= t < |h| && FlagsFrom(tb, h[u], key)
  {
    hide FlagsFrom;
    var id :| OfFact(tb, id, key);
    assert Clean(tb, h, t, tb.resolutions[id].res.factKey);
    u :| 0 <= u <= t && FlagsFrom(tb, h[u], key);
  }

  /** The state the flags come from has every resolution of a caught-up fact. */
  lemma AllThere(tb: Tables, h: seq<State>, u: nat, t: nat, batch: nat, key: Digest)
    requires u <= t < |h| && FlagsFrom(tb, h[u], key) && CaughtUp(tb, h[t], key)
    requires forall id :: id in h[t].resolutions ==> 1 <= id
    requires Agrees(tb, h, t, batch)
    ensures key in h[u].facts
    ensures forall id :: id in h[t].resolutions && h[t].resolutions[id].factKey == key ==> id in h[u].resolutions
  {
    hide Agrees;
    forall id | id in h[t].resolutions && h[t].resolutions[id].factKey == key ensures id in h[u].resolutions {
      HasRow(tb, h, t, batch, key, id);
    }
  }

  lemma SameFlags(tb: Tables, s: State, t: State, key: Digest)
    requires FlagsFrom(tb, s, key) && key in t.facts && s.facts[key] == t.facts[key]
    requires OfFact(tb, t.facts[key].currentResolution, key) && OfFact(tb, t.facts[key].latestResolution, key)
    requires t.facts[key].latestResolution != 0
    ensures FlagsExact(tb, t, key)
  {
  }

  /** A request up to the checkpoint has a row; a settled row can only lag in its callback mark. */
  lemma RequestRow(tb: Tables, h: seq<State>, t: nat, batch: nat, id: nat)
    requires Agrees(tb, h, t, batch) && 1 <= id <= tb.lastRequest
    requires ChainHistory(h)
    ensures RequestCurrent(tb, h, t, id)
  {
    hide ChainHistory, RowsExact, FactsAgree, FlagsOk, RequestGrows;
    Dense(h, t);
    assert id in tb.requests;
    var u :| 0 <= u <= t && RequestIn(tb, h[u], id);
    Pair(h, u, t);
    assert RequestGrows(h[u].requests[id], h[t].requests[id]);
  }

  predicate RequestCurrent(tb: Tables, h: seq<State>, t: nat, id: nat) {
    && t < |h| && id in tb.requests && id in h[t].requests
    && RequestGrows(tb.requests[id], h[t].requests[id])
  }

  // Catching up

  /** The checkpoint after some successful cycles on a chain that stands still. */
  function CheckpointAfter(cycles: nat, previous: nat, count: nat, batch: nat): nat {
    if cycles == 0 then previous else CheckpointAfter(cycles - 1, Reach(previous, count, batch), count, batch)
  }

  /** It reaches the counter exactly when the cycles together have room for the backlog. */
  lemma {:induction false} CatchesUp(cycles: nat, previous: nat, count: nat, batch: nat)
    requires previous <= count
    ensures CheckpointAfter(cycles, previous, count, batch)
            == if count <= previous + cycles * batch then count else previous + cycles * batch
    ensures CheckpointAfter(cycles, previous, count, batch) == count <==> count - previous <= cycles * batch
  {
    if cycles > 0 {
      CatchesUp(cycles - 1, Reach(previous, count, batch), count, batch);
      assert cycles * batch == (cycles - 1) * batch + batch;
    }
  }

  /** As many cycles as the backlog has batches, rounded up, are enough, and no fewer are. */
  lemma BacklogCycles(previous: nat, count: nat, batch: nat, cycles: nat)
    requires previous <= count && batch >= 1
    ensures CheckpointAfter(cycles, previous, count, batch) == count
            <==> cycles >= (count - previous + batch - 1) / batch
  {
    CatchesUp(cycles, previous, count, batch);
    CeilingBound(count - previous, batch, cycles);
  }

  lemma CeilingBound(n: nat, d: nat, k: nat)
    requires d >= 1
    ensures n <= k * d <==> k >= (n + d - 1) / d
  {
    var q := (n + d - 1) / d;
    assert q * d <= n + d - 1 < q * d + d;
    if k >= q { Times(q, k, d); } else { Times(k + 1, q, d); }
  }

  lemma Times(a: nat, b: nat, d: nat)
    requires a <= b
    ensures a * d <= b * d
    ensures (a + 1) * d == a * d + d
  {
  }
}
