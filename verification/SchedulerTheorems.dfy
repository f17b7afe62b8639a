/** What the scheduler keeps, however the runtime interleaves its events. */
module SchedulerTheorems {
  import opened Text
  import opened Sums
  import opened Scheduler

  // Jobs

  predicate InProgress(s: Snapshot, id: nat) { id in s.running && !s.running[id].Leaving? }

  /** A job is queued, in progress or settled: exactly one of them, and settled once. */
  predicate JobOk(s: Snapshot, id: nat)
    requires Known(s) && id < |s.metas|
  {
    && (id in s.queue ==> id !in s.running && s.attempts[id] == 0)
    && |s.results[id]| == (if id in s.queue || InProgress(s, id) then 0 else 1)
  }

  predicate QueueDistinct(s: Snapshot) {
    forall i, j :: 0 <= i < j < |s.queue| ==> s.queue[i] != s.queue[j]
  }

  predicate JobsOk(s: Snapshot) {
    && Known(s) && JobsKnown(s) && QueueDistinct(s)
    && forall id :: 0 <= id < |s.metas| ==> JobOk(s, id)
  }

  // Attempts

  predicate AttemptOk(o: Options, s: Snapshot, id: nat)
    requires Known(s) && id < |s.metas|
  {
    && s.attempts[id] <= o.maxRetries + 1
    && (id in s.running && !s.running[id].Leaving? ==> s.attempts[id] == s.running[id].attempt + 1)
    && (id in s.running && s.running[id].Backoff? ==> s.running[id].attempt < o.maxRetries)
  }

  predicate AttemptsOk(o: Options, s: Snapshot) {
    Known(s) && forall id :: 0 <= id < |s.metas| ==> AttemptOk(o, s, id)
  }

  // Slots and timers

  predicate SlotsOk(o: Options, s: Snapshot) {
    && s.active == |s.running| <= o.concurrency
    && (s.pumpDue.Some? ==> s.active < o.concurrency && s.pumpDue.value >= s.lastStarted + o.minInterval)
    && s.lastStarted <= s.now
  }

  /** Jobs that wait are not forgotten: a timer is set, or a running job will set one. */
  predicate NotStuck(s: Snapshot) { s.queue != [] ==> s.pumpDue.Some? || s.active > 0 }

  predicate StartsOk(o: Options, s: Snapshot) {
    && (forall i :: 0 <= i < |s.starts| ==> s.starts[i].time <= s.lastStarted && s.starts[i].hitsBefore <= |s.hits|)
    && (forall i, j :: 0 <= i < j < |s.starts| ==> s.starts[j].time >= s.starts[i].time + o.minInterval)
    && (forall i, k :: 0 <= i < |s.starts| && 0 <= k < s.starts[i].hitsBefore ==>
          s.starts[i].time >= s.hits[k] + o.quotaCooldown)
  }

  /** A quota error is forgotten only once its cooldown has passed. */
  predicate QuotaOk(o: Options, s: Snapshot) {
    forall k :: 0 <= k < |s.hits| ==>
      s.hits[k] <= s.now
      && (s.hits[k] + o.quotaCooldown <= s.now
          || (s.cooldown.Some? && s.hits[k] + o.quotaCooldown <= s.cooldown.value))
  }

  /** A restored cooldown holds until it ends, or until a quota error sets another. */
  predicate RestoreOk(s: Snapshot, r: Restored) {
    && r.startsBefore <= |s.starts| && r.hitsBefore <= |s.hits|
    && (forall i :: r.startsBefore <= i < |s.starts| ==>
          s.starts[i].time >= r.until || s.starts[i].hitsBefore > r.hitsBefore)
    && (|s.hits| > r.hitsBefore || s.now >= r.until || (s.cooldown.Some? && s.cooldown.value >= r.until))
  }

  predicate RestoresOk(s: Snapshot) {
    forall k :: 0 <= k < |s.restores| ==> RestoreOk(s, s.restores[k])
  }

  // Metrics

  function Column(buckets: map<string, Bucket>, f: Field): map<string, nat> {
    map k | k in buckets :: Get(buckets[k], f)
  }

  ghost predicate BalanceOf(m: Metrics, f: Field) {
    Get(m.totals, f) == MapSum(Column(m.bySubsystem, f)) == MapSum(Column(m.byMethod, f))
  }

  ghost predicate Balanced(m: Metrics) { forall f :: BalanceOf(m, f) }

  function SumOf(xs: seq<nat>): nat { if |xs| == 0 then 0 else xs[0] + SumOf(xs[1..]) }

  predicate AttemptsCounted(s: Snapshot) { s.metrics.totals.total == SumOf(s.attempts) }

  ghost predicate Inv(o: Options, s: Snapshot) {
    && JobsOk(s) && AttemptsOk(o, s) && SlotsOk(o, s) && NotStuck(s) && StartsOk(o, s) && QuotaOk(o, s)
    && RestoresOk(s) && Balanced(s.metrics) && AttemptsCounted(s)
  }

  // Metrics are kept by every record

  lemma BumpGets(b: Bucket, f: Field, g: Field)
    ensures Get(Bump(b, f), g) == Get(b, g) + if f == g then 1 else 0
  {
  }

  lemma ColumnBump(buckets: map<string, Bucket>, key: string, f: Field, g: Field)
    ensures MapSum(Column(BumpIn(buckets, key, f), g)) == MapSum(Column(buckets, g)) + if f == g then 1 else 0
  {
    hide Get, Bump;
    var b := if key in buckets then buckets[key] else EMPTY;
    BumpGets(b, f, g);
    EmptyGets(g);
    assert Column(BumpIn(buckets, key, f), g) == Column(buckets, g)[key := Get(Bump(b, f), g)];
    MapSumUpdate(Column(buckets, g), key, Get(Bump(b, f), g));
  }

  lemma EmptyGets(f: Field)
    ensures Get(EMPTY, f) == 0
  {
  }

  /** Every total is the sum over subsystems and the sum over methods. */
  lemma RecordBalanced(m: Metrics, meta: Meta, f: Field)
    requires Balanced(m)
    ensures Balanced(Record(m, meta, f))
    ensures Record(m, meta, f).totals.total == m.totals.total + if f == Total then 1 else 0
  {
    hide BumpIn, Column;
    forall g ensures BalanceOf(Record(m, meta, f), g) {
      assert BalanceOf(m, g);
      BumpGets(m.totals, f, g);
      ColumnBump(m.bySubsystem, SubsystemOf(meta), f, g);
      ColumnBump(m.byMethod, MethodOf(meta), f, g);
    }
  }

  lemma {:induction false} SumUpdate(xs: seq<nat>, i: nat, v: nat)
    requires i < |xs|
    ensures SumOf(xs[i := v]) == SumOf(xs) - xs[i] + v
  {
    if i == 0 {
      assert xs[0 := v][1..] == xs[1..];
    } else {
      assert xs[i := v][1..] == xs[1..][i - 1 := v];
      SumUpdate(xs[1..], i - 1, v);
    }
  }

  lemma {:induction false} SumSnocZero(xs: seq<nat>)
    ensures SumOf(xs + [0]) == SumOf(xs)
  {
    if |xs| > 0 {
      assert (xs + [0])[1..] == xs[1..] + [0];
      SumSnocZero(xs[1..]);
    }
  }

  // Building blocks

  /** Everything but the metrics and the results of a change is the same. */
  predicate SameMoves(s: Snapshot, t: Snapshot) {
    t == s.(metrics := t.metrics, results := t.results)
  }

  /** A job that leaves the queue without starting. */
  lemma RejectKeeps(o: Options, s: Snapshot, id: nat)
    requires Known(s) && id < |s.metas| && Balanced(s.metrics) && AttemptsCounted(s)
    ensures var t := Reject(s, id);
            && Balanced(t.metrics) && AttemptsCounted(t) && Known(t) && SameMoves(s, t)
            && t.results == s.results[id := s.results[id] + [Rejected]]
  {
    hide Record;
    RecordBalanced(s.metrics, s.metas[id], Suppressed);
  }

  lemma {:induction false} RejectAllKeeps(o: Options, s: Snapshot, ids: seq<nat>)
    requires Known(s) && Balanced(s.metrics) && AttemptsCounted(s)
    requires forall i :: 0 <= i < |ids| ==> ids[i] < |s.metas|
    requires forall i, j :: 0 <= i < j < |ids| ==> ids[i] != ids[j]
    ensures var t := RejectAll(s, ids);
            && Balanced(t.metrics) && AttemptsCounted(t) && Known(t) && SameMoves(s, t)
            && forall id :: 0 <= id < |s.metas| ==>
                 t.results[id] == s.results[id] + if id in ids then [Rejected] else []
    decreases |ids|
  {
    hide Reject;
    if |ids| > 0 {
      RejectKeeps(o, s, ids[0]);
      RejectAllKeeps(o, Reject(s, ids[0]), ids[1..]);
      assert ids == [ids[0]] + ids[1..];
    }
  }

  /** Setting the pump timer touches only itself. */
  lemma PumpKeeps(o: Options, s: Snapshot)
    requires o.concurrency >= 1 && SlotsOk(o, s)
    ensures var t := Pump(o, s);
            && SlotsOk(o, t) && NotStuck(t) && t == s.(pumpDue := t.pumpDue)
  {
  }

  lemma PumpFrame(o: Options, s: Snapshot, t: Snapshot)
    requires t == s.(pumpDue := t.pumpDue)
    ensures JobsOk(s) ==> JobsOk(t)
    ensures AttemptsOk(o, s) ==> AttemptsOk(o, t)
    ensures StartsOk(o, s) ==> StartsOk(o, t)
    ensures QuotaOk(o, s) ==> QuotaOk(o, t)
    ensures AttemptsCounted(s) ==> AttemptsCounted(t)
  {
    hide SumOf;
    assert forall id :: 0 <= id < |s.metas| && Known(s) && JobOk(s, id) ==> JobOk(t, id);
    assert forall id :: 0 <= id < |s.metas| && Known(s) && AttemptOk(o, s, id) ==> AttemptOk(o, t, id);
  }

  lemma TimeKeeps(o: Options, s: Snapshot, t: nat)
    requires Inv(o, s)
    ensures Inv(o, s.(now := Max(s.now, t)))
  {
    hide Balanced, SumOf, JobOk, AttemptOk;
    var n := s.(now := Max(s.now, t));
    forall id | 0 <= id < |s.metas| ensures JobOk(n, id) && AttemptOk(o, n, id) { SameJob(o, s, n, id); }
  }

  /** What is said of one job only looks at the job. */
  lemma SameJob(o: Options, s: Snapshot, t: Snapshot, id: nat)
    requires Known(s) && Known(t) && id < |s.metas| && id < |t.metas|
    requires id in t.queue <==> id in s.queue
    requires id in t.running <==> id in s.running
    requires id in s.running ==> t.running[id] == s.running[id]
    requires t.attempts[id] == s.attempts[id] && t.results[id] == s.results[id]
    ensures JobOk(s, id) ==> JobOk(t, id)
    ensures AttemptOk(o, s, id) ==> AttemptOk(o, t, id)
  {
  }

  lemma ExpireKeeps(o: Options, s: Snapshot)
    requires Inv(o, s)
    ensures Inv(o, Expire(s))
    ensures Expire(s).cooldown.None? ==> forall k :: 0 <= k < |s.hits| ==> s.hits[k] + o.quotaCooldown <= s.now
  {
    hide Balanced, SumOf, JobOk, AttemptOk;
    var n := Expire(s);
    forall id | 0 <= id < |s.metas| ensures JobOk(n, id) && AttemptOk(o, n, id) { SameJob(o, s, n, id); }
  }

  // Each event

  lemma ScheduleKeeps(o: Options, s: Snapshot, meta: Meta)
    requires OptionsOk(o) && Inv(o, s)
    ensures Inv(o, DoSchedule(o, s, meta))
  {
    hide Inv, Reject, Pump, Enroll, Expire;
    ExpireKeeps(o, s);
    InvJobs(o, Expire(s));
    if Expire(s).cooldown.Some? {
      RefusedKeeps(o, Expire(s), meta);
    } else {
      QueuedKeeps(o, Expire(s), meta);
    }
  }

  /** A job that is turned away at once. */
  lemma RefusedKeeps(o: Options, s: Snapshot, meta: Meta)
    requires Known(s) && Inv(o, s)
    ensures Inv(o, Reject(Enroll(s, meta), |s.metas|))
  {
    hide Balanced, SumOf, JobOk, AttemptOk, Reject, StartsOk, RestoreOk, QuotaOk;
    var e, id := Enroll(s, meta), |s.metas|;
    SumSnocZero(s.attempts);
    RejectKeeps(o, e, id);
    var t := Reject(e, id);
    forall k | 0 <= k < |t.metas| ensures JobOk(t, k) && AttemptOk(o, t, k) {
      if k < id { SameJob(o, s, t, k); } else { NewJob(o, t, k); }
    }
    SameStarts(o, s, t);
  }

  /** A job that joins the queue. */
  lemma QueuedKeeps(o: Options, s: Snapshot, meta: Meta)
    requires Known(s) && OptionsOk(o) && Inv(o, s)
    ensures var e := Enroll(s, meta); Inv(o, Pump(o, e.(queue := e.queue + [|s.metas|])))
  {
    hide Balanced, SumOf, JobOk, AttemptOk, Pump, StartsOk, RestoreOk, QuotaOk;
    var e, id := Enroll(s, meta), |s.metas|;
    SumSnocZero(s.attempts);
    var q := e.(queue := e.queue + [id]);
    PumpKeeps(o, q);
    forall k | 0 <= k < |q.metas| ensures JobOk(q, k) && AttemptOk(o, q, k) {
      if k < id { SameJob(o, s, q, k); } else { NewJob(o, q, k); }
    }
    SameStarts(o, s, q);
    PumpFrame(o, q, Pump(o, q));
    SameStarts(o, q, Pump(o, q));
  }

  /** What is said of starts and cooldowns does not look at the jobs. */
  lemma SameStarts(o: Options, s: Snapshot, t: Snapshot)
    requires t.starts == s.starts && t.lastStarted == s.lastStarted && t.hits == s.hits && t.now == s.now
    requires t.cooldown == s.cooldown && t.restores == s.restores
    ensures StartsOk(o, s) ==> StartsOk(o, t)
    ensures QuotaOk(o, s) ==> QuotaOk(o, t)
    ensures RestoresOk(s) ==> RestoresOk(t)
  {
    assert forall r :: RestoreOk(s, r) ==> RestoreOk(t, r);
  }

  lemma NewJob(o: Options, s: Snapshot, id: nat)
    requires Known(s) && id < |s.metas| && id !in s.running && s.attempts[id] == 0
    requires |s.results[id]| == if id in s.queue then 0 else 1
    ensures JobOk(s, id) && AttemptOk(o, s, id)
  {
  }

  lemma PumpTimerKeeps(o: Options, s: Snapshot)
    requires OptionsOk(o) && Inv(o, s) && s.pumpDue.Some? && s.pumpDue.value <= s.now
    ensures Inv(o, DoPumpTimer(o, s))
  {
    hide Balanced, SumOf, JobOk, AttemptOk, Expire, Reject, Pump, StartJob;
    if |s.queue| == 0 {
      PumpFrame(o, s, s.(pumpDue := None));
    } else {
      ExpireKeeps(o, s);
      var id := s.queue[0];
      var q := Expire(s).(pumpDue := None, queue := s.queue[1..]);
      assert q == Expire(s.(pumpDue := None).(queue := s.queue[1..])) by { ExpireCommutes(s); }
      assert s.queue == [id] + s.queue[1..];
      if q.cooldown.Some? {
        TurnedAway(o, s, q, id);
      } else {
        Started(o, s, q, id);
      }
    }
  }

  lemma ExpireCommutes(s: Snapshot)
    requires |s.queue| > 0
    ensures Expire(s).(pumpDue := None, queue := s.queue[1..]) == Expire(s.(pumpDue := None).(queue := s.queue[1..]))
  {
  }

  /** The head of the queue is turned away by the cooldown. */
  lemma TurnedAway(o: Options, s: Snapshot, q: Snapshot, id: nat)
    requires id < |s.metas| && OptionsOk(o) && Inv(o, s) && s.queue == [id] + q.queue && s.pumpDue.Some?
    requires q == s.(pumpDue := None, queue := q.queue, cooldown := q.cooldown) && QuotaOk(o, q) && RestoresOk(q)
    ensures Inv(o, Pump(o, Reject(q, id)))
  {
    hide Balanced, SumOf, JobsOk, AttemptsOk, Reject, Pump, StartsOk, RestoresOk, QuotaOk;
    InvJobs(o, s);
    RejectKeeps(o, q, id);
    var t := Reject(q, id);
    TurnedAwayJobs(o, s, t, id);
    StartsLater(o, s, t);
    SameStarts(o, q, t);
    PumpKeeps(o, t);
    PumpFrame(o, t, Pump(o, t));
    SameStarts(o, t, Pump(o, t));
  }

  lemma TurnedAwayJobs(o: Options, s: Snapshot, t: Snapshot, id: nat)
    requires JobsOk(s) && AttemptsOk(o, s) && s.queue == [id] + t.queue && id < |s.metas|
    requires t.metas == s.metas && t.running == s.running && t.attempts == s.attempts
    requires t.results == s.results[id := s.results[id] + [Rejected]]
    ensures JobsOk(t) && AttemptsOk(o, t)
  {
    hide JobOk, AttemptOk;
    assert s.queue[0] == id && forall i :: 0 <= i < |t.queue| ==> t.queue[i] == s.queue[i + 1];
    HeadUnstarted(o, s, id);
    forall k | 0 <= k < |t.metas| ensures JobOk(t, k) && AttemptOk(o, t, k) {
      if k == id { NewJob(o, t, k); } else { SameJob(o, s, t, k); }
    }
  }

  lemma HeadUnstarted(o: Options, s: Snapshot, id: nat)
    requires JobsOk(s) && id in s.queue
    ensures id < |s.metas| && id !in s.running && s.attempts[id] == 0 && s.results[id] == []
  {
    assert JobOk(s, id);
  }

  /** The head of the queue starts: after the interval, and after every earlier cooldown. */
  lemma Started(o: Options, s: Snapshot, q: Snapshot, id: nat)
    requires id < |s.metas| && OptionsOk(o) && Inv(o, s) && s.queue == [id] + q.queue
    requires s.pumpDue.Some? && s.pumpDue.value <= s.now
    requires q == s.(pumpDue := None, queue := q.queue, cooldown := None) && QuotaOk(o, q) && RestoresOk(q)
    requires forall k :: 0 <= k < |s.hits| ==> s.hits[k] + o.quotaCooldown <= s.now
    ensures Inv(o, StartJob(q, id))
  {
    hide Balanced, SumOf, JobOk, AttemptOk, StartJob, Record;
    assert s.queue[0] == id && forall i :: 0 <= i < |q.queue| ==> q.queue[i] == s.queue[i + 1];
    HeadUnstarted(o, s, id);
    var t := StartJob(q, id);
    StartJobIs(q, id);
    TotalNoted(q.metrics, q.metas[id], q.attempts, id);
    assert |t.running| == |s.running| + 1;
    forall k | 0 <= k < |t.metas| ensures JobOk(t, k) && AttemptOk(o, t, k) {
      if k == id { RunningJob(o, t, k); } else { SameJob(o, s, t, k); }
    }
  }

  lemma StartJobIs(q: Snapshot, id: nat)
    requires Known(q) && id < |q.metas|
    ensures StartJob(q, id)
            == q.(active := q.active + 1, lastStarted := q.now, starts := q.starts + [Start(q.now, |q.hits|)],
                  metrics := Record(q.metrics, q.metas[id], Total), running := q.running[id := Attempting(0)],
                  attempts := q.attempts[id := q.attempts[id] + 1])
  {
    hide Record;
  }

  lemma NotedIs(s: Snapshot, meta: Meta, f: Field)
    ensures Noted(s, meta, f).metrics == Record(s.metrics, meta, f)
  {
  }

  lemma TotalNoted(m: Metrics, meta: Meta, attempts: seq<nat>, id: nat)
    requires Balanced(m) && id < |attempts| && m.totals.total == SumOf(attempts)
    ensures Balanced(Record(m, meta, Total))
    ensures Record(m, meta, Total).totals.total == SumOf(attempts[id := attempts[id] + 1])
  {
    RecordBalanced(m, meta, Total);
    SumUpdate(attempts, id, attempts[id] + 1);
  }

  /** A job in progress with the attempts its phase says. */
  lemma RunningJob(o: Options, s: Snapshot, id: nat)
    requires Known(s) && id < |s.metas| && id in s.running && !s.running[id].Leaving? && id !in s.queue
    requires s.results[id] == [] && s.attempts[id] == s.running[id].attempt + 1 <= o.maxRetries + 1
    requires s.running[id].Backoff? ==> s.running[id].attempt < o.maxRetries
    ensures JobOk(s, id) && AttemptOk(o, s, id)
  {
  }

  lemma InProgressFacts(o: Options, s: Snapshot, id: nat)
    requires JobsOk(s) && AttemptsOk(o, s) && id in s.running && !s.running[id].Leaving?
    ensures id < |s.metas| && id !in s.queue && s.results[id] == []
    ensures s.attempts[id] == s.running[id].attempt + 1 <= o.maxRetries + 1
    ensures s.running[id].Backoff? ==> s.running[id].attempt < o.maxRetries
  {
    assert JobOk(s, id) && AttemptOk(o, s, id);
  }

  lemma LeavingJob(o: Options, s: Snapshot, id: nat)
    requires Known(s) && id < |s.metas| && id in s.running && s.running[id].Leaving? && id !in s.queue
    requires |s.results[id]| == 1 && s.attempts[id] <= o.maxRetries + 1
    ensures JobOk(s, id) && AttemptOk(o, s, id)
  {
  }

  /** A running job settles: it keeps its slot until it has left. */
  lemma SettleKeeps(o: Options, s: Snapshot, t: Snapshot, id: nat, r: Result)
    requires Inv(o, s) && id in s.running && s.running[id].Attempting?
    requires Balanced(t.metrics) && t.metrics.totals.total == s.metrics.totals.total
    requires t == s.(metrics := t.metrics, results := s.results[id := s.results[id] + [r]],
                     running := s.running[id := Leaving])
    ensures Inv(o, t)
  {
    hide Balanced, SumOf, JobOk, AttemptOk;
    InProgressFacts(o, s, id);
    assert t.running.Keys == s.running.Keys;
    SameSize(s.running, id, Leaving);
    forall k | 0 <= k < |t.metas| ensures JobOk(t, k) && AttemptOk(o, t, k) {
      if k == id { LeavingJob(o, t, k); } else { SameJob(o, s, t, k); }
    }
  }

  lemma SameSize(m: map<nat, Phase>, id: nat, p: Phase)
    requires id in m
    ensures |m[id := p]| == |m|
  {
    assert m[id := p].Keys == m.Keys;
    assert |m[id := p].Keys| == |m[id := p]| && |m.Keys| == |m|;
  }

  lemma SuccessKeeps(o: Options, s: Snapshot, id: nat)
    requires Inv(o, s) && id in s.running && s.running[id].Attempting?
    ensures Inv(o, DoSuccess(s, id))
  {
    hide Record;
    InvKnown(o, s, id);
    RecordBalanced(s.metrics, s.metas[id], Success);
    SettleKeeps(o, s, DoSuccess(s, id), id, Resolved);
  }

  lemma InvKnown(o: Options, s: Snapshot, id: nat)
    requires JobsOk(s) && id in s.running
    ensures id < |s.metas|
  {
    hide JobOk;
  }

  lemma ErrorsBalanced(m: Metrics, meta: Meta, f: Failure)
    requires Balanced(m)
    ensures Balanced(ErrorsNoted(m, meta, f)) && ErrorsNoted(m, meta, f).totals.total == m.totals.total
  {
    hide Record;
    RecordBalanced(m, meta, RateLimited);
    var n := RecordIf(m, meta, RateLimited, f.rateLimited);
    RecordBalanced(n, meta, ServerErrors);
  }

  lemma FailureKeeps(o: Options, s: Snapshot, id: nat, f: Failure)
    requires OptionsOk(o) && Inv(o, s) && id in s.running && s.running[id].Attempting?
    ensures Inv(o, DoFailure(o, s, id, s.running[id].attempt, f))
  {
    hide Record, Balanced, ErrorsNoted, RetryDelay, QuotaHit, JobOk, AttemptOk, SumOf, StartsOk;
    InvKnown(o, s, id);
    var meta, n := s.metas[id], s.running[id].attempt;
    ErrorsBalanced(s.metrics, meta, f);
    var c := s.(metrics := ErrorsNoted(s.metrics, meta, f));
    MetricsFrame(o, s, c);
    if f.hardQuota {
      QuotaKeeps(o, c, id);
    } else if !f.retryable || n >= o.maxRetries {
      SettleKeeps(o, s, DoFailure(o, s, id, n, f), id, Rejected);
    } else {
      RecordBalanced(c.metrics, meta, Retries);
      BackoffKeeps(o, c, DoFailure(o, s, id, n, f), id, n, s.now + RetryDelay(o, n, f));
    }
  }

  lemma MetricsFrame(o: Options, s: Snapshot, t: Snapshot)
    requires Inv(o, s) && t == s.(metrics := t.metrics) && Balanced(t.metrics)
    requires t.metrics.totals.total == s.metrics.totals.total
    ensures Inv(o, t)
  {
    hide Balanced, SumOf, JobOk, AttemptOk;
    forall k | 0 <= k < |t.metas| ensures JobOk(t, k) && AttemptOk(o, t, k) { SameJob(o, s, t, k); }
  }

  lemma BackoffKeeps(o: Options, s: Snapshot, t: Snapshot, id: nat, n: nat, due: nat)
    requires Inv(o, s) && id in s.running && s.running[id] == Attempting(n) && n < o.maxRetries
    requires Balanced(t.metrics) && t.metrics.totals.total == s.metrics.totals.total
    requires t == s.(metrics := t.metrics, running := s.running[id := Backoff(n, due)])
    ensures Inv(o, t)
  {
    hide Balanced, SumOf, JobOk, AttemptOk;
    InProgressFacts(o, s, id);
    SameSize(s.running, id, Backoff(n, due));
    forall k | 0 <= k < |t.metas| ensures JobOk(t, k) && AttemptOk(o, t, k) {
      if k == id { RunningJob(o, t, k); } else { SameJob(o, s, t, k); }
    }
  }

  /** A quota error rejects the job and everything waiting, each exactly once. */
  lemma QuotaKeeps(o: Options, s: Snapshot, id: nat)
    requires OptionsOk(o) && Inv(o, s) && id in s.running && s.running[id].Attempting?
    ensures Inv(o, QuotaHit(o, s, id))
  {
    hide Record, Balanced, SumOf, JobOk, AttemptOk, RejectAll, StartsOk;
    InProgressFacts(o, s, id);
    RecordBalanced(s.metrics, s.metas[id], HardQuota);
    var h := s.(cooldown := Some(s.now + o.quotaCooldown), hits := s.hits + [s.now]);
    var m := Settle(Noted(h, s.metas[id], HardQuota), id, Rejected).(queue := []);
    RejectAllKeeps(o, m, s.queue);
    var t := QuotaHit(o, s, id);
    SameSize(s.running, id, Leaving);
    forall k | 0 <= k < |t.metas| ensures JobOk(t, k) && AttemptOk(o, t, k) {
      if k == id { LeavingJob(o, t, k); }
      else if k in s.queue { HeadUnstarted(o, s, k); NewJob(o, t, k); }
      else { SameJob(o, s, t, k); }
    }
    StartsLater(o, s, t);
  }

  lemma StartsLater(o: Options, s: Snapshot, t: Snapshot)
    requires StartsOk(o, s) && t.starts == s.starts && t.lastStarted == s.lastStarted && s.hits <= t.hits
    ensures StartsOk(o, t)
  {
  }

  lemma RetryKeeps(o: Options, s: Snapshot, id: nat)
    requires Inv(o, s) && id in s.running && s.running[id].Backoff?
    ensures Inv(o, BeginAttempt(s, id, s.running[id].attempt + 1))
  {
    hide Balanced, SumOf, JobOk, AttemptOk, Noted;
    InProgressFacts(o, s, id);
    var n := s.running[id].attempt + 1;
    var t := BeginAttempt(s, id, n);
    TotalNoted(s.metrics, s.metas[id], s.attempts, id);
    NotedIs(s, s.metas[id], Total);
    SameSize(s.running, id, Attempting(n));
    forall k | 0 <= k < |t.metas| ensures JobOk(t, k) && AttemptOk(o, t, k) {
      if k == id { RunningJob(o, t, k); } else { SameJob(o, s, t, k); }
    }
  }

  lemma FinishKeeps(o: Options, s: Snapshot, id: nat)
    requires OptionsOk(o) && Inv(o, s) && id in s.running && s.running[id].Leaving?
    ensures s.active > 0 && Inv(o, DoFinish(o, s, id))
  {
    hide Balanced, SumOf, JobsOk, AttemptsOk, Pump, StartsOk, RestoresOk, QuotaOk;
    Shrinks(s.running, id);
    var t := s.(running := s.running - {id}, active := s.active - 1);
    FinishJobs(o, s, t, id);
    SameStarts(o, s, t);
    PumpKeeps(o, t);
    PumpFrame(o, t, Pump(o, t));
    SameStarts(o, t, Pump(o, t));
  }

  /** A slot that is freed leaves every job where it is. */
  lemma FinishJobs(o: Options, s: Snapshot, t: Snapshot, id: nat)
    requires JobsOk(s) && AttemptsOk(o, s) && id in s.running && s.running[id].Leaving?
    requires t == s.(running := s.running - {id}, active := t.active)
    ensures JobsOk(t) && AttemptsOk(o, t)
  {
    hide JobOk, AttemptOk;
    forall k | 0 <= k < |t.metas| ensures JobOk(t, k) && AttemptOk(o, t, k) {
      if k == id { LeftJob(o, s, t, k); } else { SameJob(o, s, t, k); }
    }
  }

  lemma Shrinks(m: map<nat, Phase>, id: nat)
    requires id in m
    ensures |m| == |m - {id}| + 1
  {
    assert (m - {id})[id := m[id]] == m;
  }

  lemma LeftJob(o: Options, s: Snapshot, t: Snapshot, id: nat)
    requires JobsOk(s) && AttemptsOk(o, s) && id in s.running && s.running[id].Leaving? && id < |s.metas|
    requires Known(t) && t.results == s.results && t.attempts == s.attempts && t.queue == s.queue && id !in t.running
    requires t.metas == s.metas
    ensures JobOk(t, id) && AttemptOk(o, t, id)
  {
    assert JobOk(s, id) && AttemptOk(o, s, id);
  }

  lemma RestoreKeeps(o: Options, s: Snapshot, until: nat)
    requires Inv(o, s)
    ensures Inv(o, DoRestore(s, until))
  {
    hide Balanced, SumOf, JobOk, AttemptOk;
    var t := DoRestore(s, until);
    forall k | 0 <= k < |t.metas| ensures JobOk(t, k) && AttemptOk(o, t, k) { SameJob(o, s, t, k); }
  }

  lemma StepKeeps(o: Options, s: Snapshot, t: nat, e: Event)
    requires OptionsOk(o) && Inv(o, s)
    ensures Inv(o, Step(o, s, t, e))
  {
    hide Inv, DoSchedule, DoPumpTimer, DoSuccess, DoFailure, BeginAttempt, DoFinish, DoRestore, Expire, OptionsOk;
    TimeKeeps(o, s, t);
    var c := s.(now := Max(s.now, t));
    InvJobs(o, c);
    InvJobs(o, s);
    match e
    case Schedule(meta) => ScheduleKeeps(o, c, meta);
    case PumpTimer => if c.pumpDue.Some? && c.pumpDue.value <= c.now { PumpTimerKeeps(o, c); }
    case AttemptSucceeded(id) => if id in c.running && c.running[id].Attempting? { SuccessKeeps(o, c, id); }
    case AttemptFailed(id, f) => if id in c.running && c.running[id].Attempting? { FailureKeeps(o, c, id, f); }
    case RetryTimer(id) =>
      if id in c.running && c.running[id].Backoff? && c.running[id].due <= c.now { RetryKeeps(o, c, id); }
    case Finished(id) => if id in c.running && c.running[id].Leaving? && c.active > 0 { FinishKeeps(o, c, id); }
    case RestoreCooldown(until) => RestoreKeeps(o, c, until);
    case AskCooldown => ExpireKeeps(o, c);
  }

  lemma InvJobs(o: Options, s: Snapshot)
    requires Inv(o, s)
    ensures Known(s) && JobsKnown(s)
  {
    hide Balanced, JobOk, AttemptOk;
  }

  // Runs

  datatype Timed = Timed(at: nat, event: Event)

  ghost predicate Reaches(o: Options, events: seq<Timed>, s: Snapshot)
    decreases |events|
  {
    if |events| == 0 then s == Initial()
    else
      exists m :: Reaches(o, events[..|events| - 1], m) && Known(m) && JobsKnown(m)
                  && s == Step(o, m, events[|events| - 1].at, events[|events| - 1].event)
  }

  lemma {:induction false} ReachesInv(o: Options, events: seq<Timed>, s: Snapshot)
    requires OptionsOk(o) && Reaches(o, events, s)
    ensures Inv(o, s)
    decreases |events|
  {
    hide Inv, Step;
    if |events| == 0 {
      InitialInv(o);
    } else {
      var last := events[|events| - 1];
      var m :| Reaches(o, events[..|events| - 1], m) && Known(m) && JobsKnown(m)
               && s == Step(o, m, last.at, last.event);
      ReachesInv(o, events[..|events| - 1], m);
      StepKeeps(o, m, last.at, last.event);
    }
  }

  lemma InitialInv(o: Options)
    requires OptionsOk(o)
    ensures Inv(o, Initial())
  {
    forall f ensures BalanceOf(Initial().metrics, f) {
      assert Column(map[], f) == map[];
    }
  }

  /** The scheduler object itself, driven by any timed events, stays on such a run. */
  method EventLoop(raw: RawOptions, events: seq<Timed>) returns (scheduler: RpcScheduler)
    ensures fresh(scheduler) && Reaches(OptionsOf(raw), events, scheduler.State())
  {
    hide Step, OptionsOf;
    scheduler := new RpcScheduler(raw);
    for i := 0 to |events|
      invariant fresh(scheduler) && scheduler.options == OptionsOf(raw) && scheduler.Valid()
      invariant Reaches(OptionsOf(raw), events[..i], scheduler.State())
    {
      ghost var s := scheduler.State();
      scheduler.OnEvent(events[i].at, events[i].event);
      Extend(OptionsOf(raw), events, i, s);
    }
    assert events[..|events|] == events;
  }

  // Main results

  /**
   However calls, timers and replies interleave, every job is waiting, in progress or settled,
   exactly one of the three; a settled job was settled once; and no job makes more attempts
   than the retry limit allows.
  */
  lemma NoJobLost(raw: RawOptions, events: seq<Timed>, s: Snapshot, id: nat)
    requires Reaches(OptionsOf(raw), events, s) && id < |s.metas|
    ensures |s.results| == |s.attempts| == |s.metas|
    ensures (id in s.queue && !InProgress(s, id) && s.results[id] == [])
            || (id !in s.queue && InProgress(s, id) && s.results[id] == [])
            || (id !in s.queue && !InProgress(s, id) && |s.results[id]| == 1)
    ensures s.attempts[id] <= OptionsOf(raw).maxRetries + 1 <= 6
  {
    hide Balanced, SumOf, StartsOk, QuotaOk, SlotsOk, OptionsOf;
    ReachesInv(OptionsOf(raw), events, s);
    assert JobOk(s, id) && AttemptOk(OptionsOf(raw), s, id);
  }

  /**
   No more jobs run than the limit; a queue that is not empty has a timer or a running job to
   serve it; starts are at least the minimum interval apart; and no job starts within the
   cooldown of a quota error seen before it.
  */
  lemma SafeStarts(raw: RawOptions, events: seq<Timed>, s: Snapshot)
    requires Reaches(OptionsOf(raw), events, s)
    ensures s.active == |s.running| <= OptionsOf(raw).concurrency <= 2
    ensures s.queue != [] ==> s.pumpDue.Some? || s.active > 0
    ensures forall i, j :: 0 <= i < j < |s.starts| ==>
              s.starts[j].time >= s.starts[i].time + OptionsOf(raw).minInterval
    ensures forall i :: 0 <= i < |s.starts| ==> s.starts[i].hitsBefore <= |s.hits|
    ensures forall i, k :: 0 <= i < |s.starts| && 0 <= k < s.starts[i].hitsBefore ==>
              s.starts[i].time >= s.hits[k] + OptionsOf(raw).quotaCooldown
  {
    hide Balanced, SumOf, JobsOk, AttemptsOk, QuotaOk, OptionsOf, Reaches;
    ReachesInv(OptionsOf(raw), events, s);
  }

  /** Every metric total is the sum over subsystems and over methods, and calls are attempts. */
  lemma MetricsConserved(raw: RawOptions, events: seq<Timed>, s: Snapshot, f: Field)
    requires Reaches(OptionsOf(raw), events, s)
    ensures Get(s.metrics.totals, f) == MapSum(Column(s.metrics.bySubsystem, f))
                                     == MapSum(Column(s.metrics.byMethod, f))
    ensures s.metrics.totals.total == SumOf(s.attempts)
  {
    hide SumOf, JobsOk, AttemptsOk, QuotaOk, SlotsOk, StartsOk, OptionsOf, Reaches;
    ReachesInv(OptionsOf(raw), events, s);
    assert BalanceOf(s.metrics, f);
  }

  /**
   No job starts before a restored cooldown ends, unless a quota error came between: that sets
   its own cooldown, which may end sooner.
  */
  lemma RestoredCooldownHolds(raw: RawOptions, events: seq<Timed>, s: Snapshot, k: nat, i: nat)
    requires Reaches(OptionsOf(raw), events, s) && k < |s.restores| && s.restores[k].startsBefore <= i < |s.starts|
    ensures s.starts[i].time < s.restores[k].until ==> s.starts[i].hitsBefore > s.restores[k].hitsBefore
  {
    hide Balanced, SumOf, JobsOk, AttemptsOk, QuotaOk, SlotsOk, StartsOk, OptionsOf, Reaches;
    ReachesInv(OptionsOf(raw), events, s);
    assert RestoreOk(s, s.restores[k]);
  }

  // Runs as a function

  /** The state after some timed events. */
  ghost function After(o: Options, s: Snapshot, events: seq<Timed>): (t: Snapshot)
    requires OptionsOk(o) && Inv(o, s)
    ensures Inv(o, t)
    decreases |events|
  {
    if |events| == 0 then s
    else
      var last := events[|events| - 1];
      var m := After(o, s, events[..|events| - 1]);
      InvJobs(o, m);
      StepKeeps(o, m, last.at, last.event);
      Step(o, m, last.at, last.event)
  }

  /** Nothing happens past some time, and no attempt meets a quota error. */
  predicate Quiet(events: seq<Timed>, until: nat) {
    forall k :: 0 <= k < |events| ==>
      events[k].at < until && (events[k].event.AttemptFailed? ==> !events[k].event.failure.hardQuota)
  }

  /** While a cooldown is on, nothing but a quota error can let a job start before it ends. */
  lemma {:induction false} NoStartInCooldown(o: Options, s: Snapshot, events: seq<Timed>, until: nat)
    requires OptionsOk(o) && Inv(o, s) && s.now < until && s.cooldown.Some? && s.cooldown.value >= until
    requires Quiet(events, until)
    ensures var t := After(o, s, events);
            t.starts == s.starts && t.now < until && t.cooldown.Some? && t.cooldown.value >= until
    decreases |events|
  {
    hide Inv, Step, OptionsOk;
    if |events| > 0 {
      var front, last := events[..|events| - 1], events[|events| - 1];
      NoStartInCooldown(o, s, front, until);
      var m := After(o, s, front);
      InvJobs(o, m);
      CooldownStays(o, m, last.at, last.event, until);
    }
  }

  lemma CooldownStays(o: Options, s: Snapshot, t: nat, e: Event, until: nat)
    requires Known(s) && JobsKnown(s)
    requires s.now < until && t < until && s.cooldown.Some? && s.cooldown.value >= until
    requires e.AttemptFailed? ==> !e.failure.hardQuota
    ensures var n := Step(o, s, t, e);
            n.starts == s.starts && n.now < until && n.cooldown.Some? && n.cooldown.value >= until
  {
    hide Record, RetryDelay, ErrorsNoted;
  }

  // Exactly when a quota error cuts a restored cooldown short

  const ANY := Meta(None, None)
  const QUOTA := Failure(true, false, true, false, 0, 0)

  /** After `until` was restored, a quota error came at `at`, and then a job started before `until`. */
  predicate EarlyStart(s: Snapshot, at: nat, until: nat) {
    exists k, j, i ::
      && 0 <= k < |s.restores| && 0 <= j < |s.hits| && 0 <= i < |s.starts|
      && StartedEarly(s.restores[k], j, s.hits[j], s.starts[i], at, until)
  }

  predicate StartedEarly(r: Restored, j: nat, hit: nat, start: Start, at: nat, until: nat) {
    && r.until == until && hit == at && r.hitsBefore <= j < start.hitsBefore && start.time < until
  }

  /** The earliest time a second job can start when a quota error met the first one at `at`. */
  function Soonest(o: Options, at: nat): nat { Max(at + o.quotaCooldown, 2 * o.minInterval) }

  /**
   A job can start before a restored cooldown ends exactly when a quota error since then, at a
   time when a job can have started, set a cooldown that ends earlier.
  */
  lemma RestoredCooldownExact(raw: RawOptions, at: nat, until: nat)
    ensures var o := OptionsOf(raw);
            (exists events, s :: Reaches(o, events, s) && EarlyStart(s, at, until))
            <==> o.minInterval <= at && Soonest(o, at) < until
  {
    hide Reaches, EarlyStart, OptionsOf, Soonest;
    var o := OptionsOf(raw);
    if o.minInterval <= at && Soonest(o, at) < until {
      var s := RestoredCooldownCutShort(o, at, until);
      assert Reaches(o, CutShort(o, at, until), s) && EarlyStart(s, at, until);
    }
    forall events, s | Reaches(o, events, s) && EarlyStart(s, at, until)
      ensures o.minInterval <= at && Soonest(o, at) < until
    {
      NoneEarlier(raw, events, s, at, until);
    }
  }

  lemma NoneEarlier(raw: RawOptions, events: seq<Timed>, s: Snapshot, at: nat, until: nat)
    requires Reaches(OptionsOf(raw), events, s) && EarlyStart(s, at, until)
    ensures OptionsOf(raw).minInterval <= at && Soonest(OptionsOf(raw), at) < until
  {
    hide Reaches, OptionsOf;
    SafeStarts(raw, events, s);
    ReachesFirst(OptionsOf(raw), events, s);
  }

  /** Quota errors come after a first start, which waits for one interval. */
  predicate FirstOk(o: Options, s: Snapshot) {
    && (forall i :: 0 <= i < |s.starts| ==> s.starts[i].time >= o.minInterval)
    && (forall k :: 0 <= k < |s.hits| ==> s.hits[k] >= o.minInterval)
    && (s.starts != [] ==> s.starts[0].hitsBefore == 0)
    && (s.starts == [] ==> s.hits == [] && s.running == map[])
  }

  lemma {:induction false} ReachesFirst(o: Options, events: seq<Timed>, s: Snapshot)
    requires OptionsOk(o) && Reaches(o, events, s)
    ensures FirstOk(o, s)
    decreases |events|
  {
    hide Inv, Step, FirstOk;
    if |events| == 0 {
      FirstInitial(o);
    } else {
      var last := events[|events| - 1];
      var m :| Reaches(o, events[..|events| - 1], m) && Known(m) && JobsKnown(m)
               && s == Step(o, m, last.at, last.event);
      ReachesFirst(o, events[..|events| - 1], m);
      ReachesInv(o, events[..|events| - 1], m);
      StepFirst(o, m, last.at, last.event);
    }
  }

  lemma FirstInitial(o: Options)
    ensures FirstOk(o, Initial())
  {
  }

  lemma StepFirst(o: Options, s: Snapshot, t: nat, e: Event)
    requires Inv(o, s) && FirstOk(o, s) && Known(s) && JobsKnown(s)
    ensures FirstOk(o, Step(o, s, t, e))
  {
    hide Balanced, SumOf, JobsOk, AttemptsOk, QuotaOk, RestoresOk, NotStuck, Handle, StartsNothing, MeetsQuota,
         StartsOne;
    var c := s.(now := Max(s.now, t));
    OneOfThree(o, c, e);
    FirstKept(o, c, Handle(o, c, e));
  }

  predicate StartsNothing(s: Snapshot, t: Snapshot) {
    t.starts == s.starts && t.hits == s.hits && (s.running == map[] ==> t.running == map[])
  }

  predicate MeetsQuota(s: Snapshot, t: Snapshot) {
    t.starts == s.starts && t.hits == s.hits + [s.now] && s.running != map[]
  }

  predicate StartsOne(s: Snapshot, t: Snapshot) {
    && t.hits == s.hits && t.starts == s.starts + [Start(s.now, |s.hits|)]
    && s.pumpDue.Some? && s.pumpDue.value <= s.now
  }

  lemma OneOfThree(o: Options, s: Snapshot, e: Event)
    requires Known(s) && JobsKnown(s)
    ensures var t := Handle(o, s, e);
            StartsNothing(s, t) || MeetsQuota(s, t) || StartsOne(s, t)
  {
    hide Record, RetryDelay, ErrorsNoted, RejectAll, PumpWait;
  }

  lemma FirstKept(o: Options, s: Snapshot, t: Snapshot)
    requires FirstOk(o, s) && SlotsOk(o, s) && StartsOk(o, s)
    requires StartsNothing(s, t) || MeetsQuota(s, t) || StartsOne(s, t)
    ensures FirstOk(o, t)
  {
    if s.starts != [] { assert s.starts[0].time <= s.now; }
  }

  /** One job meets a quota error after a cooldown was restored; the next starts as soon as it can. */
  function CutShort(o: Options, at: nat, until: nat): seq<Timed> {
    [Timed(o.minInterval, Schedule(ANY)), Timed(o.minInterval, PumpTimer),
     Timed(o.minInterval, RestoreCooldown(until)), Timed(at, AttemptFailed(0, QUOTA)), Timed(at, Finished(0)),
     Timed(Soonest(o, at), Schedule(ANY)), Timed(Soonest(o, at), PumpTimer)]
  }

  lemma RestoredCooldownCutShort(o: Options, at: nat, until: nat) returns (s: Snapshot)
    requires OptionsOk(o) && o.minInterval <= at && Soonest(o, at) < until
    ensures Reaches(o, CutShort(o, at, until), s) && EarlyStart(s, at, until)
  {
    assert at < until;
    var es, b := CutShort(o, at, until), Soonest(o, at);
    assert |es| == 7 && es[..7] == es && es[5] == Timed(b, Schedule(ANY)) && es[6] == Timed(b, PumpTimer);
    hide Reaches, Step, EarlyStart, Soonest, CutShort, StillCooling, OptionsOk;
    var s5 := QuotaAfterRestore(o, at, until);
    StillKnown(o, s5, at, until);
    SecondQueued(o, s5, at, until);
    var s6 := Step(o, s5, b, Schedule(ANY));
    s := Step(o, s6, b, PumpTimer);
    Extend(o, es, 5, s5);
    Extend(o, es, 6, s6);
  }

  /** Where the first five events of that run lead. */
  predicate StillCooling(o: Options, s: Snapshot, at: nat, until: nat) {
    && Known(s) && JobsKnown(s) && |s.metas| == 1 && s.queue == [] && s.running == map[] && s.active == 0
    && s.pumpDue == None && s.cooldown == Some(at + o.quotaCooldown) && s.now == at
    && s.lastStarted == o.minInterval && |s.starts| == 1 && s.restores == [Restored(until, 1, 0)] && s.hits == [at]
  }

  lemma StillKnown(o: Options, s: Snapshot, at: nat, until: nat)
    requires StillCooling(o, s, at, until)
    ensures Known(s) && JobsKnown(s)
  {
  }

  lemma SecondQueued(o: Options, s: Snapshot, at: nat, until: nat)
    requires OptionsOk(o) && StillCooling(o, s, at, until) && Soonest(o, at) < until
    ensures var b := Soonest(o, at);
            var m := Step(o, s, b, Schedule(ANY));
            Known(m) && JobsKnown(m) && EarlyStart(Step(o, m, b, PumpTimer), at, until)
  {
    hide Record, EarlyStart;
    var b := Soonest(o, at);
    var m := Step(o, s, b, Schedule(ANY));
    assert m == s.(now := b, cooldown := None, metas := m.metas, results := m.results, attempts := m.attempts,
                   queue := [1], pumpDue := Some(b));
    var t := Step(o, m, b, PumpTimer);
    assert t.starts == s.starts + [Start(b, 1)] && t.hits == s.hits && t.restores == s.restores;
    IsEarly(t, b, at, until);
  }

  lemma IsEarly(t: Snapshot, b: nat, at: nat, until: nat)
    requires |t.starts| == 2 && t.starts[1] == Start(b, 1) && t.hits == [at] && b < until
    requires t.restores == [Restored(until, 1, 0)]
    ensures EarlyStart(t, at, until)
  {
    assert StartedEarly(t.restores[0], 0, t.hits[0], t.starts[1], at, until);
  }

  lemma QuotaAfterRestore(o: Options, at: nat, until: nat) returns (s: Snapshot)
    requires OptionsOk(o) && o.minInterval <= at < until
    ensures Reaches(o, CutShort(o, at, until)[..5], s) && StillCooling(o, s, at, until)
  {
    hide Record, Reaches, Step, StillCooling, Soonest;
    var s3 := RestoreAfterStart(o, at, until);
    QuotaThenFinish(o, s3, at, until);
    var s4 := Step(o, s3, at, AttemptFailed(0, QUOTA));
    s := Step(o, s4, at, Finished(0));
    Extend(o, CutShort(o, at, until), 3, s3);
    Extend(o, CutShort(o, at, until), 4, s4);
  }

  /** One job runs when the cooldown is restored. */
  predicate RunningOne(o: Options, s: Snapshot, restores: seq<Restored>) {
    && Known(s) && JobsKnown(s) && |s.metas| == 1 && s.queue == [] && s.running == map[0 := Attempting(0)]
    && s.active == 1 && s.pumpDue == None && s.now == s.lastStarted == o.minInterval
    && |s.starts| == 1 && s.restores == restores && s.hits == []
  }

  lemma QuotaThenFinish(o: Options, s: Snapshot, at: nat, until: nat)
    requires o.minInterval <= at && RunningOne(o, s, [Restored(until, 1, 0)])
    ensures var m := Step(o, s, at, AttemptFailed(0, QUOTA));
            && Known(m) && JobsKnown(m) && StillCooling(o, Step(o, m, at, Finished(0)), at, until)
  {
    hide Record, ErrorsNoted, RetryDelay;
    var m := Step(o, s, at, AttemptFailed(0, QUOTA));
    assert m == s.(now := at, metrics := m.metrics, results := m.results, cooldown := Some(at + o.quotaCooldown),
                   hits := [at], running := map[0 := Leaving]);
    assert map[0 := Leaving] - {0} == map[];
  }

  lemma RestoreAfterStart(o: Options, at: nat, until: nat) returns (s: Snapshot)
    requires OptionsOk(o) && o.minInterval <= at < until
    ensures Reaches(o, CutShort(o, at, until)[..3], s) && RunningOne(o, s, [Restored(until, 1, 0)])
  {
    hide Reaches, Soonest;
    var s2 := FirstStart(o, at, until);
    s := Step(o, s2, o.minInterval, RestoreCooldown(until));
    Extend(o, CutShort(o, at, until), 2, s2);
  }

  lemma FirstStart(o: Options, at: nat, until: nat) returns (s: Snapshot)
    requires OptionsOk(o)
    ensures Reaches(o, CutShort(o, at, until)[..2], s) && RunningOne(o, s, []) && s.cooldown == None
  {
    hide Reaches, Step, RunningOne, Soonest;
    FirstQueued(o);
    FirstRuns(o);
    s := Step(o, FirstJob(o), o.minInterval, PumpTimer);
    NothingHappened(o, CutShort(o, at, until));
    Extend(o, CutShort(o, at, until), 0, Initial());
    Extend(o, CutShort(o, at, until), 1, FirstJob(o));
  }

  /** The first job is queued, with the timer set. */
  function FirstJob(o: Options): Snapshot {
    Initial().(now := o.minInterval, metas := [ANY], results := [[]], attempts := [0], queue := [0],
               pumpDue := Some(o.minInterval))
  }

  lemma FirstQueued(o: Options)
    requires OptionsOk(o)
    ensures Step(o, Initial(), o.minInterval, Schedule(ANY)) == FirstJob(o)
  {
  }

  lemma FirstRuns(o: Options)
    ensures var s := Step(o, FirstJob(o), o.minInterval, PumpTimer);
            RunningOne(o, s, []) && s.cooldown == None
  {
    hide Record;
  }

  lemma NothingHappened(o: Options, events: seq<Timed>)
    ensures Reaches(o, events[..0], Initial())
  {
  }

  lemma Extend(o: Options, events: seq<Timed>, n: nat, s: Snapshot)
    requires n < |events| && Reaches(o, events[..n], s) && Known(s) && JobsKnown(s)
    ensures Reaches(o, events[..n + 1], Step(o, s, events[n].at, events[n].event))
  {
    hide Step;
    var all := events[..n + 1];
    assert all[..|all| - 1] == events[..n] && all[|all| - 1] == events[n];
  }
}
