/** What the scheduler's counters count: the attempts of the log, one by one. */
module SchedulerCounts {
  import opened Text
  import opened Seqs
  import opened Scheduler
  import opened SchedulerTheorems
  import opened SchedulerJobs

  /** Whether the n-th attempt of a job counts for a field. */
  predicate Counts(o: Options, n: nat, x: Try, f: Field) {
    match f
    case Total => true
    case Success => x.end == Some(Succeeded)
    case RateLimited => x.end.Some? && x.end.value.Failed? && x.end.value.failure.rateLimited
    case ServerErrors => x.end.Some? && x.end.value.Failed? && x.end.value.failure.serverError
    case HardQuota => x.end.Some? && x.end.value.Failed? && x.end.value.failure.hardQuota
    case Retries => x.end.Some? && x.end.value.Failed? && !LastError(o, n, x.end.value.failure)
    case Suppressed => false
  }

  function Tries(o: Options, l: seq<Try>, f: Field): nat {
    if l == [] then 0
    else Tries(o, l[..|l| - 1], f) + if Counts(o, |l| - 1, l[|l| - 1], f) then 1 else 0
  }

  /** All attempts in a log that count for a field. */
  function Tally(o: Options, log: seq<seq<Try>>, f: Field): nat {
    if log == [] then 0 else Tally(o, log[..|log| - 1], f) + Tries(o, log[|log| - 1], f)
  }

  lemma {:induction false} TallyUpdate(o: Options, log: seq<seq<Try>>, id: nat, l: seq<Try>, f: Field)
    requires id < |log|
    ensures Tally(o, log[id := l], f) == Tally(o, log, f) - Tries(o, log[id], f) + Tries(o, l, f)
  {
    var n := |log| - 1;
    if id == n {
      assert log[id := l][..n] == log[..n];
    } else {
      assert log[id := l][..n] == log[..n][id := l];
      TallyUpdate(o, log[..n], id, l, f);
    }
  }

  lemma TriesSnoc(o: Options, l: seq<Try>, x: Try, f: Field)
    ensures Tries(o, l + [x], f) == Tries(o, l, f) + if Counts(o, |l|, x, f) then 1 else 0
  {
    assert (l + [x])[..|l|] == l;
  }

  /** What an event adds to a counter, told from the event and the state it meets. */
  function Gain(o: Options, s: Snapshot, e: Event, f: Field): nat {
    match e
    case AttemptSucceeded(id) => if Trying(s, id) && f == Success then 1 else 0
    case AttemptFailed(id, x) =>
      if Trying(s, id) && Counts(o, s.running[id].attempt, Try(0, Some(Failed(x, 0))), f) && f != Total then 1 else 0
    case RetryTimer(id) =>
      if f == Total && id in s.running && s.running[id].Backoff? && s.running[id].due <= s.now then 1 else 0
    case PumpTimer =>
      if f == Total && s.pumpDue.Some? && s.pumpDue.value <= s.now && s.queue != []
         && (s.cooldown.None? || s.cooldown.value <= s.now) then 1 else 0
    case _ => 0
  }

  predicate Trying(s: Snapshot, id: nat) { id in s.running && s.running[id].Attempting? }

  lemma RecordGains(m: Metrics, meta: Meta, f: Field, g: Field)
    ensures Get(Record(m, meta, f).totals, g) == Get(m.totals, g) + if f == g then 1 else 0
  {
    hide BumpIn;
  }

  lemma {:induction false} RejectAllGains(s: Snapshot, ids: seq<nat>, g: Field)
    requires Known(s) && forall i :: 0 <= i < |ids| ==> ids[i] < |s.metas|
    requires g != Suppressed
    ensures Get(RejectAll(s, ids).metrics.totals, g) == Get(s.metrics.totals, g)
    decreases |ids|
  {
    hide Record, Get;
    if |ids| > 0 {
      RecordGains(s.metrics, s.metas[ids[0]], Suppressed, g);
      RejectAllGains(Reject(s, ids[0]), ids[1..], g);
    }
  }

  lemma FailureGains(o: Options, s: Snapshot, id: nat, x: Failure, g: Field)
    requires Known(s) && JobsKnown(s) && Trying(s, id) && g != Suppressed
    ensures Get(DoFailure(o, s, id, s.running[id].attempt, x).metrics.totals, g)
            == Get(s.metrics.totals, g) + Gain(o, s, AttemptFailed(id, x), g)
  {
    hide Record, Get, RejectAll, RetryDelay;
    var meta, n := s.metas[id], s.running[id].attempt;
    RecordGains(s.metrics, meta, RateLimited, g);
    var a := RecordIf(s.metrics, meta, RateLimited, x.rateLimited);
    RecordGains(a, meta, ServerErrors, g);
    var c := s.(metrics := ErrorsNoted(s.metrics, meta, x));
    RecordGains(c.metrics, meta, HardQuota, g);
    RecordGains(c.metrics, meta, Retries, g);
    if x.hardQuota {
      var h := Settle(Noted(StartCooldown(o, c), meta, HardQuota), id, Rejected);
      RejectAllGains(h.(queue := []), h.queue, g);
    }
  }

  lemma EventGains(o: Options, s: Snapshot, e: Event, g: Field)
    requires Known(s) && JobsKnown(s) && g != Suppressed
    ensures Get(Handle(o, s, e).metrics.totals, g) == Get(s.metrics.totals, g) + Gain(o, s, e, g)
  {
    hide Record, Get, DoFailure, PumpWait, Counts;
    match e
    case Schedule(meta) =>
      var n := Enroll(Expire(s), meta);
      RecordGains(s.metrics, n.metas[|s.metas|], Suppressed, g);
    case PumpTimer =>
      if |s.queue| > 0 {
        RecordGains(s.metrics, s.metas[s.queue[0]], Suppressed, g);
        RecordGains(s.metrics, s.metas[s.queue[0]], Total, g);
      }
    case AttemptSucceeded(id) => if Trying(s, id) { RecordGains(s.metrics, s.metas[id], Success, g); }
    case AttemptFailed(id, x) => if Trying(s, id) { FailureGains(o, s, id, x, g); }
    case RetryTimer(id) => if id in s.running { RecordGains(s.metrics, s.metas[id], Total, g); }
    case _ =>
  }

  // The log gains the same

  /** The job that begins an attempt at an event, if any does. */
  function Beginner(s: Snapshot, e: Event): Option<nat> {
    match e
    case RetryTimer(id) =>
      if id in s.running && s.running[id].Backoff? && s.running[id].due <= s.now then Some(id) else None
    case PumpTimer =>
      if s.pumpDue.Some? && s.pumpDue.value <= s.now && s.queue != []
         && (s.cooldown.None? || s.cooldown.value <= s.now) then Some(s.queue[0]) else None
    case _ => None
  }

  lemma AttemptsAfter(o: Options, s: Snapshot, e: Event)
    requires Known(s) && JobsKnown(s)
    ensures var b, t := Beginner(s, e), Handle(o, s, e);
            && (b.Some? ==> b.value < |s.attempts|)
            && t.attempts == if e.Schedule? then s.attempts + [0]
                             else if b.Some? then s.attempts[b.value := s.attempts[b.value] + 1]
                             else s.attempts
  {
    hide Record, RetryDelay, ErrorsNoted, RejectAll, PumpWait;
  }

  /** The job whose attempt ends at an event, if it is under way. */
  predicate EndsAt(s: Snapshot, e: Event, id: nat) {
    (e == AttemptSucceeded(id) || (e.AttemptFailed? && e.id == id)) && Trying(s, id)
  }

  lemma EndedOnly(o: Options, s: Snapshot, e: Event, id: nat, l: seq<Try>)
    requires Known(s) && id < |s.metas| && Tracked(o, s, id, l)
    ensures if EndsAt(s, e, id) then
              && l != [] && |l| - 1 == s.running[id].attempt
              && Ended(l, id, e, s.now) == l[|l| - 1 := l[|l| - 1].(end := EndOf(e, s.now))]
              && l[|l| - 1].end.None?
            else Ended(l, id, e, s.now) == l
  {
    hide Retried, LastError, Waited;
  }

  function EndOf(e: Event, now: nat): Option<End> {
    if e.AttemptSucceeded? then Some(Succeeded) else if e.AttemptFailed? then Some(Failed(e.failure, now)) else None
  }

  lemma EndCounts(o: Options, s: Snapshot, e: Event, id: nat, l: seq<Try>, f: Field)
    requires EndsAt(s, e, id) && l != [] && |l| - 1 == s.running[id].attempt && l[|l| - 1].end.None?
    ensures Tries(o, l[|l| - 1 := l[|l| - 1].(end := EndOf(e, s.now))], f) == Tries(o, l, f) + Gain(o, s, e, f)
  {
    var x := l[|l| - 1 := l[|l| - 1].(end := EndOf(e, s.now))];
    assert x[..|x| - 1] == l[..|l| - 1];
  }

  /** What the log of all jobs becomes. */
  lemma LoggedIs(o: Options, m: Snapshot, s: Snapshot, e: Event, log: seq<seq<Try>>)
    requires Known(s) && JobsKnown(s) && AllTracked(o, s, log) && m.attempts == s.attempts
    ensures var t := Handle(o, s, e);
            var b, next := Beginner(s, e), Logged(log, m, t, e);
            && (e.Schedule? ==> next == log + [[]])
            && (b.Some? ==> b.value < |log| && next == log[b.value := log[b.value] + [Try(s.now, None)]])
            && (EndsIn(s, e) ==>
                  && e.id < |log| && log[e.id] != []
                  && next == log[e.id := Ended(log[e.id], e.id, e, s.now)])
            && (!e.Schedule? && b.None? && !EndsIn(s, e) ==> next == log)
  {
    hide Handle, Tracked, Ended, Beginner;
    var t := Handle(o, s, e);
    AttemptsAfter(o, s, e);
    HandleNow(o, s, e);
    BeginsNotEnds(s, e);
    forall id | 0 <= id < |log| ensures EndedIs(o, s, e, id, log[id]) { EndedOnly(o, s, e, id, log[id]); }
    var b, next := Beginner(s, e), Logged(log, m, t, e);
    assert |next| == |t.attempts|;
    if e.Schedule? {
      assert next[|log|] == Observed([], |log|, m, t, e);
      NewLog(e, t.now, |log|);
      Extended(o, s, e, log, next);
    } else if b.Some? {
      forall id | 0 <= id < |log| ensures next[id] == if id == b.value then log[id] + [Try(s.now, None)] else log[id] {
        assert EndedIs(o, s, e, id, log[id]);
      }
    } else {
      forall id | 0 <= id < |log| ensures next[id] == Ended(log[id], id, e, s.now) {
        assert EndedIs(o, s, e, id, log[id]);
      }
      Changed(o, s, e, log, next);
    }
  }

  lemma Extended(o: Options, s: Snapshot, e: Event, log: seq<seq<Try>>, next: seq<seq<Try>>)
    requires e.Schedule? && |next| == |log| + 1 && next[|log|] == []
    requires forall id: nat :: id < |log| ==> EndedIs(o, s, e, id, log[id]) && next[id] == Ended(log[id], id, e, s.now)
    ensures next == log + [[]]
  {
    forall id | 0 <= id < |log| ensures next[id] == log[id] { assert EndedIs(o, s, e, id, log[id]); }
  }

  lemma Changed(o: Options, s: Snapshot, e: Event, log: seq<seq<Try>>, next: seq<seq<Try>>)
    requires |next| == |log| && (EndsIn(s, e) ==> e.id < |log|)
    requires forall id: nat :: id < |log| ==> EndedIs(o, s, e, id, log[id]) && next[id] == Ended(log[id], id, e, s.now)
    ensures EndsIn(s, e) ==> log[e.id] != [] && next == log[e.id := Ended(log[e.id], e.id, e, s.now)]
    ensures !EndsIn(s, e) ==> next == log
  {
    hide Ended;
    forall id: nat | id < |log| && !EndsAt(s, e, id) ensures next[id] == log[id] {
      assert EndedIs(o, s, e, id, log[id]);
    }
    if EndsIn(s, e) { assert EndedIs(o, s, e, e.id, log[e.id]); }
  }

  predicate EndsIn(s: Snapshot, e: Event) { (e.AttemptSucceeded? || e.AttemptFailed?) && Trying(s, e.id) }

  predicate EndedIs(o: Options, s: Snapshot, e: Event, id: nat, l: seq<Try>) {
    if EndsAt(s, e, id) then l != [] else Ended(l, id, e, s.now) == l
  }

  lemma BeginsNotEnds(s: Snapshot, e: Event)
    ensures Beginner(s, e).Some? ==> e.RetryTimer? || e.PumpTimer?
  {
  }

  lemma NewLog(e: Event, now: nat, id: nat)
    ensures Ended([], id, e, now) == []
  {
  }

  lemma StepTally(o: Options, m: Snapshot, s: Snapshot, e: Event, log: seq<seq<Try>>, f: Field)
    requires Known(s) && JobsKnown(s) && AllTracked(o, s, log) && m.attempts == s.attempts && f != Suppressed
    ensures Tally(o, Logged(log, m, Handle(o, s, e), e), f) == Tally(o, log, f) + Gain(o, s, e, f)
  {
    hide Handle, Tracked, Ended, Logged, Counts, LastError;
    LoggedIs(o, m, s, e, log);
    var b := Beginner(s, e);
    if e.Schedule? {
      assert (log + [[]])[..|log|] == log;
    } else if b.Some? {
      TriesSnoc(o, log[b.value], Try(s.now, None), f);
      TallyUpdate(o, log, b.value, log[b.value] + [Try(s.now, None)], f);
      OpenCounts(o, |log[b.value]|, s.now, f);
    } else if EndsIn(s, e) {
      EndedOnly(o, s, e, e.id, log[e.id]);
      EndCounts(o, s, e, e.id, log[e.id], f);
      TallyUpdate(o, log, e.id, Ended(log[e.id], e.id, e, s.now), f);
    }
  }

  lemma OpenCounts(o: Options, n: nat, now: nat, f: Field)
    ensures Counts(o, n, Try(now, None), f) <==> f == Total
  {
  }

  // Jobs turned away before they started

  function Refusals(s: Snapshot): set<nat>
    requires Known(s)
  {
    set id: nat | id < |s.metas| && s.attempts[id] == 0 && s.results[id] == [Rejected]
  }

  /** The jobs an event turns away. */
  function TurnedAwayBy(s: Snapshot, e: Event): set<nat> {
    match e
    case Schedule(_) => if Cooling(s) then {|s.metas|} else {}
    case PumpTimer =>
      if s.pumpDue.Some? && s.pumpDue.value <= s.now && s.queue != [] && Cooling(s) then {s.queue[0]} else {}
    case AttemptFailed(id, x) => if Trying(s, id) && x.hardQuota then Elems(s.queue) else {}
    case _ => {}
  }

  predicate Cooling(s: Snapshot) { s.cooldown.Some? && s.cooldown.value > s.now }

  lemma {:induction false} RejectAllSuppresses(s: Snapshot, ids: seq<nat>)
    requires Known(s) && forall i :: 0 <= i < |ids| ==> ids[i] < |s.metas|
    ensures Get(RejectAll(s, ids).metrics.totals, Suppressed) == Get(s.metrics.totals, Suppressed) + |ids|
    decreases |ids|
  {
    hide Record, Get;
    if |ids| > 0 {
      RecordGains(s.metrics, s.metas[ids[0]], Suppressed, Suppressed);
      RejectAllSuppresses(Reject(s, ids[0]), ids[1..]);
    }
  }

  /** Jobs that wait become refusals, started ones never are, and the rest stays. */
  lemma MoreRefusals(s: Snapshot, t: Snapshot, more: set<nat>)
    requires Known(s) && Known(t) && |t.metas| == |s.metas|
    requires forall k :: k in more ==>
               && k < |s.metas| && s.attempts[k] == 0 && s.results[k] == []
               && t.attempts[k] == 0 && t.results[k] == [Rejected]
    requires forall k: nat :: k < |s.metas| && k !in more ==>
               || (t.attempts[k] == s.attempts[k] && t.results[k] == s.results[k])
               || (s.attempts[k] > 0 && t.attempts[k] > 0)
    ensures Refusals(t) == Refusals(s) + more && Refusals(s) !! more
  {
  }

  lemma QuotaCounts(o: Options, s: Snapshot, id: nat, x: Failure)
    requires Known(s) && JobsKnown(s) && Trying(s, id) && x.hardQuota
    ensures var t := DoFailure(o, s, id, s.running[id].attempt, x);
            Get(t.metrics.totals, Suppressed) == Get(s.metrics.totals, Suppressed) + |s.queue|
  {
    hide Record, Get, RejectAll;
    var meta := s.metas[id];
    RecordGains(s.metrics, meta, RateLimited, Suppressed);
    RecordGains(RecordIf(s.metrics, meta, RateLimited, x.rateLimited), meta, ServerErrors, Suppressed);
    var c := s.(metrics := ErrorsNoted(s.metrics, meta, x));
    RecordGains(c.metrics, meta, HardQuota, Suppressed);
    RejectAllSuppresses(Settle(Noted(StartCooldown(o, c), meta, HardQuota), id, Rejected).(queue := []), s.queue);
  }

  /** What a quota error does to every job. */
  lemma QuotaJobs(o: Options, s: Snapshot, id: nat, x: Failure, k: nat)
    requires Inv(o, s) && Known(s) && JobsKnown(s) && Trying(s, id) && x.hardQuota && k < |s.metas|
    ensures var t := DoFailure(o, s, id, s.running[id].attempt, x);
            && Known(t) && |t.metas| == |s.metas| && t.attempts == s.attempts && s.attempts[id] > 0
            && (k in s.queue ==> s.attempts[k] == 0 && s.results[k] == [] && t.results[k] == [Rejected])
            && (k !in s.queue && k != id ==> t.results[k] == s.results[k])
  {
    hide Record, Balanced, SumOf, StartsOk, RestoresOk, RejectAll, JobOk, AttemptOk;
    InProgressFacts(o, s, id);
    ErrorsBalanced(s.metrics, s.metas[id], x);
    var c := s.(metrics := ErrorsNoted(s.metrics, s.metas[id], x));
    RecordBalanced(c.metrics, s.metas[id], HardQuota);
    RejectAllKeeps(o, Settle(Noted(StartCooldown(o, c), s.metas[id], HardQuota), id, Rejected).(queue := []), s.queue);
    if k in s.queue { HeadUnstarted(o, s, k); }
  }

  lemma QuotaSuppresses(o: Options, s: Snapshot, id: nat, x: Failure)
    requires Inv(o, s) && Known(s) && JobsKnown(s) && Trying(s, id) && x.hardQuota
    ensures Suppresses(s, Handle(o, s, AttemptFailed(id, x)), AttemptFailed(id, x))
  {
    hide Inv, DoFailure, Refusals, Get;
    var t := DoFailure(o, s, id, s.running[id].attempt, x);
    QuotaCounts(o, s, id, x);
    ElemsSize(s.queue);
    QueueDiffers(o, s);
    forall k: nat | k < |s.metas|
      ensures Known(t) && |t.metas| == |s.metas| && t.attempts == s.attempts && s.attempts[id] > 0
      ensures k in s.queue ==> s.attempts[k] == 0 && s.results[k] == [] && t.results[k] == [Rejected]
      ensures k !in s.queue && k != id ==> t.results[k] == s.results[k]
    {
      QuotaJobs(o, s, id, x, k);
    }
    QuotaJobs(o, s, id, x, id);
    MoreRefusals(s, t, Elems(s.queue));
  }

  lemma QueueDiffers(o: Options, s: Snapshot)
    requires Inv(o, s)
    ensures forall i, j :: 0 <= i < j < |s.queue| ==> s.queue[i] != s.queue[j]
  {
    hide Balanced, JobOk, AttemptsOk, StartsOk, QuotaOk, RestoresOk;
  }

  /** What an event turns away is what the counter gains. */
  predicate Suppresses(s: Snapshot, t: Snapshot, e: Event)
    requires Known(s)
  {
    && Known(t) && Refusals(t) == Refusals(s) + TurnedAwayBy(s, e) && Refusals(s) !! TurnedAwayBy(s, e)
    && Get(t.metrics.totals, Suppressed) == Get(s.metrics.totals, Suppressed) + |TurnedAwayBy(s, e)|
  }

  lemma ScheduleSuppresses(o: Options, s: Snapshot, meta: Meta)
    requires Known(s) && JobsKnown(s)
    ensures Suppresses(s, Handle(o, s, Schedule(meta)), Schedule(meta))
  {
    hide Record, Get, PumpWait;
    RecordGains(s.metrics, Enroll(Expire(s), meta).metas[|s.metas|], Suppressed, Suppressed);
  }

  lemma PumpSuppresses(o: Options, s: Snapshot)
    requires JobsOk(s) && Known(s) && JobsKnown(s)
    ensures Suppresses(s, Handle(o, s, PumpTimer), PumpTimer)
  {
    hide Record, Get, PumpWait, JobOk, Refusals, Handle;
    if s.pumpDue.None? || s.pumpDue.value > s.now || |s.queue| == 0 {
      PumpIdles(o, s);
    } else {
      HeadUnstarted(o, s, s.queue[0]);
      if Cooling(s) { HeadTurnedAway(o, s); } else { HeadStarts(o, s); HeadCounts(o, s); }
    }
  }

  lemma PumpIdles(o: Options, s: Snapshot)
    requires Known(s) && JobsKnown(s) && (s.pumpDue.None? || s.pumpDue.value > s.now || |s.queue| == 0)
    ensures Suppresses(s, Handle(o, s, PumpTimer), PumpTimer)
  {
    hide Get;
  }

  lemma HeadTurnedAway(o: Options, s: Snapshot)
    requires Known(s) && JobsKnown(s) && |s.queue| > 0 && Cooling(s) && s.pumpDue.Some? && s.pumpDue.value <= s.now
    requires s.attempts[s.queue[0]] == 0 && s.results[s.queue[0]] == []
    ensures Suppresses(s, Handle(o, s, PumpTimer), PumpTimer)
  {
    hide Record, Get, PumpWait, Refusals;
    RecordGains(s.metrics, s.metas[s.queue[0]], Suppressed, Suppressed);
    MoreRefusals(s, Handle(o, s, PumpTimer), TurnedAwayBy(s, PumpTimer));
  }

  lemma HeadCounts(o: Options, s: Snapshot)
    requires Known(s) && JobsKnown(s) && |s.queue| > 0 && !Cooling(s)
    ensures Get(Handle(o, s, PumpTimer).metrics.totals, Suppressed) == Get(s.metrics.totals, Suppressed)
  {
    hide Record, Get, PumpWait;
    RecordGains(s.metrics, s.metas[s.queue[0]], Total, Suppressed);
  }

  lemma HeadStarts(o: Options, s: Snapshot)
    requires Known(s) && JobsKnown(s) && |s.queue| > 0 && !Cooling(s)
    requires s.attempts[s.queue[0]] == 0 && s.results[s.queue[0]] == []
    ensures Known(Handle(o, s, PumpTimer)) && Refusals(Handle(o, s, PumpTimer)) == Refusals(s)
  {
    hide Record, PumpWait;
  }

  lemma SuccessSuppresses(o: Options, s: Snapshot, id: nat)
    requires JobsOk(s) && AttemptsOk(o, s) && Known(s) && JobsKnown(s)
    ensures Suppresses(s, Handle(o, s, AttemptSucceeded(id)), AttemptSucceeded(id))
  {
    hide Record, Get, JobOk, AttemptOk, Refusals;
    if Trying(s, id) {
      InProgressFacts(o, s, id);
      RecordGains(s.metrics, s.metas[id], Success, Suppressed);
      MoreRefusals(s, Handle(o, s, AttemptSucceeded(id)), {});
    }
  }

  lemma RetrySuppresses(o: Options, s: Snapshot, id: nat)
    requires JobsOk(s) && AttemptsOk(o, s) && Known(s) && JobsKnown(s)
    ensures Suppresses(s, Handle(o, s, RetryTimer(id)), RetryTimer(id))
  {
    hide Record, Get, JobOk, AttemptOk, Refusals;
    if id in s.running && s.running[id].Backoff? {
      InProgressFacts(o, s, id);
      RecordGains(s.metrics, s.metas[id], Total, Suppressed);
      if s.running[id].due <= s.now { MoreRefusals(s, Handle(o, s, RetryTimer(id)), {}); }
    }
  }

  lemma FailureSuppresses(o: Options, s: Snapshot, id: nat, x: Failure)
    requires JobsOk(s) && AttemptsOk(o, s) && Known(s) && JobsKnown(s) && !x.hardQuota
    ensures Suppresses(s, Handle(o, s, AttemptFailed(id, x)), AttemptFailed(id, x))
  {
    hide Record, Get, JobOk, AttemptOk, Refusals, RetryDelay, QuotaHit;
    if Trying(s, id) {
      InProgressFacts(o, s, id);
      var meta := s.metas[id];
      RecordGains(s.metrics, meta, RateLimited, Suppressed);
      RecordGains(RecordIf(s.metrics, meta, RateLimited, x.rateLimited), meta, ServerErrors, Suppressed);
      RecordGains(ErrorsNoted(s.metrics, meta, x), meta, Retries, Suppressed);
      MoreRefusals(s, Handle(o, s, AttemptFailed(id, x)), {});
    }
  }

  lemma QuietSuppresses(o: Options, s: Snapshot, e: Event)
    requires Known(s) && JobsKnown(s) && (e.Finished? || e.RestoreCooldown? || e.AskCooldown?)
    ensures Suppresses(s, Handle(o, s, e), e)
  {
    hide Record, Get, PumpWait, Refusals;
    MoreRefusals(s, Handle(o, s, e), {});
  }

  lemma EventSuppresses(o: Options, s: Snapshot, e: Event)
    requires Inv(o, s) && Known(s) && JobsKnown(s)
    ensures Suppresses(s, Handle(o, s, e), e)
  {
    hide Suppresses, Handle, Balanced, SumOf, StartsOk, QuotaOk, RestoresOk, JobsOk, AttemptsOk;
    match e
    case Schedule(meta) => ScheduleSuppresses(o, s, meta);
    case PumpTimer => PumpSuppresses(o, s);
    case AttemptFailed(id, x) =>
      if !x.hardQuota { FailureSuppresses(o, s, id, x); }
      else if Trying(s, id) { QuotaSuppresses(o, s, id, x); }
      else { NotTrying(o, s, e); }
    case AttemptSucceeded(id) => SuccessSuppresses(o, s, id);
    case RetryTimer(id) => RetrySuppresses(o, s, id);
    case _ => QuietSuppresses(o, s, e);
  }

  lemma NotTrying(o: Options, s: Snapshot, e: Event)
    requires Known(s) && JobsKnown(s) && e.AttemptFailed? && !Trying(s, e.id)
    ensures Suppresses(s, Handle(o, s, e), e)
  {
    hide DoFailure, Get;
  }

  // Main result

  /**
   Over any run each counter is the number of attempts of the log it is named after: all of them, those
   that succeeded, those that failed with that kind of error, those that were to be retried; and the
   counter of suppressed calls is the number of jobs turned away before they started.
  */
  lemma {:induction false} CountersMean(raw: RawOptions, events: seq<Timed>, s: Snapshot, log: seq<seq<Try>>, f: Field)
    requires Recorded(OptionsOf(raw), events, s, log)
    ensures Known(s)
    ensures f != Suppressed ==> Get(s.metrics.totals, f) == Tally(OptionsOf(raw), log, f)
    ensures Get(s.metrics.totals, Suppressed) == |Refusals(s)|
    decreases |events|
  {
    hide Inv, Step, Logged, OptionsOf, Get, Tally, Refusals, AllTracked;
    var o := OptionsOf(raw);
    if |events| == 0 {
      NothingCounted(o, f);
    } else {
      var last, front := events[|events| - 1], events[..|events| - 1];
      var m, l :| Recorded(o, front, m, l) && Known(m) && JobsKnown(m)
                  && s == Step(o, m, last.at, last.event) && log == Logged(l, m, s, last.event);
      CountersMean(raw, front, m, l, f);
      RecordedInv(o, front, m, l);
      RecordedTracked(o, front, m, l);
      OneStep(o, m, last.at, last.event, l, f);
    }
  }

  lemma NothingCounted(o: Options, f: Field)
    ensures Known(Initial()) && Get(Initial().metrics.totals, f) == 0 == Tally(o, [], f) && Refusals(Initial()) == {}
    ensures Get(Initial().metrics.totals, Suppressed) == 0
  {
  }

  lemma OneStep(o: Options, m: Snapshot, t: nat, e: Event, l: seq<seq<Try>>, f: Field)
    requires OptionsOk(o) && Inv(o, m) && Known(m) && JobsKnown(m) && AllTracked(o, m, l)
    requires f != Suppressed ==> Get(m.metrics.totals, f) == Tally(o, l, f)
    requires Get(m.metrics.totals, Suppressed) == |Refusals(m)|
    ensures var s := Step(o, m, t, e);
            && Known(s)
            && (f != Suppressed ==> Get(s.metrics.totals, f) == Tally(o, Logged(l, m, s, e), f))
            && Get(s.metrics.totals, Suppressed) == |Refusals(s)|
  {
    hide Inv, Handle, Logged, Get, Tally, Gain, TurnedAwayBy, Tracked, OptionsOk, Refusals;
    var c := m.(now := Max(m.now, t));
    TimeKeeps(o, m, t);
    InvJobs(o, c);
    forall id | 0 <= id < |c.metas| ensures Tracked(o, c, id, l[id]) { SameTracked(o, m, c, id, l[id]); }
    SameRefusals(m, c);
    EventSuppresses(o, c, e);
    if f != Suppressed {
      EventGains(o, c, e, f);
      StepTally(o, m, c, e, l, f);
    }
  }

  lemma SameRefusals(m: Snapshot, c: Snapshot)
    requires Known(m) && c == m.(now := c.now)
    ensures Refusals(c) == Refusals(m)
  {
  }

  // First come, first served

  /** Waiting jobs stand in the order they came, after every job that was started. */
  predicate InOrder(s: Snapshot)
    requires Known(s)
  {
    && (forall i, j :: 0 <= i < j < |s.queue| ==> s.queue[i] < s.queue[j])
    && (forall i :: 0 <= i < |s.queue| ==> s.queue[i] < |s.metas|)
    && forall i, k: nat :: 0 <= i < |s.queue| && k < |s.attempts| && s.attempts[k] > 0 ==> k < s.queue[i]
  }

  lemma QueueAfter(o: Options, s: Snapshot, e: Event)
    requires Known(s) && JobsKnown(s)
    ensures var t := Handle(o, s, e);
            && |s.metas| <= |t.metas|
            && t.queue == match e
                 case Schedule(_) => if Cooling(s) then s.queue else s.queue + [|s.metas|]
                 case PumpTimer =>
                   if s.pumpDue.Some? && s.pumpDue.value <= s.now && s.queue != [] then s.queue[1..] else s.queue
                 case AttemptFailed(id, x) => if Trying(s, id) && x.hardQuota then [] else s.queue
                 case _ => s.queue
  {
    hide Record, RetryDelay, ErrorsNoted, RejectAll, PumpWait;
  }

  lemma OrderKept(o: Options, s: Snapshot, e: Event)
    requires Known(s) && JobsKnown(s) && Known(Handle(o, s, e)) && InOrder(s)
    requires forall k: nat :: InProgress(s, k) ==> k < |s.attempts| && s.attempts[k] > 0
    ensures InOrder(Handle(o, s, e))
  {
    hide Handle;
    QueueAfter(o, s, e);
    AttemptsAfter(o, s, e);
    NewMetas(o, s, e);
  }

  lemma NewMetas(o: Options, s: Snapshot, e: Event)
    requires Known(s) && JobsKnown(s)
    ensures |Handle(o, s, e).metas| == |s.metas| + if e.Schedule? then 1 else 0
  {
    hide Record, RetryDelay, ErrorsNoted, RejectAll, PumpWait;
  }

  /**
   Over any run jobs start in the order they were scheduled: while a job waits, none that came after it
   has been started.
  */
  lemma {:induction false} FirstComeFirstServed(raw: RawOptions, events: seq<Timed>, s: Snapshot)
    requires Reaches(OptionsOf(raw), events, s)
    ensures Known(s) && InOrder(s)
    ensures forall a, b: nat :: a in s.queue && b < |s.attempts| && s.attempts[b] > 0 ==> b < a
    decreases |events|
  {
    hide Inv, Step, OptionsOf, InOrder;
    var o := OptionsOf(raw);
    if |events| == 0 {
      EmptyInOrder();
    } else {
      var last, front := events[|events| - 1], events[..|events| - 1];
      var m :| Reaches(o, front, m) && Known(m) && JobsKnown(m) && s == Step(o, m, last.at, last.event);
      FirstComeFirstServed(raw, front, m);
      ReachesInv(o, front, m);
      OrderStep(o, m, last.at, last.event);
    }
    OrderMeans(s);
  }

  lemma EmptyInOrder()
    ensures Known(Initial()) && InOrder(Initial())
  {
  }

  lemma OrderMeans(s: Snapshot)
    requires Known(s) && InOrder(s)
    ensures forall a, b: nat :: a in s.queue && b < |s.attempts| && s.attempts[b] > 0 ==> b < a
  {
  }

  lemma OrderStep(o: Options, m: Snapshot, t: nat, e: Event)
    requires OptionsOk(o) && Inv(o, m) && Known(m) && JobsKnown(m) && InOrder(m)
    ensures Known(Step(o, m, t, e)) && InOrder(Step(o, m, t, e))
  {
    hide Handle, Balanced, JobOk, AttemptOk, StartsOk, QuotaOk, RestoresOk;
    var c := m.(now := Max(m.now, t));
    HandleKnown(o, c, e);
    forall k: nat | InProgress(c, k) ensures k < |c.attempts| && c.attempts[k] > 0 { RunningTried(o, m, k); }
    OrderKept(o, c, e);
  }

  lemma RunningTried(o: Options, s: Snapshot, k: nat)
    requires Inv(o, s) && InProgress(s, k)
    ensures Known(s) && k < |s.attempts| && s.attempts[k] > 0
  {
    hide Balanced, JobOk, AttemptOk, StartsOk, QuotaOk, RestoresOk;
    InProgressFacts(o, s, k);
  }

  /** A job that joins the queue, and a slot that comes free, set the timer as soon as the interval allows. */
  lemma SlotsUsed(o: Options, s: Snapshot, t: nat, e: Event)
    requires Known(s) && JobsKnown(s)
    requires var now := Max(s.now, t);
             (e.Schedule? && !Cooling(s.(now := now)))
             || (e.Finished? && e.id in s.running && s.running[e.id].Leaving? && s.active > 0)
    ensures var n := Step(o, s, t, e);
            && (n.queue != [] ==> n.pumpDue.Some? || n.active >= o.concurrency)
            && (n.queue != [] && s.pumpDue.None? && n.pumpDue.Some? ==>
                  n.pumpDue.value == Max(n.now, n.lastStarted + o.minInterval))
  {
    hide Record;
  }
}
