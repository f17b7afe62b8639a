/** The attempts of each job of the scheduler, as an observer of its events writes them down. */
module SchedulerJobs {
  import opened Text
  import opened Scheduler
  import opened SchedulerTheorems

  // What an observer writes down

  datatype End = Succeeded | Failed(failure: Failure, at: nat)

  /** One attempt: when it began, and how and when it ended, if it did. */
  datatype Try = Try(begun: nat, end: Option<End>)

  /** The attempt under way ends when its reply or its error arrives. */
  function Ended(l: seq<Try>, id: nat, e: Event, now: nat): seq<Try> {
    if l == [] || l[|l| - 1].end.Some? then l
    else if e == AttemptSucceeded(id) then l[|l| - 1 := l[|l| - 1].(end := Some(Succeeded))]
    else if e.AttemptFailed? && e.id == id then l[|l| - 1 := l[|l| - 1].(end := Some(Failed(e.failure, now)))]
    else l
  }

  /** One job's attempts after an event took the scheduler from `m` to `s`. */
  function Observed(l: seq<Try>, id: nat, m: Snapshot, s: Snapshot, e: Event): seq<Try>
    requires id < |s.attempts|
  {
    if id < |m.attempts| && s.attempts[id] > m.attempts[id]
    then Ended(l, id, e, s.now) + [Try(s.now, None)]
    else Ended(l, id, e, s.now)
  }

  /** The log of all jobs after an event. */
  function Logged(log: seq<seq<Try>>, m: Snapshot, s: Snapshot, e: Event): seq<seq<Try>> {
    seq(|s.attempts|, id requires 0 <= id < |s.attempts| => Observed(if id < |log| then log[id] else [], id, m, s, e))
  }

  /** A run of the scheduler and the log written beside it. */
  ghost predicate Recorded(o: Options, events: seq<Timed>, s: Snapshot, log: seq<seq<Try>>)
    decreases |events|
  {
    if |events| == 0 then s == Initial() && log == []
    else
      var last := events[|events| - 1];
      exists m, l :: Recorded(o, events[..|events| - 1], m, l) && Known(m) && JobsKnown(m)
                     && s == Step(o, m, last.at, last.event) && log == Logged(l, m, s, last.event)
  }

  // What the log says of a job

  function Waited(o: Options, n: nat, f: Failure): nat {
    Max(f.retryAfter, Min(o.maxDelay, o.baseDelay * Power2(n)) + f.jitter)
  }

  /** The n-th attempt's error is the last: it hit a quota, is not retryable, or used up the attempts. */
  predicate LastError(o: Options, n: nat, f: Failure) { f.hardQuota || !f.retryable || n >= o.maxRetries }

  /** An attempt that was followed by another one: its error was to be retried, and it was waited for. */
  predicate Retried(o: Options, n: nat, x: Try, next: Try) {
    && x.end.Some? && x.end.value.Failed? && !LastError(o, n, x.end.value.failure)
    && next.begun >= x.end.value.at + Waited(o, n, x.end.value.failure)
  }

  /** A job and its attempts agree. */
  predicate Tracked(o: Options, s: Snapshot, id: nat, l: seq<Try>)
    requires Known(s) && id < |s.metas|
  {
    && |l| == s.attempts[id] <= o.maxRetries + 1
    && (forall k :: 0 <= k < |l| - 1 ==> Retried(o, k, l[k], l[k + 1]))
    && if l == [] then id !in s.running && (s.results[id] == [] || s.results[id] == [Rejected])
       else
         var n, end := |l| - 1, l[|l| - 1].end;
         if end.None? then id in s.running && s.running[id] == Attempting(n) && s.results[id] == []
         else if end.value.Succeeded? then !InProgress(s, id) && s.results[id] == [Resolved]
         else if LastError(o, n, end.value.failure) then !InProgress(s, id) && s.results[id] == [Rejected]
         else
           && id in s.running && s.running[id] == Backoff(n, end.value.at + Waited(o, n, end.value.failure))
           && s.results[id] == []
  }

  // How an event moves a job

  /** The job is left as it is. */
  predicate Stays(s: Snapshot, t: Snapshot, id: nat)
    requires Known(s) && Known(t) && id < |t.metas|
  {
    && id < |s.metas| && t.attempts[id] == s.attempts[id] && t.results[id] == s.results[id]
    && (InProgress(s, id) <==> InProgress(t, id)) && (InProgress(s, id) ==> t.running[id] == s.running[id])
    && (id in t.running ==> id in s.running)
  }

  /** It is turned away before it started, or comes in new. */
  predicate Refused(s: Snapshot, t: Snapshot, id: nat)
    requires Known(s) && Known(t) && id < |t.metas|
  {
    && t.attempts[id] == 0 && id !in t.running && (t.results[id] == [Rejected] || t.results[id] == [])
    && (id < |s.metas| ==> s.attempts[id] == 0)
  }

  /** It begins its first attempt, or the next one once its wait is over. */
  predicate Begins(s: Snapshot, t: Snapshot, id: nat)
    requires Known(s) && Known(t) && id < |t.metas|
  {
    && id < |s.metas| && t.attempts[id] == s.attempts[id] + 1 && t.results[id] == s.results[id] == []
    && id in t.running && t.running[id] == Attempting(s.attempts[id])
    && (s.attempts[id] > 0 ==> id in s.running && s.running[id].Backoff? && s.running[id].due <= s.now)
  }

  /** Its attempt ends. */
  predicate Ends(o: Options, s: Snapshot, t: Snapshot, id: nat, e: Event)
    requires Known(s) && Known(t) && id < |t.metas|
  {
    && id < |s.metas| && t.attempts[id] == s.attempts[id] && s.results[id] == []
    && id in s.running && s.running[id].Attempting? && id in t.running
    && (e == AttemptSucceeded(id) || (e.AttemptFailed? && e.id == id))
    && var n := s.running[id].attempt;
       if e.AttemptSucceeded? then t.running[id] == Leaving && t.results[id] == [Resolved]
       else if LastError(o, n, e.failure) then t.running[id] == Leaving && t.results[id] == [Rejected]
       else t.running[id] == Backoff(n, s.now + Waited(o, n, e.failure)) && t.results[id] == []
  }

  predicate Moved(o: Options, s: Snapshot, t: Snapshot, id: nat, e: Event)
    requires Known(s) && Known(t) && id < |t.metas|
  {
    || (Stays(s, t, id) && !(id in s.running && s.running[id].Attempting?
                             && (e == AttemptSucceeded(id) || (e.AttemptFailed? && e.id == id))))
    || Refused(s, t, id)
    || (Begins(s, t, id) && !e.AttemptSucceeded? && !e.AttemptFailed?)
    || Ends(o, s, t, id, e)
  }

  lemma ScheduleMoves(o: Options, s: Snapshot, meta: Meta, id: nat)
    requires Inv(o, s) && Known(s) && JobsKnown(s) && id < |DoSchedule(o, s, meta).metas|
    ensures Known(DoSchedule(o, s, meta)) && Moved(o, s, DoSchedule(o, s, meta), id, Schedule(meta))
  {
    hide Record, Balanced, SumOf, StartsOk, QuotaOk, RestoresOk, AttemptsOk, QueueDistinct, JobOk;
  }

  lemma PumpTimerMoves(o: Options, s: Snapshot, id: nat)
    requires Inv(o, s) && Known(s) && JobsKnown(s) && id < |DoPumpTimer(o, s).metas|
    ensures Known(DoPumpTimer(o, s)) && Moved(o, s, DoPumpTimer(o, s), id, PumpTimer)
  {
    hide Record, Balanced, SumOf, StartsOk, QuotaOk, RestoresOk, AttemptOk, QueueDistinct, JobOk, PumpWait;
    if |s.queue| > 0 { HeadUnstarted(o, s, s.queue[0]); }
  }

  lemma QuotaMoves(o: Options, s: Snapshot, id: nat, k: nat, f: Failure)
    requires Inv(o, s) && Known(s) && JobsKnown(s) && id in s.running && s.running[id].Attempting? && k < |s.metas|
    requires f.hardQuota
    ensures var t := DoFailure(o, s, id, s.running[id].attempt, f);
            Known(t) && |t.metas| == |s.metas| && Moved(o, s, t, k, AttemptFailed(id, f))
  {
    hide Record, Balanced, SumOf, StartsOk, RestoresOk, RejectAll, ErrorsNoted, JobOk, AttemptOk;
    InProgressFacts(o, s, id);
    ErrorsBalanced(s.metrics, s.metas[id], f);
    var c := s.(metrics := ErrorsNoted(s.metrics, s.metas[id], f));
    RecordBalanced(c.metrics, s.metas[id], HardQuota);
    var h := StartCooldown(o, c);
    var m := Settle(Noted(h, s.metas[id], HardQuota), id, Rejected).(queue := []);
    RejectAllKeeps(o, m, s.queue);
    if k in s.queue { HeadUnstarted(o, s, k); }
  }

  lemma FailureMoves(o: Options, s: Snapshot, id: nat, k: nat, f: Failure)
    requires Inv(o, s) && Known(s) && JobsKnown(s) && id in s.running && s.running[id].Attempting? && k < |s.metas|
    ensures var t := DoFailure(o, s, id, s.running[id].attempt, f);
            Known(t) && |t.metas| == |s.metas| && Moved(o, s, t, k, AttemptFailed(id, f))
  {
    hide Record, Balanced, SumOf, StartsOk, RestoresOk, QuotaHit, ErrorsNoted, JobOk, AttemptOk;
    if f.hardQuota { QuotaMoves(o, s, id, k, f); } else { InProgressFacts(o, s, id); }
  }

  lemma OtherMoves(o: Options, s: Snapshot, e: Event, id: nat)
    requires Inv(o, s) && Known(s) && JobsKnown(s) && id < |s.metas|
    requires !e.Schedule? && !e.PumpTimer? && !e.AttemptFailed?
    ensures var t := Handle(o, s, e);
            Known(t) && |t.metas| == |s.metas| && Moved(o, s, t, id, e)
  {
    hide Record, Balanced, SumOf, StartsOk, QuotaOk, RestoresOk, AttemptOk, QueueDistinct, JobOk, PumpWait;
    if id in s.running && !s.running[id].Leaving? { InProgressFacts(o, s, id); }
  }

  lemma HandleMoves(o: Options, s: Snapshot, e: Event, id: nat)
    requires Inv(o, s) && Known(s) && JobsKnown(s) && id < |Handle(o, s, e).metas|
    ensures Known(Handle(o, s, e)) && Moved(o, s, Handle(o, s, e), id, e)
  {
    hide Inv, Moved, DoSchedule, DoPumpTimer, DoFailure, DoSuccess, BeginAttempt, DoFinish, DoRestore, Expire;
    HandleKnown(o, s, e);
    match e
    case Schedule(meta) => ScheduleMoves(o, s, meta, id);
    case PumpTimer =>
      if s.pumpDue.Some? && s.pumpDue.value <= s.now { PumpTimerMoves(o, s, id); } else { Unmoved(o, s, id, e); }
    case AttemptFailed(k, f) =>
      if k in s.running && s.running[k].Attempting? {
        FailureNumber(o, s, k, f);
        FailureMoves(o, s, k, id, f);
      } else {
        Unmoved(o, s, id, e);
      }
    case _ =>
      SameNumber(o, s, e);
      OtherMoves(o, s, e, id);
  }

  lemma FailureNumber(o: Options, s: Snapshot, id: nat, f: Failure)
    requires Known(s) && JobsKnown(s) && id in s.running && s.running[id].Attempting?
    ensures |DoFailure(o, s, id, s.running[id].attempt, f).metas| == |s.metas|
  {
    hide Record, ErrorsNoted, RetryDelay, RejectAll;
  }

  lemma SameNumber(o: Options, s: Snapshot, e: Event)
    requires Known(s) && JobsKnown(s) && !e.Schedule? && !e.PumpTimer? && !e.AttemptFailed?
    ensures |Handle(o, s, e).metas| == |s.metas|
  {
    hide Record, PumpWait;
  }

  lemma Unmoved(o: Options, s: Snapshot, id: nat, e: Event)
    requires Known(s) && id < |s.metas|
    requires e.PumpTimer? || (e.AttemptFailed? && !(e.id in s.running && s.running[e.id].Attempting?))
    ensures Moved(o, s, s, id, e)
  {
  }

  /** A job and its log still agree after the event that moved it. */
  lemma TrackedKept(o: Options, m: Snapshot, s: Snapshot, t: Snapshot, id: nat, e: Event, l: seq<Try>)
    requires Known(m) && Known(s) && Known(t) && id < |t.metas| && m.attempts == s.attempts && t.now == s.now
    requires id < |s.metas| ==> Tracked(o, s, id, l)
    requires id >= |s.metas| ==> l == []
    requires Moved(o, s, t, id, e)
    requires t.attempts[id] <= o.maxRetries + 1
    ensures Tracked(o, t, id, Observed(l, id, m, t, e))
  {
    hide Waited;
  }

  lemma {:induction false} RecordedInv(o: Options, events: seq<Timed>, s: Snapshot, log: seq<seq<Try>>)
    requires OptionsOk(o) && Recorded(o, events, s, log)
    ensures Inv(o, s) && Reaches(o, events, s)
    decreases |events|
  {
    hide Inv, Step, Logged;
    if |events| == 0 {
      InitialInv(o);
    } else {
      var last := events[|events| - 1];
      var m, l :| Recorded(o, events[..|events| - 1], m, l) && Known(m) && JobsKnown(m)
                  && s == Step(o, m, last.at, last.event) && log == Logged(l, m, s, last.event);
      RecordedInv(o, events[..|events| - 1], m, l);
      StepKeeps(o, m, last.at, last.event);
    }
  }

  /** Every run can be recorded. */
  lemma {:induction false} EveryRunRecorded(o: Options, events: seq<Timed>, s: Snapshot) returns (log: seq<seq<Try>>)
    requires Reaches(o, events, s)
    ensures Recorded(o, events, s, log)
    decreases |events|
  {
    hide Step, Logged;
    if |events| == 0 {
      log := [];
    } else {
      var last := events[|events| - 1];
      var m :| Reaches(o, events[..|events| - 1], m) && Known(m) && JobsKnown(m)
               && s == Step(o, m, last.at, last.event);
      var l := EveryRunRecorded(o, events[..|events| - 1], m);
      log := Logged(l, m, s, last.event);
    }
  }

  ghost predicate AllTracked(o: Options, s: Snapshot, log: seq<seq<Try>>) {
    Known(s) && |log| == |s.metas| && forall id :: 0 <= id < |s.metas| ==> Tracked(o, s, id, log[id])
  }

  lemma StepTracked(o: Options, m: Snapshot, t: nat, e: Event, l: seq<seq<Try>>)
    requires OptionsOk(o) && Inv(o, m) && Known(m) && JobsKnown(m) && AllTracked(o, m, l)
    ensures var s := Step(o, m, t, e); AllTracked(o, s, Logged(l, m, s, e))
  {
    hide Inv, Handle, Moved, Tracked, Observed, OptionsOk;
    var c := m.(now := Max(m.now, t));
    var s := Handle(o, c, e);
    TimeKeeps(o, m, t);
    InvJobs(o, c);
    HandleKnown(o, c, e);
    StepKeeps(o, m, t, e);
    HandleNow(o, c, e);
    MoreJobs(o, c, e);
    var log := Logged(l, m, s, e);
    forall id | 0 <= id < |s.metas| ensures Tracked(o, s, id, log[id]) {
      HandleMoves(o, c, e, id);
      if id < |m.metas| { SameTracked(o, m, c, id, l[id]); }
      InvAttempts(o, s, id);
      TrackedKept(o, m, c, s, id, e, if id < |l| then l[id] else []);
    }
  }

  lemma InvAttempts(o: Options, s: Snapshot, id: nat)
    requires Inv(o, s) && id < |s.metas|
    ensures Known(s) && s.attempts[id] <= o.maxRetries + 1
  {
    hide Balanced, JobOk;
    assert AttemptOk(o, s, id);
  }

  lemma SameTracked(o: Options, s: Snapshot, t: Snapshot, id: nat, l: seq<Try>)
    requires Known(s) && t == s.(now := t.now) && id < |s.metas| && Tracked(o, s, id, l)
    ensures Tracked(o, t, id, l)
  {
    hide Waited;
  }

  lemma HandleNow(o: Options, s: Snapshot, e: Event)
    requires Known(s) && JobsKnown(s)
    ensures Handle(o, s, e).now == s.now
  {
    hide Record, PumpWait, RetryDelay, ErrorsNoted, RejectAll;
  }

  lemma MoreJobs(o: Options, s: Snapshot, e: Event)
    requires Known(s) && JobsKnown(s)
    ensures |s.metas| <= |Handle(o, s, e).metas|
  {
    hide Record, PumpWait, RetryDelay, ErrorsNoted, RejectAll;
  }

  lemma {:induction false} RecordedTracked(o: Options, events: seq<Timed>, s: Snapshot, log: seq<seq<Try>>)
    requires OptionsOk(o) && Recorded(o, events, s, log)
    ensures AllTracked(o, s, log)
    decreases |events|
  {
    hide Inv, Step, Logged, Tracked;
    if |events| > 0 {
      var last := events[|events| - 1];
      var m, l :| Recorded(o, events[..|events| - 1], m, l) && Known(m) && JobsKnown(m)
                  && s == Step(o, m, last.at, last.event) && log == Logged(l, m, s, last.event);
      RecordedInv(o, events[..|events| - 1], m, l);
      RecordedTracked(o, events[..|events| - 1], m, l);
      StepTracked(o, m, last.at, last.event, l);
    }
  }

  // Main results

  /** How a job's last attempt ended. */
  predicate LastSucceeded(l: seq<Try>) { l != [] && l[|l| - 1].end == Some(Succeeded) }

  predicate LastFailed(l: seq<Try>) { l != [] && l[|l| - 1].end.Some? && l[|l| - 1].end.value.Failed? }

  function LastFailure(l: seq<Try>): Failure
    requires LastFailed(l)
  {
    l[|l| - 1].end.value.failure
  }

  /** An attempt failed with a retryable error, and the next waited for the server and for the capped backoff. */
  predicate WasRetried(o: Options, k: nat, x: Try, next: Try) {
    && x.end.Some? && x.end.value.Failed?
    && var f := x.end.value.failure;
    && f.retryable && !f.hardQuota && next.begun >= x.end.value.at + f.retryAfter
    && next.begun >= x.end.value.at + Min(o.maxDelay, o.baseDelay * Power2(k))
  }

  lemma RetriedMeans(o: Options, k: nat, x: Try, next: Try)
    requires Retried(o, k, x, next)
    ensures WasRetried(o, k, x, next)
  {
    hide Power2;
  }

  /**
   Over any run: a job is resolved exactly when its last attempt succeeded; once started it is
   rejected exactly when its last attempt met a quota error, an error that is not retryable, or was the
   last one allowed; and every earlier attempt failed with a retryable error and was followed by the next
   no sooner than the longer of the server's wait and the capped exponential one.
  */
  lemma JobOutcome(raw: RawOptions, events: seq<Timed>, s: Snapshot, log: seq<seq<Try>>, id: nat)
    requires Recorded(OptionsOf(raw), events, s, log) && id < |s.metas|
    ensures |log| == |s.metas| == |s.results| == |s.attempts| && |log[id]| == s.attempts[id]
    ensures var o, l := OptionsOf(raw), log[id];
            && (s.results[id] == [Resolved] <==> LastSucceeded(l))
            && (l == [] ==> s.results[id] == [] || s.results[id] == [Rejected])
            && (l != [] ==>
                  (s.results[id] == [Rejected] <==>
                     && LastFailed(l)
                     && (LastFailure(l).hardQuota || !LastFailure(l).retryable || |l| == o.maxRetries + 1)))
            && forall k :: 0 <= k < |l| - 1 ==> WasRetried(o, k, l[k], l[k + 1])
    ensures var o, l := OptionsOf(raw), log[id];
            id in s.running && s.running[id].Backoff? ==>
              && LastFailed(l) && LastFailure(l).retryable && !LastFailure(l).hardQuota && |l| <= o.maxRetries
              && var x := l[|l| - 1].end.value;
              s.running[id].due == x.at + Max(x.failure.retryAfter,
                                              Min(o.maxDelay, o.baseDelay * Power2(|l| - 1)) + x.failure.jitter)
  {
    hide Recorded, Power2, OptionsOf, Retried;
    var o := OptionsOf(raw);
    RecordedTracked(o, events, s, log);
    var l := log[id];
    assert Tracked(o, s, id, l);
    forall k | 0 <= k < |l| - 1 ensures WasRetried(o, k, l[k], l[k + 1]) { RetriedMeans(o, k, l[k], l[k + 1]); }
  }
}
