/**
 The RPC scheduler: a queue, timers, a quota cooldown and a retry loop, as steps over events
 that the runtime may interleave in any way.
*/
module Scheduler {
  import opened Text

  datatype Options = Options(concurrency: nat, minInterval: nat, maxRetries: nat, baseDelay: nat,
                             maxDelay: nat, quotaCooldown: nat)

  /** What a caller may pass; missing options take their defaults. */
  datatype RawOptions = RawOptions(
    concurrency: Option<int>, minInterval: Option<int>, maxRetries: Option<int>, baseDelay: Option<int>,
    maxDelay: Option<int>, quotaCooldown: Option<int>)

  function Max(a: int, b: int): int { if a < b then b else a }
  function Min(a: int, b: int): int { if a < b then a else b }
  function Given(o: Option<int>, default: int): int { if o.Some? then o.value else default }

  function OptionsOf(raw: RawOptions): (o: Options)
    ensures OptionsOk(o)
  {
    var base := Max(25, Given(raw.baseDelay, 500));
    Options(Max(1, Min(Given(raw.concurrency, 1), 2)), Max(0, Given(raw.minInterval, 2400)),
            Max(0, Min(Given(raw.maxRetries, 3), 5)), base, Max(base, Given(raw.maxDelay, 15000)),
            Max(60000, Given(raw.quotaCooldown, 3600000)))
  }

  /** An option in its range is kept as it is, and one out of range is moved to the nearest end. */
  lemma OptionsKept(raw: RawOptions)
    ensures var o := OptionsOf(raw);
            && (raw.concurrency.Some? && 1 <= raw.concurrency.value <= 2 ==> o.concurrency == raw.concurrency.value)
            && (raw.concurrency.Some? && raw.concurrency.value > 2 ==> o.concurrency == 2)
            && (raw.minInterval.Some? && raw.minInterval.value >= 0 ==> o.minInterval == raw.minInterval.value)
            && (raw.maxRetries.Some? && 0 <= raw.maxRetries.value <= 5 ==> o.maxRetries == raw.maxRetries.value)
            && (raw.maxRetries.Some? && raw.maxRetries.value > 5 ==> o.maxRetries == 5)
            && (raw.baseDelay.Some? && raw.baseDelay.value >= 25 ==> o.baseDelay == raw.baseDelay.value)
            && (raw.maxDelay.Some? && raw.maxDelay.value >= o.baseDelay ==> o.maxDelay == raw.maxDelay.value)
            && (raw.maxDelay.Some? && raw.maxDelay.value < o.baseDelay ==> o.maxDelay == o.baseDelay)
            && (raw.quotaCooldown.Some? && raw.quotaCooldown.value >= 60000 ==>
                  o.quotaCooldown == raw.quotaCooldown.value)
    ensures OptionsOf(RawOptions(None, None, None, None, None, None)) == Options(1, 2400, 3, 500, 15000, 3600000)
  {
  }

  predicate OptionsOk(o: Options) {
    1 <= o.concurrency <= 2 && o.maxRetries <= 5 && 25 <= o.baseDelay <= o.maxDelay && o.quotaCooldown >= 60000
  }

  // Metrics

  datatype Meta = Meta(subsystem: Option<string>, method_: Option<string>)

  datatype Field = Total | Success | RateLimited | ServerErrors | Retries | Suppressed | HardQuota

  datatype Bucket = Bucket(total: nat, success: nat, rateLimited: nat, serverErrors: nat, retries: nat,
                           suppressed: nat, hardQuota: nat)

  datatype Metrics = Metrics(totals: Bucket, bySubsystem: map<string, Bucket>, byMethod: map<string, Bucket>)

  const EMPTY := Bucket(0, 0, 0, 0, 0, 0, 0)

  function Get(b: Bucket, f: Field): nat {
    match f
    case Total => b.total
    case Success => b.success
    case RateLimited => b.rateLimited
    case ServerErrors => b.serverErrors
    case Retries => b.retries
    case Suppressed => b.suppressed
    case HardQuota => b.hardQuota
  }

  function Bump(b: Bucket, f: Field): Bucket {
    match f
    case Total => b.(total := b.total + 1)
    case Success => b.(success := b.success + 1)
    case RateLimited => b.(rateLimited := b.rateLimited + 1)
    case ServerErrors => b.(serverErrors := b.serverErrors + 1)
    case Retries => b.(retries := b.retries + 1)
    case Suppressed => b.(suppressed := b.suppressed + 1)
    case HardQuota => b.(hardQuota := b.hardQuota + 1)
  }

  function SubsystemOf(m: Meta): string { if m.subsystem.Some? then m.subsystem.value else "unspecified" }
  function MethodOf(m: Meta): string { if m.method_.Some? then m.method_.value else "unknown" }

  function BumpIn(buckets: map<string, Bucket>, key: string, f: Field): map<string, Bucket> {
    buckets[key := Bump(if key in buckets then buckets[key] else EMPTY, f)]
  }

  function Record(m: Metrics, meta: Meta, f: Field): Metrics {
    Metrics(Bump(m.totals, f), BumpIn(m.bySubsystem, SubsystemOf(meta), f), BumpIn(m.byMethod, MethodOf(meta), f))
  }

  function RecordIf(m: Metrics, meta: Meta, f: Field, on: bool): Metrics {
    if on then Record(m, meta, f) else m
  }

  // States

  /** A classified error of one attempt; the classification is an oracle. */
  datatype Failure = Failure(rateLimited: bool, serverError: bool, hardQuota: bool, retryable: bool,
                             retryAfter: nat, jitter: nat)

  /** A started job: in an attempt, waiting for the next, or settled and about to free its slot. */
  datatype Phase = Attempting(attempt: nat) | Backoff(attempt: nat, due: nat) | Leaving

  datatype Result = Resolved | Rejected

  /** When a job started, and how many quota errors had been seen by then. */
  datatype Start = Start(time: nat, hitsBefore: nat)

  /** A cooldown restored from outside, and how many starts and quota errors came before it. */
  datatype Restored = Restored(until: nat, startsBefore: nat, hitsBefore: nat)

  /**
   Jobs are numbered in the order they were scheduled. The last five fields only record what
   happened to each job, the starts, the quota errors and the restored cooldowns; no step reads
   them.
  */
  datatype Snapshot = Snapshot(
    now: nat, queue: seq<nat>, running: map<nat, Phase>, active: nat, lastStarted: nat,
    pumpDue: Option<nat>, cooldown: Option<nat>, metas: seq<Meta>, metrics: Metrics,
    results: seq<seq<Result>>, attempts: seq<nat>, starts: seq<Start>, hits: seq<nat>,
    restores: seq<Restored>)

  datatype Event =
    | Schedule(meta: Meta)
    | PumpTimer
    | AttemptSucceeded(id: nat)
    | AttemptFailed(id: nat, failure: Failure)
    | RetryTimer(id: nat)
    | Finished(id: nat)
    | RestoreCooldown(until: nat)
    | AskCooldown

  function Initial(): Snapshot {
    Snapshot(0, [], map[], 0, 0, None, None, [], Metrics(EMPTY, map[], map[]), [], [], [], [], [])
  }

  /** Asking whether the cooldown is on forgets one that has passed. */
  function Expire(s: Snapshot): (t: Snapshot)
    ensures t == s.(cooldown := t.cooldown)
  {
    if s.cooldown.Some? && s.cooldown.value <= s.now then s.(cooldown := None) else s
  }

  function PumpWait(o: Options, s: Snapshot): nat { Max(0, o.minInterval - (s.now - s.lastStarted)) }

  function Pump(o: Options, s: Snapshot): Snapshot {
    if s.pumpDue.Some? || s.active >= o.concurrency || |s.queue| == 0 then s
    else s.(pumpDue := Some(s.now + PumpWait(o, s)))
  }

  function Noted(s: Snapshot, meta: Meta, f: Field): (t: Snapshot)
    ensures t == s.(metrics := t.metrics)
  {
    s.(metrics := Record(s.metrics, meta, f))
  }

  function Settle(s: Snapshot, id: nat, r: Result): (t: Snapshot)
    requires id < |s.results|
    ensures t == s.(results := t.results) && |t.results| == |s.results|
  {
    s.(results := s.results[id := s.results[id] + [r]])
  }

  predicate Known(s: Snapshot) { |s.results| == |s.metas| == |s.attempts| }

  function Enroll(s: Snapshot, meta: Meta): (t: Snapshot)
    requires Known(s)
    ensures Known(t) && |t.metas| == |s.metas| + 1 && t.cooldown == s.cooldown && t.queue == s.queue
  {
    s.(metas := s.metas + [meta], results := s.results + [[]], attempts := s.attempts + [0])
  }

  function DoSchedule(o: Options, s: Snapshot, meta: Meta): Snapshot
    requires Known(s)
  {
    var id := |s.metas|;
    var e := Enroll(Expire(s), meta);
    if e.cooldown.Some? then Reject(e, id) else Pump(o, e.(queue := e.queue + [id]))
  }

  function Reject(s: Snapshot, id: nat): Snapshot
    requires Known(s) && id < |s.metas|
    ensures Known(Reject(s, id))
  {
    Settle(Noted(s, s.metas[id], Suppressed), id, Rejected)
  }

  function BeginAttempt(s: Snapshot, id: nat, n: nat): Snapshot
    requires Known(s) && id < |s.metas|
  {
    Noted(s, s.metas[id], Total).(running := s.running[id := Attempting(n)],
                                  attempts := s.attempts[id := s.attempts[id] + 1])
  }

  function StartJob(s: Snapshot, id: nat): Snapshot
    requires Known(s) && id < |s.metas|
  {
    BeginAttempt(s.(active := s.active + 1, lastStarted := s.now,
                    starts := s.starts + [Start(s.now, |s.hits|)]), id, 0)
  }

  function DoPumpTimer(o: Options, s: Snapshot): Snapshot
    requires Known(s) && forall i :: 0 <= i < |s.queue| ==> s.queue[i] < |s.metas|
  {
    var p := s.(pumpDue := None);
    if |s.queue| == 0 then p
    else
      var id := s.queue[0];
      var q := Expire(p.(queue := s.queue[1..]));
      if q.cooldown.Some? then Pump(o, Reject(q, id))
      else StartJob(q, id)
  }

  function DoSuccess(s: Snapshot, id: nat): Snapshot
    requires Known(s) && id < |s.metas|
  {
    Noted(Settle(s, id, Resolved), s.metas[id], Success).(running := s.running[id := Leaving])
  }

  /** All waiting jobs are turned away together. */
  function RejectAll(s: Snapshot, ids: seq<nat>): (t: Snapshot)
    requires Known(s) && forall i :: 0 <= i < |ids| ==> ids[i] < |s.metas|
    ensures Known(t) && t == s.(metrics := t.metrics, results := t.results)
    decreases |ids|
  {
    if |ids| == 0 then s else RejectAll(Reject(s, ids[0]), ids[1..])
  }

  function Power2(n: nat): nat { if n == 0 then 1 else 2 * Power2(n - 1) }

  function RetryDelay(o: Options, n: nat, f: Failure): nat {
    Max(f.retryAfter, Min(o.maxDelay, o.baseDelay * Power2(n)) + f.jitter)
  }

  function ErrorsNoted(m: Metrics, meta: Meta, f: Failure): Metrics {
    RecordIf(RecordIf(m, meta, RateLimited, f.rateLimited), meta, ServerErrors, f.serverError)
  }

  function StartCooldown(o: Options, s: Snapshot): (t: Snapshot)
    ensures t == s.(cooldown := t.cooldown, hits := t.hits)
  {
    s.(cooldown := Some(s.now + o.quotaCooldown), hits := s.hits + [s.now])
  }

  /** A settled job keeps its slot until its promise has run. */
  function Leave(s: Snapshot, id: nat): (t: Snapshot)
    ensures t == s.(running := t.running)
  {
    s.(running := s.running[id := Leaving])
  }

  /** A quota error starts the cooldown and empties the queue. */
  function QuotaHit(o: Options, s: Snapshot, id: nat): Snapshot
    requires Known(s) && id < |s.metas| && forall i :: 0 <= i < |s.queue| ==> s.queue[i] < |s.metas|
  {
    var h := Settle(Noted(StartCooldown(o, s), s.metas[id], HardQuota), id, Rejected);
    Leave(RejectAll(h.(queue := []), h.queue), id)
  }

  function DoFailure(o: Options, s: Snapshot, id: nat, n: nat, f: Failure): Snapshot
    requires Known(s) && id < |s.metas| && forall i :: 0 <= i < |s.queue| ==> s.queue[i] < |s.metas|
  {
    var meta := s.metas[id];
    var c := s.(metrics := ErrorsNoted(s.metrics, meta, f));
    if f.hardQuota then QuotaHit(o, c, id)
    else if !f.retryable || n >= o.maxRetries then
      Settle(c, id, Rejected).(running := s.running[id := Leaving])
    else
      Noted(c, meta, Retries).(running := s.running[id := Backoff(n, s.now + RetryDelay(o, n, f))])
  }

  function DoFinish(o: Options, s: Snapshot, id: nat): Snapshot
    requires s.active > 0
  {
    Pump(o, s.(running := s.running - {id}, active := s.active - 1))
  }

  function DoRestore(s: Snapshot, until: nat): Snapshot {
    if until > s.now
    then s.(cooldown := Some(Max(if s.cooldown.Some? then s.cooldown.value else 0, until)),
            restores := s.restores + [Restored(until, |s.starts|, |s.hits|)])
    else s
  }

  /** One event; an event that cannot happen in this state changes nothing. */
  function Handle(o: Options, s: Snapshot, e: Event): Snapshot
    requires Known(s) && JobsKnown(s)
  {
    match e
    case Schedule(meta) => DoSchedule(o, s, meta)
    case PumpTimer => if s.pumpDue.Some? && s.pumpDue.value <= s.now then DoPumpTimer(o, s) else s
    case AttemptSucceeded(id) => if id in s.running && s.running[id].Attempting? then DoSuccess(s, id) else s
    case AttemptFailed(id, f) =>
      if id in s.running && s.running[id].Attempting? then DoFailure(o, s, id, s.running[id].attempt, f) else s
    case RetryTimer(id) =>
      if id in s.running && s.running[id].Backoff? && s.running[id].due <= s.now
      then BeginAttempt(s, id, s.running[id].attempt + 1) else s
    case Finished(id) =>
      if id in s.running && s.running[id].Leaving? && s.active > 0 then DoFinish(o, s, id) else s
    case RestoreCooldown(until) => DoRestore(s, until)
    case AskCooldown => Expire(s)
  }

  predicate JobsKnown(s: Snapshot) {
    && (forall i :: 0 <= i < |s.queue| ==> s.queue[i] < |s.metas|)
    && (forall id :: id in s.running ==> id < |s.metas|)
  }

  /** The clock never goes back. */
  function Step(o: Options, s: Snapshot, t: nat, e: Event): Snapshot
    requires Known(s) && JobsKnown(s)
  {
    Handle(o, s.(now := Max(s.now, t)), e)
  }

  /** Job numbers stay in range. */
  lemma HandleKnown(o: Options, s: Snapshot, e: Event)
    requires Known(s) && JobsKnown(s)
    ensures Known(Handle(o, s, e)) && JobsKnown(Handle(o, s, e))
  {
    hide Record, RetryDelay, ErrorsNoted, RejectAll, Expire, PumpWait;
  }

  /** The scheduler: the same steps, as its methods and callbacks update its fields. */
  class RpcScheduler {
    const options: Options
    var now: nat
    var queue: seq<nat>
    var running: map<nat, Phase>
    var active: nat
    var lastStartedAt: nat
    var pumpDue: Option<nat>
    var cooldownUntil: Option<nat>
    var metas: seq<Meta>
    var totals: Bucket
    var bySubsystem: map<string, Bucket>
    var byMethod: map<string, Bucket>
    ghost var results: seq<seq<Result>>
    ghost var attempts: seq<nat>
    ghost var starts: seq<Start>
    ghost var hits: seq<nat>
    ghost var restores: seq<Restored>

    ghost function State(): Snapshot
      reads this
    {
      Snapshot(now, queue, running, active, lastStartedAt, pumpDue, cooldownUntil, metas,
               Metrics(totals, bySubsystem, byMethod), results, attempts, starts, hits, restores)
    }

    ghost predicate Valid()
      reads this
    {
      Known(State()) && JobsKnown(State())
    }

    constructor (raw: RawOptions)
      ensures options == OptionsOf(raw) && State() == Initial() && Valid()
    {
      options := OptionsOf(raw);
      now, queue, running, active, lastStartedAt := 0, [], map[], 0, 0;
      pumpDue, cooldownUntil, metas := None, None, [];
      totals, bySubsystem, byMethod := EMPTY, map[], map[];
      results, attempts, starts, hits, restores := [], [], [], [], [];
    }

    method ClockAdvances(t: nat)
      requires Valid()
      modifies this`now
      ensures State() == old(State()).(now := Max(old(now), t)) && Valid()
    {
      now := Max(now, t);
    }

    method Note(meta: Meta, f: Field)
      modifies this`totals, this`bySubsystem, this`byMethod
      ensures State() == Noted(old(State()), meta, f)
    {
      hide Bump, SubsystemOf, MethodOf;
      totals := Bump(totals, f);
      var subsystem, name := SubsystemOf(meta), MethodOf(meta);
      var bucket := if subsystem in bySubsystem then bySubsystem[subsystem] else EMPTY;
      bySubsystem := bySubsystem[subsystem := Bump(bucket, f)];
      bucket := if name in byMethod then byMethod[name] else EMPTY;
      byMethod := byMethod[name := Bump(bucket, f)];
    }

    method IsHardQuotaCoolingDown() returns (on: bool)
      modifies this`cooldownUntil
      ensures State() == Expire(old(State())) && on == State().cooldown.Some?
    {
      if cooldownUntil.Some? && cooldownUntil.value <= now { cooldownUntil := None; }
      on := cooldownUntil.Some?;
    }

    method StartPump()
      modifies this`pumpDue
      ensures State() == Pump(options, old(State()))
    {
      if pumpDue.Some? || active >= options.concurrency || |queue| == 0 { return; }
      var wait := Max(0, options.minInterval - (now - lastStartedAt));
      pumpDue := Some(now + wait);
    }

    method ScheduleCall(meta: Meta)
      requires Valid()
      modifies this
      ensures State() == Handle(options, old(State()), Schedule(meta)) && Valid()
    {
      HandleKnown(options, State(), Schedule(meta));
      hide Reject, Pump, Expire, Enroll;
      var id := |metas|;
      var cooling := IsHardQuotaCoolingDown();
      Admit(meta);
      if cooling {
        RejectJob(id);
        return;
      }
      queue := queue + [id];
      StartPump();
    }

    method Admit(meta: Meta)
      requires Known(State())
      modifies this`metas, this`results, this`attempts
      ensures State() == Enroll(old(State()), meta)
    {
      metas := metas + [meta];
      results, attempts := results + [[]], attempts + [0];
    }

    method OnPumpTimer()
      requires Valid() && pumpDue.Some? && pumpDue.value <= now
      modifies this
      ensures State() == Handle(options, old(State()), PumpTimer) && Valid()
    {
      HandleKnown(options, State(), PumpTimer);
      hide Reject, StartJob, Pump, Expire;
      pumpDue := None;
      if |queue| == 0 { return; }
      var id := queue[0];
      queue := queue[1..];
      var cooling := IsHardQuotaCoolingDown();
      if cooling {
        RejectJob(id);
        StartPump();
        return;
      }
      Launch(id);
    }

    method Launch(id: nat)
      requires Known(State()) && id < |metas|
      modifies this`active, this`lastStartedAt, this`starts, this`totals, this`bySubsystem, this`byMethod,
               this`running, this`attempts
      ensures State() == StartJob(old(State()), id)
    {
      hide BeginAttempt;
      active := active + 1;
      lastStartedAt := now;
      starts := starts + [Start(now, |hits|)];
      Attempt(id, 0);
    }

    /** A job turned away by the cooldown. */
    method RejectJob(id: nat)
      requires Known(State()) && id < |metas|
      modifies this`totals, this`bySubsystem, this`byMethod, this`results
      ensures State() == Reject(old(State()), id)
    {
      hide Record;
      Note(metas[id], Suppressed);
      results := results[id := results[id] + [Rejected]];
    }

    /** The top of the retry loop. */
    method Attempt(id: nat, attempt: nat)
      requires Known(State()) && id < |metas|
      modifies this`totals, this`bySubsystem, this`byMethod, this`running, this`attempts
      ensures State() == BeginAttempt(old(State()), id, attempt)
    {
      Note(metas[id], Total);
      running := running[id := Attempting(attempt)];
      attempts := attempts[id := attempts[id] + 1];
    }

    method OnSuccess(id: nat)
      requires Valid() && id in running && running[id].Attempting?
      modifies this
      ensures State() == Handle(options, old(State()), AttemptSucceeded(id)) && Valid()
    {
      HandleKnown(options, State(), AttemptSucceeded(id));
      results := results[id := results[id] + [Resolved]];
      Note(metas[id], Success);
      running := running[id := Leaving];
    }

    /** The catch block of the retry loop. */
    method OnFailure(id: nat, f: Failure)
      requires Valid() && id in running && running[id].Attempting?
      modifies this
      ensures State() == Handle(options, old(State()), AttemptFailed(id, f)) && Valid()
    {
      HandleKnown(options, State(), AttemptFailed(id, f));
      hide Record, Power2, RejectAll, RetryDelay, Noted, QuotaHit, Settle, ErrorsNoted;
      var meta, attempt := metas[id], running[id].attempt;
      NoteErrors(meta, f);
      if f.hardQuota {
        OnQuotaHit(id);
      } else if !f.retryable || attempt >= options.maxRetries {
        SettleJob(id, Rejected);
        running := running[id := Leaving];
      } else {
        Note(meta, Retries);
        running := running[id := Backoff(attempt, now + RetryDelay(options, attempt, f))];
      }
    }

    method NoteErrors(meta: Meta, f: Failure)
      modifies this`totals, this`bySubsystem, this`byMethod
      ensures State() == old(State()).(metrics := ErrorsNoted(old(State()).metrics, meta, f))
    {
      hide Record;
      if f.rateLimited { Note(meta, RateLimited); }
      if f.serverError { Note(meta, ServerErrors); }
    }

    /** A quota error: the cooldown starts, and every job waiting is turned away with this one. */
    method OnQuotaHit(id: nat)
      requires Valid() && id in running
      modifies this
      ensures State() == QuotaHit(options, old(State()), id)
    {
      hide Record, RejectAll, Noted, Settle, StartCooldown, Leave;
      BeginCooldown();
      Note(metas[id], HardQuota);
      SettleJob(id, Rejected);
      RejectQueued();
      LeaveSlot(id);
    }

    method BeginCooldown()
      modifies this`cooldownUntil, this`hits
      ensures State() == StartCooldown(options, old(State()))
    {
      cooldownUntil := Some(now + options.quotaCooldown);
      hits := hits + [now];
    }

    method LeaveSlot(id: nat)
      modifies this`running
      ensures State() == Leave(old(State()), id)
    {
      running := running[id := Leaving];
    }

    method SettleJob(id: nat, r: Result)
      requires Known(State()) && id < |metas|
      modifies this`results
      ensures State() == Settle(old(State()), id, r)
    {
      results := results[id := results[id] + [r]];
    }

    method RejectQueued()
      requires Valid()
      modifies this`queue, this`totals, this`bySubsystem, this`byMethod, this`results
      ensures State() == RejectAll(old(State()).(queue := []), old(queue))
    {
      hide Reject;
      var waiting := queue;
      queue := [];
      for i := 0 to |waiting|
        invariant Known(State()) && metas == old(metas) && queue == []
        invariant RejectAll(old(State()).(queue := []), waiting) == RejectAll(State(), waiting[i..])
      {
        assert waiting[i..][1..] == waiting[i + 1..];
        RejectJob(waiting[i]);
      }
    }

    method OnRetryTimer(id: nat)
      requires Valid() && id in running && running[id].Backoff? && running[id].due <= now
      modifies this
      ensures State() == Handle(options, old(State()), RetryTimer(id)) && Valid()
    {
      HandleKnown(options, State(), RetryTimer(id));
      Attempt(id, running[id].attempt + 1);
    }

    method OnFinished(id: nat)
      requires Valid() && id in running && running[id].Leaving? && active > 0
      modifies this
      ensures State() == Handle(options, old(State()), Finished(id)) && Valid()
    {
      HandleKnown(options, State(), Finished(id));
      running := running - {id};
      active := active - 1;
      StartPump();
    }

    method RestoreHardQuotaCooldown(until: nat)
      requires Valid()
      modifies this
      ensures State() == Handle(options, old(State()), RestoreCooldown(until)) && Valid()
    {
      HandleKnown(options, State(), RestoreCooldown(until));
      if until > now {
        cooldownUntil := Some(Max(if cooldownUntil.Some? then cooldownUntil.value else 0, until));
        restores := restores + [Restored(until, |starts|, |hits|)];
      }
    }

    /** The runtime lets time pass and delivers one event; one that is not due reaches no handler. */
    method OnEvent(t: nat, e: Event)
      requires Valid()
      modifies this
      ensures State() == Step(options, old(State()), t, e) && Valid()
    {
      hide DoSchedule, DoPumpTimer, DoSuccess, DoFailure, BeginAttempt, DoFinish, DoRestore, Expire;
      ClockAdvances(t);
      match e {
        case Schedule(meta) => ScheduleCall(meta);
        case PumpTimer => if pumpDue.Some? && pumpDue.value <= now { OnPumpTimer(); }
        case AttemptSucceeded(id) => if id in running && running[id].Attempting? { OnSuccess(id); }
        case AttemptFailed(id, f) => if id in running && running[id].Attempting? { OnFailure(id, f); }
        case RetryTimer(id) =>
          if id in running && running[id].Backoff? && running[id].due <= now { OnRetryTimer(id); }
        case Finished(id) => if id in running && running[id].Leaving? && active > 0 { OnFinished(id); }
        case RestoreCooldown(until) => RestoreHardQuotaCooldown(until);
        case AskCooldown => var on := IsHardQuotaCoolingDown();
      }
    }
  }
}
