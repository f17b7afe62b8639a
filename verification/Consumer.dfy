/** A consumer of callbacks that applies each callback id once. */
module Consumer {
  import opened Common
  import opened Text
  import opened Digests
  import R = Registry

  /** `last` holds the payload applied most recently. */
  datatype Probe = Probe(registry: Address, self: Address, last: Option<R.Message>,
                         lastId: Digest, callbackCount: nat, duplicateIgnored: nat,
                         processed: seq<Digest>)

  function Fresh(registry: Address, self: Address): Probe {
    Probe(registry, self, None, NoDigest, 0, 0, [])
  }

  /** The id in the message, or the recomputed one when the message carries none. */
  function IdOf(p: Probe, m: R.Message): Digest
    requires m.Callback?
  {
    if m.callbackId == NoDigest then CallbackDigest(m.requestId, m.resolutionId, p.self) else m.callbackId
  }

  function OnResult(p: Probe, sender: Address, m: R.Message): Option<Probe>
    requires m.Callback?
  {
    if sender != p.registry then None
    else
      var cid := IdOf(p, m);
      if cid in p.processed then Some(p.(duplicateIgnored := p.duplicateIgnored + 1))
      else Some(p.(processed := p.processed + [cid], last := Some(m), lastId := cid,
                   callbackCount := p.callbackCount + 1))
  }

  class ConsumerProbe {
    const registry: Address
    const self: Address
    var last: Option<R.Message>
    var lastId: Digest
    var callbackCount: nat
    var duplicateIgnored: nat
    var processed: seq<Digest>

    ghost function State(): Probe
      reads this
    {
      Probe(registry, self, last, lastId, callbackCount, duplicateIgnored, processed)
    }

    constructor (trusted: Address, own: Address)
      ensures State() == Fresh(trusted, own)
    {
      registry, self := trusted, own;
      last, lastId := None, NoDigest;
      callbackCount, duplicateIgnored, processed := 0, 0, [];
    }

    method OnEvidraResult(sender: Address, m: R.Message) returns (ok: bool)
      requires m.Callback?
      modifies this
      ensures var next := OnResult(old(State()), sender, m);
              && ok == next.Some?
              && State() == if ok then next.value else old(State())
    {
      if sender != registry { return false; }
      var cid := m.callbackId;
      if cid == NoDigest { cid := CallbackDigest(m.requestId, m.resolutionId, self); }
      if cid in processed {
        duplicateIgnored := duplicateIgnored + 1;
        return true;
      }
      processed := processed + [cid];
      last := Some(m);
      lastId := cid;
      callbackCount := callbackCount + 1;
      return true;
    }
  }

  // Any sequence of deliveries from the trusted registry

  predicate AllCallbacks(ms: seq<R.Message>) { forall m :: m in ms ==> m.Callback? }

  function Deliver(p: Probe, ms: seq<R.Message>): Probe
    requires AllCallbacks(ms)
    ensures Deliver(p, ms).registry == p.registry && Deliver(p, ms).self == p.self
  {
    if |ms| == 0 then p
    else OnResult(Deliver(p, ms[..|ms| - 1]), p.registry, ms[|ms| - 1]).value
  }

  function Ids(p: Probe, ms: seq<R.Message>): set<Digest>
    requires AllCallbacks(ms)
  {
    set m | m in ms :: IdOf(p, m)
  }

  /** The payloads that took effect, in order: those with an id not delivered before. */
  function Effects(p: Probe, ms: seq<R.Message>): (out: seq<R.Message>)
    requires AllCallbacks(ms)
  {
    if |ms| == 0 then []
    else
      var front, m := ms[..|ms| - 1], ms[|ms| - 1];
      Effects(p, front) + if IdOf(p, m) in Ids(p, front) then [] else [m]
  }

  lemma IdsSnoc(p: Probe, front: seq<R.Message>, m: R.Message)
    requires AllCallbacks(front) && m.Callback?
    ensures AllCallbacks(front + [m]) && Ids(p, front + [m]) == Ids(p, front) + {IdOf(p, m)}
  {
    hide IdOf;
    var ms := front + [m];
    assert m in ms && forall x :: x in front ==> x in ms;
  }

  /** The stored ids are those delivered, without repetition, and the counters add up. */
  lemma {:induction false} Counters(registry: Address, self: Address, ms: seq<R.Message>)
    requires AllCallbacks(ms)
    ensures var p := Fresh(registry, self);
            var q := Deliver(p, ms);
            && q.callbackCount == |q.processed| == |Ids(p, ms)|
            && q.callbackCount + q.duplicateIgnored == |ms|
            && (forall d :: d in q.processed <==> d in Ids(p, ms))
            && (forall i, j :: 0 <= i < j < |q.processed| ==> q.processed[i] != q.processed[j])
  {
    hide IdOf, Ids;
    var p := Fresh(registry, self);
    if |ms| == 0 {
      NoIds(p);
    } else {
      var front, m := ms[..|ms| - 1], ms[|ms| - 1];
      assert ms == front + [m];
      assert m in ms;
      Counters(registry, self, front);
      IdsSnoc(p, front, m);
      SameIdFor(p, Deliver(p, front), m);
      if IdOf(p, m) in Ids(p, front) { assert Ids(p, front) + {IdOf(p, m)} == Ids(p, front); }
    }
  }

  lemma NoIds(p: Probe)
    ensures Ids(p, []) == {}
  {
  }

  /** The stored ids are those of the applied payloads, in order. */
  lemma {:induction false} EffectIds(registry: Address, self: Address, ms: seq<R.Message>)
    requires AllCallbacks(ms)
    ensures var p := Fresh(registry, self);
            var out, q := Effects(p, ms), Deliver(p, ms);
            && |out| == |q.processed| && AllCallbacks(out)
            && (forall i :: 0 <= i < |out| ==> IdOf(p, out[i]) == q.processed[i])
            && (forall m :: m in out ==> m in ms)
            && q.last == (if out == [] then None else Some(out[|out| - 1]))
  {
    hide IdOf, Ids;
    if |ms| > 0 {
      var p := Fresh(registry, self);
      var front, m := ms[..|ms| - 1], ms[|ms| - 1];
      assert ms == front + [m];
      assert m in ms;
      EffectIds(registry, self, front);
      Counters(registry, self, front);
      SameIdFor(p, Deliver(p, front), m);
    }
  }

  /**
   However deliveries repeat: one effect per distinct id, and every accepted delivery is
   either applied or counted as a duplicate.
  */
  lemma ExactlyOnce(registry: Address, self: Address, ms: seq<R.Message>)
    requires AllCallbacks(ms)
    ensures var p := Fresh(registry, self);
            var q, out := Deliver(p, ms), Effects(p, ms);
            && q.callbackCount == |Ids(p, ms)| == |out|
            && q.callbackCount + q.duplicateIgnored == |ms|
            && AllCallbacks(out) && (forall m :: m in out ==> m in ms)
            && (forall i, j :: 0 <= i < j < |out| ==> IdOf(p, out[i]) != IdOf(p, out[j]))
            && (forall d :: d in Ids(p, ms) <==> d in Ids(p, out))
            && q.last == (if out == [] then None else Some(out[|out| - 1]))
  {
    hide IdOf, Deliver, Effects;
    var p := Fresh(registry, self);
    var out, q := Effects(p, ms), Deliver(p, ms);
    Counters(registry, self, ms);
    EffectIds(registry, self, ms);
    forall d | d in Ids(p, ms) ensures d in Ids(p, out) {
      var i :| 0 <= i < |q.processed| && q.processed[i] == d;
      assert IdOf(p, out[i]) == d && out[i] in out;
    }
  }

  lemma SameIdFor(p: Probe, q: Probe, m: R.Message)
    requires m.Callback? && p.self == q.self
    ensures IdOf(p, m) == IdOf(q, m)
  {
  }

  /** Deliveries with one id carry one payload. */
  predicate Agreeing(p: Probe, ms: seq<R.Message>)
    requires AllCallbacks(ms)
  {
    forall x, y :: x in ms && y in ms && IdOf(p, x) == IdOf(p, y) ==> x == y
  }

  /** Then every payload delivered takes effect, exactly once, whatever the order. */
  lemma {:induction false} EveryPayloadApplied(p: Probe, ms: seq<R.Message>)
    requires AllCallbacks(ms) && Agreeing(p, ms)
    ensures forall m :: m in ms <==> m in Effects(p, ms)
    ensures forall i, j :: 0 <= i < j < |Effects(p, ms)| ==> Effects(p, ms)[i] != Effects(p, ms)[j]
  {
    hide IdOf;
    if |ms| > 0 {
      var front, m := ms[..|ms| - 1], ms[|ms| - 1];
      assert ms == front + [m];
      assert m in ms && forall x :: x in front ==> x in ms;
      EveryPayloadApplied(p, front);
    }
  }
}
