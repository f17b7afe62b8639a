/** Immutable, versioned source policies. */
module PolicyRegistry {
  import opened Common
  import opened Text
  import opened Digests
  import opened SourceClasses

  const MAX_NAME := 128
  const MAX_RULES := 4096
  const MAX_POLICY_COUNTS := 12

  datatype PolicyError =
    | NotOwner | InvalidParam | PolicyExists | UnknownPolicy | BadClasses(parse: ParseError)

  datatype PolicyRecord = PolicyRecord(
    policyId: string, version: nat, name: string, active: bool,
    minPrimary: nat, minIndependent: nat, allowed: string, disallowed: string,
    crossCheck: bool, rules: string, hash: Digest, publishedAt: nat, deprecated: bool)

  datatype PolicyEvent =
    | PolicyPublished(policyId: string, version: nat, hash: Digest)
    | PolicyDeprecated(policyId: string, version: nat, hash: Digest)

  datatype Book = Book(
    owner: Address, policies: map<string, PolicyRecord>, latest: map<string, nat>,
    policyCount: nat, events: seq<PolicyEvent>)

  datatype PublishArgs = PublishArgs(
    policyId: string, version: nat, name: string, minPrimary: nat, minIndependent: nat,
    allowed: string, disallowed: string, crossCheck: bool, rules: string)

  datatype Tx = Committed(book: Book, hash: Digest) | Reverted(error: PolicyError)

  datatype Call =
    | Publish(sender: Address, now: nat, args: PublishArgs)
    | Deprecate(sender: Address, policyId: string, version: nat)

  // Canonical class lists

  datatype Lists = Lists(allowed: string, disallowed: string) | BadLists(error: ParseError)

  function ValidateClasses(allowed: string, disallowed: string, json: Json): Lists {
    match (StrictParse(allowed, json), StrictParse(disallowed, json))
    case (Rejected(e), _) => BadLists(e)
    case (_, Rejected(e)) => BadLists(e)
    case (Classes(a), Classes(d)) =>
      if exists c :: c in a && c in d then BadLists(ContradictoryPolicyClass)
      else Lists(ListText(a), ListText(d))
  }

  /** Both texts are the canonical texts of two duplicate-free lists with no common class. */
  ghost predicate CanonicalLists(allowed: string, disallowed: string) {
    exists a: seq<SourceClass>, d: seq<SourceClass> ::
      CanonicalOf(allowed, a) && CanonicalOf(disallowed, d) && (forall c :: c in a ==> c !in d)
  }

  predicate CanonicalOf(text: string, cs: seq<SourceClass>) {
    Distinct(cs) && text == ListText(cs)
  }

  /** Validation produces canonical texts, and validating those again changes nothing. */
  lemma ValidateCanonical(allowed: string, disallowed: string, json: Json)
    ensures var v := ValidateClasses(allowed, disallowed, json);
            v.Lists? ==> CanonicalLists(v.allowed, v.disallowed)
                         && ValidateClasses(v.allowed, v.disallowed, json) == v
    ensures ValidateClasses(Strip(allowed), Strip(disallowed), json)
            == ValidateClasses(allowed, disallowed, json)
  {
    hide StrictParse, Strip, ListText;
    StrictParseStrip(allowed, json);
    StrictParseStrip(disallowed, json);
    StrictParseDistinct(allowed, json);
    StrictParseDistinct(disallowed, json);
    var v := ValidateClasses(allowed, disallowed, json);
    if v.Lists? {
      var a, d := StrictParse(allowed, json).list, StrictParse(disallowed, json).list;
      CanonicalRoundTrip(a, json);
      CanonicalRoundTrip(d, json);
      assert CanonicalOf(v.allowed, a) && CanonicalOf(v.disallowed, d);
    }
  }

  // Hashing and storage keys

  function StorageKey(policyId: string, version: nat): string {
    policyId + "::" + Digits(version)
  }

  function LastColon(s: string): int {
    if s == "" then -1
    else if s[|s| - 1] == ':' then |s| - 1
    else LastColon(s[..|s| - 1])
  }

  lemma {:induction false} LastColonOf(p: string, a: string)
    requires forall i :: 0 <= i < |a| ==> a[i] != ':'
    ensures LastColon(p + "::" + a) == |p| + 1
  {
    var s := p + "::" + a;
    if a == "" {
      assert s[|s| - 1] == ':';
    } else {
      assert s[..|s| - 1] == p + "::" + a[..|a| - 1];
      LastColonOf(p, a[..|a| - 1]);
    }
  }

  /** Policy ids may hold the separator; the key still determines id and version. */
  lemma StorageKeyInjective(p: string, m: nat, q: string, n: nat)
    requires StorageKey(p, m) == StorageKey(q, n)
    ensures p == q && m == n
  {
    hide Digits, LastColon;
    var a, b, k := Digits(m), Digits(n), StorageKey(p, m);
    LastColonOf(p, a);
    LastColonOf(q, b);
    assert k[..|p|] == p && k[..|q|] == q;
    assert k[|p| + 2..] == a && k[|q| + 2..] == b;
    DigitsInjective(m, n);
  }

  function PolicyHash(a: PublishArgs, json: Json): Option<Digest> {
    match ValidateClasses(a.allowed, a.disallowed, json)
    case BadLists(_) => None
    case Lists(allowed, disallowed) =>
      Some(PolicyDigest(Norm(a.policyId), a.version, Norm(a.name), a.minPrimary,
                        a.minIndependent, allowed, disallowed, a.crossCheck, Strip(a.rules)))
  }

  /** The view that lets anyone recompute a policy hash from raw arguments. */
  function ComputePolicyHash(a: PublishArgs, json: Json): Option<Digest> {
    PolicyHash(a.(policyId := Strip(a.policyId)), json)
  }

  // Transactions

  function GetPolicy(b: Book, policyId: string, version: nat): Option<PolicyRecord> {
    var key := StorageKey(Strip(policyId), version);
    if key in b.policies then Some(b.policies[key]) else None
  }

  predicate GoodArgs(a: PublishArgs) {
    && 0 < |Strip(a.policyId)| <= 64 && a.version >= 1 && 0 < |Strip(a.name)| <= MAX_NAME
    && a.minPrimary <= MAX_POLICY_COUNTS && a.minIndependent <= MAX_POLICY_COUNTS
    && |Strip(a.allowed)| <= 512 && |Strip(a.disallowed)| <= 512 && |Strip(a.rules)| <= MAX_RULES
  }

  function PublishPolicy(b: Book, sender: Address, now: nat, a: PublishArgs, json: Json): Tx {
    var pid := Strip(a.policyId);
    var key := StorageKey(pid, a.version);
    var lists := ValidateClasses(Strip(a.allowed), Strip(a.disallowed), json);
    if sender != b.owner then Reverted(NotOwner)
    else if !GoodArgs(a) then Reverted(InvalidParam)
    else if key in b.policies then Reverted(PolicyExists)
    else if lists.BadLists? then Reverted(BadClasses(lists.error))
    else
      var stored := PublishArgs(pid, a.version, Strip(a.name), a.minPrimary, a.minIndependent,
                                lists.allowed, lists.disallowed, a.crossCheck, Strip(a.rules));
      match PolicyHash(stored, json)
      case None => Reverted(InvalidParam)
      case Some(hash) =>
        var rec := PolicyRecord(pid, a.version, stored.name, true, a.minPrimary, a.minIndependent,
                                lists.allowed, lists.disallowed, a.crossCheck, stored.rules,
                                hash, now, false);
        var newest := pid !in b.latest || a.version > b.latest[pid];
        Committed(b.(policies := b.policies[key := rec],
                     latest := if newest then b.latest[pid := a.version] else b.latest,
                     policyCount := b.policyCount + 1,
                     events := b.events + [PolicyPublished(pid, a.version, hash)]), hash)
  }

  function DeprecatePolicy(b: Book, sender: Address, policyId: string, version: nat): Tx {
    var pid := Strip(policyId);
    var key := StorageKey(pid, version);
    if sender != b.owner then Reverted(NotOwner)
    else if !(0 < |pid| <= 64) then Reverted(InvalidParam)
    else if key !in b.policies then Reverted(UnknownPolicy)
    else
      var rec := b.policies[key].(active := false, deprecated := true);
      Committed(b.(policies := b.policies[key := rec],
                   events := b.events + [PolicyDeprecated(pid, version, rec.hash)]), rec.hash)
  }

  function Step(b: Book, c: Call, json: Json): Book {
    var tx := match c
      case Publish(sender, now, args) => PublishPolicy(b, sender, now, args, json)
      case Deprecate(sender, policyId, version) => DeprecatePolicy(b, sender, policyId, version);
    if tx.Committed? then tx.book else b
  }

  function Run(b: Book, calls: seq<Call>, json: Json): Book {
    if |calls| == 0 then b else Step(Run(b, calls[..|calls| - 1], json), calls[|calls| - 1], json)
  }

  function Initial(owner: Address): Book { Book(owner, map[], map[], 0, []) }

  function Caller(c: Call): Address {
    match c case Publish(sender, _, _) => sender case Deprecate(sender, _, _) => sender
  }

  /** What the owner may publish. */
  predicate Publishable(a: PublishArgs, json: Json) {
    && 0 < |Strip(a.policyId)| <= 64 && a.version >= 1 && 0 < |Strip(a.name)| <= MAX_NAME
    && a.minPrimary <= MAX_POLICY_COUNTS && a.minIndependent <= MAX_POLICY_COUNTS
    && |Strip(a.allowed)| <= 512 && |Strip(a.disallowed)| <= 512 && |Strip(a.rules)| <= MAX_RULES
    && ValidateClasses(Strip(a.allowed), Strip(a.disallowed), json).Lists?
  }

  /**
   Only the owner changes the book: a new record appears exactly when the owner publishes a
   well-formed policy under a key not yet used, and it is active; an active one stops being so exactly
   when the owner deprecates it.
  */
  lemma WhoPublishes(b: Book, c: Call, json: Json, key: string)
    requires BookOk(b)
    ensures var t := Step(b, c, json);
            && (t != b ==> Caller(c) == b.owner) && t.owner == b.owner
            && (key !in b.policies && key in t.policies <==>
                  && c.Publish? && c.sender == b.owner && Publishable(c.args, json)
                  && key == StorageKey(Strip(c.args.policyId), c.args.version) && key !in b.policies)
            && (key in t.policies && key !in b.policies ==>
                  && t.policies[key].active && t.policies[key].publishedAt == c.now
                  && t.policies[key].minPrimary == c.args.minPrimary
                  && t.policies[key].minIndependent == c.args.minIndependent
                  && t.policies[key].crossCheck == c.args.crossCheck
                  && t.events == b.events + [PolicyPublished(Strip(c.args.policyId), c.args.version,
                                                             t.policies[key].hash)])
            && (key in b.policies ==>
                  && key in t.policies
                  && (b.policies[key].active && !t.policies[key].active <==>
                        && c.Deprecate? && c.sender == b.owner && 0 < |Strip(c.policyId)| <= 64
                        && b.policies[key].active && key == StorageKey(Strip(c.policyId), c.version)))
  {
    hide Strip, StorageKey, Norm, ValidateClasses, CanonicalLists, LatestOk, RecordOk;
    if c.Publish? {
      var a := c.args;
      ValidateCanonical(Strip(a.allowed), Strip(a.disallowed), json);
    }
  }

  // What every run keeps

  ghost predicate RecordOk(key: string, r: PolicyRecord) {
    && key == StorageKey(r.policyId, r.version) && r.version >= 1
    && r.active == !r.deprecated
    && CanonicalLists(r.allowed, r.disallowed)
    && r.hash == PolicyDigest(Norm(r.policyId), r.version, Norm(r.name), r.minPrimary,
                              r.minIndependent, r.allowed, r.disallowed, r.crossCheck, r.rules)
  }

  ghost predicate LatestOk(b: Book, pid: string) {
    && (pid in b.latest ==> StorageKey(pid, b.latest[pid]) in b.policies)
    && (forall v: nat :: StorageKey(pid, v) in b.policies ==> pid in b.latest && v <= b.latest[pid])
  }

  ghost predicate BookOk(b: Book) {
    && (forall key :: key in b.policies ==> RecordOk(key, b.policies[key]))
    && (forall pid :: LatestOk(b, pid))
    && b.policyCount == |b.policies|
  }

  /** Published records stay, and change only by being deprecated. */
  ghost predicate Frozen(before: Book, after: Book) {
    forall key :: key in before.policies ==>
      && key in after.policies
      && (after.policies[key] == before.policies[key]
          || after.policies[key] == before.policies[key].(active := false, deprecated := true))
  }

  lemma StepKeeps(b: Book, c: Call, json: Json)
    requires BookOk(b)
    ensures BookOk(Step(b, c, json)) && Frozen(b, Step(b, c, json))
  {
    hide BookOk, Frozen, PublishPolicy, DeprecatePolicy;
    if Step(b, c, json) == b {
      FrozenSame(b);
    } else if c.Publish? {
      PublishKeeps(b, c, json);
    } else {
      DeprecateKeeps(b, c, json);
    }
  }

  lemma FrozenSame(b: Book)
    ensures Frozen(b, b)
  {
  }

  lemma DeprecateKeeps(b: Book, c: Call, json: Json)
    requires BookOk(b) && c.Deprecate? && Step(b, c, json) != b
    ensures BookOk(Step(b, c, json)) && Frozen(b, Step(b, c, json))
  {
    hide Step, RecordOk, LatestOk, StorageKey, Strip;
    var t := Step(b, c, json);
    var key := StorageKey(Strip(c.policyId), c.version);
    DeprecateMarks(b, c, json);
    MarkedOk(key, b.policies[key]);
    forall pid ensures LatestOk(t, pid) { LatestSame(b, t, pid); }
  }

  lemma DeprecateMarks(b: Book, c: Call, json: Json)
    requires c.Deprecate? && Step(b, c, json) != b
    ensures var t, key := Step(b, c, json), StorageKey(Strip(c.policyId), c.version);
            && key in b.policies && t.latest == b.latest && t.policyCount == b.policyCount
            && t.policies == b.policies[key := b.policies[key].(active := false, deprecated := true)]
            && t.policies.Keys == b.policies.Keys && |t.policies| == |b.policies|
  {
    hide Strip, StorageKey;
    var t := Step(b, c, json);
    assert t.policies.Keys == b.policies.Keys;
    assert |t.policies.Keys| == |t.policies| && |b.policies.Keys| == |b.policies|;
  }

  lemma MarkedOk(key: string, r: PolicyRecord)
    requires RecordOk(key, r)
    ensures RecordOk(key, r.(active := false, deprecated := true))
  {
    hide StorageKey, Norm, CanonicalLists;
  }

  lemma LatestSame(b: Book, t: Book, pid: string)
    requires LatestOk(b, pid) && t.latest == b.latest && t.policies.Keys == b.policies.Keys
    ensures LatestOk(t, pid)
  {
    hide StorageKey;
    assert forall k :: k in t.policies <==> k in b.policies;
  }

  /** What a publication that commits adds to the book. */
  ghost predicate Adds(b: Book, t: Book, rec: PolicyRecord) {
    var key := StorageKey(rec.policyId, rec.version);
    && key !in b.policies && t.policies == b.policies[key := rec] && t.policyCount == b.policyCount + 1
    && t.latest == (if rec.policyId !in b.latest || rec.version > b.latest[rec.policyId]
                    then b.latest[rec.policyId := rec.version] else b.latest)
  }

  lemma PublishAdds(b: Book, c: Call, json: Json) returns (rec: PolicyRecord)
    requires c.Publish? && Step(b, c, json) != b
    ensures Adds(b, Step(b, c, json), rec) && RecordOk(StorageKey(rec.policyId, rec.version), rec)
  {
    hide Strip, StorageKey, Norm, ValidateClasses, CanonicalLists;
    var a := c.args;
    ValidateCanonical(Strip(a.allowed), Strip(a.disallowed), json);
    StripIdempotent(a.rules);
    rec := Step(b, c, json).policies[StorageKey(Strip(a.policyId), a.version)];
  }

  lemma PublishKeeps(b: Book, c: Call, json: Json)
    requires BookOk(b) && c.Publish? && Step(b, c, json) != b
    ensures BookOk(Step(b, c, json)) && Frozen(b, Step(b, c, json))
  {
    hide Step, StorageKey, RecordOk, LatestOk;
    var t := Step(b, c, json);
    var rec := PublishAdds(b, c, json);
    forall p ensures LatestOk(t, p) { LatestMoves(b, t, rec, p); }
  }

  lemma LatestMoves(b: Book, t: Book, rec: PolicyRecord, pid: string)
    requires Adds(b, t, rec) && LatestOk(b, pid)
    ensures LatestOk(t, pid)
  {
    hide StorageKey;
    forall v: nat | StorageKey(pid, v) in t.policies ensures pid in t.latest && v <= t.latest[pid] {
      if StorageKey(pid, v) == StorageKey(rec.policyId, rec.version) {
        StorageKeyInjective(pid, v, rec.policyId, rec.version);
      }
    }
  }

  lemma InitialOk(owner: Address)
    ensures BookOk(Initial(owner))
  {
  }

  /** Every reachable book is well formed, and nothing published earlier in the run has changed. */
  lemma {:induction false} RunKeeps(owner: Address, calls: seq<Call>, n: nat, json: Json)
    requires n <= |calls|
    ensures BookOk(Run(Initial(owner), calls, json))
    ensures Frozen(Run(Initial(owner), calls[..n], json), Run(Initial(owner), calls, json))
  {
    hide BookOk, Step;
    if n == |calls| {
      assert calls[..n] == calls;
    }
    InitialOk(owner);
    if |calls| > 0 {
      var last := |calls| - 1;
      var before := Run(Initial(owner), calls[..last], json);
      if n <= last {
        RunKeeps(owner, calls[..last], n, json);
        assert calls[..last][..n] == calls[..n];
      } else {
        RunKeeps(owner, calls[..last], last, json);
      }
      StepKeeps(before, calls[last], json);
    }
  }

  /** A published hash is the one the view computes from the publisher's raw arguments. */
  lemma PublishedHash(b: Book, sender: Address, now: nat, a: PublishArgs, json: Json)
    requires PublishPolicy(b, sender, now, a, json).Committed?
    ensures Some(PublishPolicy(b, sender, now, a, json).hash) == ComputePolicyHash(a, json)
  {
    hide Strip, StorageKey, Norm, ValidateClasses;
    ValidateCanonical(a.allowed, a.disallowed, json);
    ValidateCanonical(Strip(a.allowed), Strip(a.disallowed), json);
    NormStrip(a.name);
    StripIdempotent(a.rules);
  }

  /**
   The lists a stored policy was published with: the strict parser of the registry and the
   lenient parser of the resolver read the same two disjoint lists from its record.
  */
  lemma StoredListsReadBack(b: Book, key: string, json: Json)
    requires BookOk(b) && key in b.policies
    ensures var r := b.policies[key];
            var a, d := LenientParse(r.allowed, json), LenientParse(r.disallowed, json);
            && StrictParse(r.allowed, json) == Classes(a)
            && StrictParse(r.disallowed, json) == Classes(d)
            && ListText(a) == r.allowed && ListText(d) == r.disallowed
            && forall c :: c in a ==> c !in d
  {
    var r := b.policies[key];
    assert RecordOk(key, r);
    var a: seq<SourceClass>, d: seq<SourceClass> :|
      CanonicalOf(r.allowed, a) && CanonicalOf(r.disallowed, d) && (forall c :: c in a ==> c !in d);
    CanonicalRoundTrip(a, json);
    CanonicalRoundTrip(d, json);
  }

  /** The contract: the same transactions, made by updating its fields. */
  class PolicyContract {
    var owner: Address
    var policies: map<string, PolicyRecord>
    var latest: map<string, nat>
    var policyCount: nat
    var events: seq<PolicyEvent>

    ghost function State(): Book
      reads this
    {
      Book(owner, policies, latest, policyCount, events)
    }

    constructor (deployer: Address)
      ensures State() == Initial(deployer)
    {
      owner := deployer;
      policies := map[];
      latest := map[];
      policyCount := 0;
      events := [];
    }

    method PublishSourcePolicy(sender: Address, now: nat, a: PublishArgs, json: Json)
      returns (ok: bool, hash: Digest)
      modifies this
      ensures var tx := PublishPolicy(old(State()), sender, now, a, json);
              && ok == tx.Committed?
              && (ok ==> State() == tx.book && hash == tx.hash)
              && (!ok ==> State() == old(State()))
    {
      hide Strip, StorageKey, Norm, ValidateClasses;
      ok, hash := false, NoDigest;
      if sender != owner { return; }
      var pid, nm, rules := Strip(a.policyId), Strip(a.name), Strip(a.rules);
      if !GoodArgs(a) { return; }
      var key := StorageKey(pid, a.version);
      if key in policies { return; }
      var lists := ValidateClasses(Strip(a.allowed), Strip(a.disallowed), json);
      if lists.BadLists? { return; }
      var payload := PolicyHash(
        PublishArgs(pid, a.version, nm, a.minPrimary, a.minIndependent,
                    lists.allowed, lists.disallowed, a.crossCheck, rules), json);
      if payload.None? { return; }
      hash := payload.value;
      policies := policies[key := PolicyRecord(
                             pid, a.version, nm, true, a.minPrimary, a.minIndependent,
                             lists.allowed, lists.disallowed, a.crossCheck, rules,
                             hash, now, false)];
      var currentLatest := if pid in latest then latest[pid] else 0;
      if a.version > currentLatest {
        latest := latest[pid := a.version];
      }
      policyCount := policyCount + 1;
      events := events + [PolicyPublished(pid, a.version, hash)];
      ok := true;
    }

    method DeprecateSourcePolicy(sender: Address, policyId: string, version: nat)
      returns (ok: bool)
      modifies this
      ensures var tx := DeprecatePolicy(old(State()), sender, policyId, version);
              && ok == tx.Committed?
              && State() == if ok then tx.book else old(State())
    {
      ok := false;
      if sender != owner { return; }
      var pid := Strip(policyId);
      if |pid| == 0 || |pid| > 64 { return; }
      var key := StorageKey(pid, version);
      if key !in policies { return; }
      var rec := policies[key];
      rec := rec.(active := false);
      rec := rec.(deprecated := true);
      policies := policies[key := rec];
      events := events + [PolicyDeprecated(pid, version, rec.hash)];
      ok := true;
    }
  }
}
