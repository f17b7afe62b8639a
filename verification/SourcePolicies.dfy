/**
 Applying a source policy to clustered sources and counting what satisfies it. The pass
 carries the set of provenance groups already counted as independent.
*/
module SourcePolicies {
  import opened Text
  import opened Seqs
  import opened SourceClasses
  import opened Evidence

  const PRIMARY_CLASSES := {Official, Primary}
  const INDEPENDENT_ELIGIBLE := {Official, Primary, IndependentSecondary, Community}

  /** What the resolver reads from a stored policy. */
  datatype Rules = Rules(allowed: seq<SourceClass>, disallowed: seq<SourceClass>,
                         minPrimary: nat, minIndependent: nat, requireCross: bool)

  datatype Stats = Stats(usable: nat, eligibleUsable: nat, unavailable: nat, primary: nat,
                         independent: nat, ok: bool)

  function JudgedClass(r: Source): SourceClass {
    if r.status.DerivedStatus? then Derived else r.cls
  }

  /** One record of the pass, branch by branch as the contract decides it. */
  function Judge(r: Source, seen: set<string>, rules: Rules): (Source, set<string>) {
    var cls := JudgedClass(r);
    var e0 := r.status.Usable? || r.status.DerivedStatus?;
    var e1 := e0 && !(cls in rules.disallowed || cls == Invalid || cls == Social);
    var e2 := e1 && (|rules.allowed| == 0 || cls in rules.allowed);
    var primary := e2 && cls in PRIMARY_CLASSES;
    var independent := e2 && cls in INDEPENDENT_ELIGIBLE && r.group != "" && r.group !in seen;
    var next := if independent then seen + {r.group} else seen;
    var dropped := cls == Derived || r.status.Duplicate?;
    var e3 := e2 && !dropped;
    var indep := independent && !dropped;
    var prim := primary && !dropped;
    var policyEligible := e3 && (prim || indep || cls in rules.allowed || |rules.allowed| == 0);
    (r.(cls := cls, primary := e3 && prim, independent := e3 && indep,
        eligible := e3 && policyEligible), next)
  }

  function Judging(rules: Rules): (Source, set<string>) -> (Source, set<string>) {
    (r, seen) => Judge(r, seen, rules)
  }

  function Applied(sources: seq<Source>, rules: Rules): (rs: seq<Source>)
    ensures |rs| == |sources|
  {
    Scan(sources, {}, Judging(rules))
  }

  /** The pass, rewriting the records where they stand. */
  method ApplySourcePolicy(sources: array<Source>, rules: Rules)
    modifies sources
    ensures sources[..] == Applied(old(sources[..]), rules)
  {
    hide *;
    var seen: set<string> := {};
    ghost var was, step := sources[..], Judging(rules);
    ghost var goal := Scan(was, {}, step);
    ScanNothing(rules);
    for i := 0 to sources.Length
      invariant |was| == |goal| == sources.Length
      invariant forall k :: 0 <= k < i ==> sources[k] == goal[k]
      invariant forall k :: i <= k < sources.Length ==> sources[k] == was[k]
      invariant seen == ScanEnd(was[..i], {}, step)
    {
      JudgeNext(was, i, rules);
      sources[i], seen := JudgeOne(sources[i], seen, rules);
    }
    AppliedIs(was, rules);
  }

  lemma JudgeNext(was: seq<Source>, i: nat, rules: Rules)
    requires i < |was|
    ensures var step := Judging(rules);
            Judge(was[i], ScanEnd(was[..i], {}, step), rules)
            == (Scan(was, {}, step)[i], ScanEnd(was[..i + 1], {}, step))
  {
    hide *;
    SliceSnoc(was, i);
    ScanAt(was, i, {}, Judging(rules));
    ScanSnoc(was[..i], was[i], {}, Judging(rules));
    JudgingIs(was[i], ScanEnd(was[..i], {}, Judging(rules)), rules);
  }

  lemma AppliedIs(rs: seq<Source>, rules: Rules)
    ensures Applied(rs, rules) == Scan(rs, {}, Judging(rules))
  {
  }

  lemma JudgingIs(r: Source, seen: set<string>, rules: Rules)
    ensures Judging(rules)(r, seen) == Judge(r, seen, rules)
  {
    hide Judge;
  }

  lemma ScanNothing(rules: Rules)
    ensures Scan([], {}, Judging(rules)) == [] && ScanEnd([], {}, Judging(rules)) == {}
  {
  }

  /** The body of the pass, with the flags set and cleared one after another. */
  method JudgeOne(rec: Source, seen: set<string>, rules: Rules) returns (r: Source, next: set<string>)
    ensures (r, next) == Judge(rec, seen, rules)
  {
    r, next := rec, seen;
    var cls := rec.cls;
    var eligible := true;
    if !rec.status.Usable? && !rec.status.DerivedStatus? { eligible := false; }
    if rec.status.DerivedStatus? && cls != Derived {
      cls := Derived;
      r := r.(cls := cls);
    }
    if cls in rules.disallowed || cls == Invalid || cls == Social { eligible := false; }
    if |rules.allowed| > 0 && cls !in rules.allowed { eligible := false; }
    var independent, primary := false, false;
    if eligible && cls in PRIMARY_CLASSES { primary := true; }
    if eligible && cls in INDEPENDENT_ELIGIBLE {
      if rec.group != "" && rec.group !in seen {
        independent := true;
        next := seen + {rec.group};
      }
    }
    if cls == Derived || rec.status.Duplicate? {
      independent, primary, eligible := false, false, false;
    }
    r := r.(primary := primary, independent := independent,
            eligible := eligible && (primary || independent || cls in rules.allowed || |rules.allowed| == 0));
    if !eligible { r := r.(primary := false, independent := false, eligible := false); }
  }

  // Counting

  predicate IsUsable(r: Source) { r.status.Usable? }
  predicate IsEligibleUsable(r: Source) { r.status.Usable? && r.eligible }
  predicate IsUnavailable(r: Source) { r.status.Unavailable? }
  predicate CountsPrimary(r: Source) { r.primary && r.eligible }
  predicate CountsIndependent(r: Source) { r.independent && r.eligible }

  predicate Satisfies(eligibleUsable: nat, primary: nat, independent: nat, rules: Rules) {
    && eligibleUsable > 0
    && primary >= rules.minPrimary
    && independent >= rules.minIndependent
    && (rules.requireCross ==> independent >= 2)
  }

  function Evaluate(rs: seq<Source>, rules: Rules): Stats {
    var e, p, i := CountIf(rs, IsEligibleUsable), CountIf(rs, CountsPrimary), CountIf(rs, CountsIndependent);
    Stats(CountIf(rs, IsUsable), e, CountIf(rs, IsUnavailable), p, i, Satisfies(e, p, i, rules))
  }

  method PolicyEval(rs: seq<Source>, rules: Rules) returns (st: Stats)
    ensures st == Evaluate(rs, rules)
  {
    var usable, eligible, unavailable, primary, independent := 0, 0, 0, 0, 0;
    for i := 0 to |rs|
      invariant usable == CountIf(rs[..i], IsUsable) && eligible == CountIf(rs[..i], IsEligibleUsable)
      invariant unavailable == CountIf(rs[..i], IsUnavailable)
      invariant primary == CountIf(rs[..i], CountsPrimary)
      invariant independent == CountIf(rs[..i], CountsIndependent)
    {
      var src := rs[i];
      SnocCounts(rs, i);
      if src.status.Usable? {
        usable := usable + 1;
        if src.eligible { eligible := eligible + 1; }
      } else if src.status.Unavailable? {
        unavailable := unavailable + 1;
      }
      if src.primary && src.eligible { primary := primary + 1; }
      if src.independent && src.eligible { independent := independent + 1; }
    }
    assert rs[..|rs|] == rs;
    var ok := true;
    if eligible == 0 { ok := false; }
    if primary < rules.minPrimary { ok := false; }
    if independent < rules.minIndependent { ok := false; }
    if rules.requireCross && independent < 2 { ok := false; }
    st := Stats(usable, eligible, unavailable, primary, independent, ok);
  }

  lemma SnocCounts(rs: seq<Source>, i: nat)
    requires i < |rs|
    ensures forall p: Source -> bool ::
      CountIf(rs[..i + 1], p) == CountIf(rs[..i], p) + if p(rs[i]) then 1 else 0
  {
    SliceSnoc(rs, i);
    forall p: Source -> bool
      ensures CountIf(rs[..i + 1], p) == CountIf(rs[..i], p) + if p(rs[i]) then 1 else 0
    {
      CountSnoc(rs[..i], rs[i], p);
    }
  }

  /** The whole pipeline over what was fetched. */
  function Pipeline(fetched: seq<Fetched>, subject: string, rules: Rules): (rs: seq<Source>)
    ensures |rs| == |fetched|
  {
    Applied(Clustered(fetched, subject), rules)
  }

  // What the pass means

  /** Eligibility under a policy, stated without the pass. */
  predicate Acceptable(r: Source, rules: Rules) {
    && r.status.Usable?
    && r.cls !in {Derived, Invalid, Social}
    && r.cls !in rules.disallowed
    && (rules.allowed != [] ==> r.cls in rules.allowed)
  }

  function AcceptableUnder(rules: Rules): Source -> bool { r => Acceptable(r, rules) }

  function PrimaryUnder(rules: Rules): Source -> bool {
    r => Acceptable(r, rules) && r.cls in PRIMARY_CLASSES
  }

  predicate Countable(r: Source, rules: Rules) {
    Acceptable(r, rules) && r.cls in INDEPENDENT_ELIGIBLE && r.group != ""
  }

  lemma JudgeMeaning(r: Source, seen: set<string>, rules: Rules)
    ensures var (j, next) := Judge(r, seen, rules);
            && (j.eligible <==> Acceptable(r, rules))
            && (j.primary <==> Acceptable(r, rules) && r.cls in PRIMARY_CLASSES)
            && (j.independent <==> Countable(r, rules) && r.group !in seen)
            && next == seen + (if j.independent then {r.group} else {})
            && j.status == r.status && j.group == r.group && j.content == r.content
            && j.host == r.host && j.canonical == r.canonical && j.url == r.url
            && j.fingerprint == r.fingerprint && j.tokens == r.tokens
            && (j.cls == r.cls || r.status.DerivedStatus?)
  {
  }

  /** Each flag of each record is exactly its declarative condition. */
  lemma PolicyEligibleIff(rs: seq<Source>, rules: Rules, i: nat)
    requires i < |rs|
    ensures Applied(rs, rules)[i].eligible <==> Acceptable(rs[i], rules)
    ensures Applied(rs, rules)[i].primary <==> Acceptable(rs[i], rules) && rs[i].cls in PRIMARY_CLASSES
    ensures Applied(rs, rules)[i].independent <==>
            Countable(rs[i], rules) && rs[i].group !in Groups(rs[..i], rules)
  {
    hide Judge, Acceptable, Scan, ScanEnd;
    ScanAt(rs, i, {}, Judging(rules));
    SeenIsGroups(rs[..i], rules);
    JudgeMeaning(rs[i], ScanEnd(rs[..i], {}, Judging(rules)), rules);
  }

  /** The groups of the acceptable records of independent classes. */
  function Groups(rs: seq<Source>, rules: Rules): set<string> {
    set r | r in rs && Countable(r, rules) :: r.group
  }

  lemma GroupsSnoc(rs: seq<Source>, r: Source, rules: Rules)
    ensures Groups(rs + [r], rules) == Groups(rs, rules) + if Countable(r, rules) then {r.group} else {}
  {
    hide Countable;
  }

  lemma {:induction false} SeenIsGroups(rs: seq<Source>, rules: Rules)
    ensures ScanEnd(rs, {}, Judging(rules)) == Groups(rs, rules)
  {
    hide Judge, Countable;
    if |rs| > 0 {
      var front, r := rs[..|rs| - 1], rs[|rs| - 1];
      assert rs == front + [r];
      SeenIsGroups(front, rules);
      ScanSnoc(front, r, {}, Judging(rules));
      GroupsSnoc(front, r, rules);
      JudgeMeaning(r, Groups(front, rules), rules);
      if Countable(r, rules) && r.group in Groups(front, rules) {
        assert Groups(front, rules) + {r.group} == Groups(front, rules);
      }
    }
  }

  /** The independent count is the number of distinct groups behind acceptable records. */
  lemma {:induction false} IndependentIsGroups(rs: seq<Source>, rules: Rules)
    ensures Evaluate(Applied(rs, rules), rules).independent == |Groups(rs, rules)|
  {
    hide Judge, Countable, Scan, ScanEnd, Groups, CountIf;
    if |rs| == 0 {
      NoGroups(rules);
    } else {
      var front, r := rs[..|rs| - 1], rs[|rs| - 1];
      assert rs == front + [r];
      IndependentIsGroups(front, rules);
      SeenIsGroups(front, rules);
      ScanSnoc(front, r, {}, Judging(rules));
      CountSnoc(Applied(front, rules), Judge(r, Groups(front, rules), rules).0, CountsIndependent);
      OneMore(front, r, rules);
    }
  }

  lemma NoGroups(rules: Rules)
    ensures Groups([], rules) == {} && Applied([], rules) == [] && CountIf([], CountsIndependent) == 0
  {
  }

  /** One more record adds a group exactly when it is counted as independent. */
  lemma OneMore(front: seq<Source>, r: Source, rules: Rules)
    ensures |Groups(front + [r], rules)|
            == |Groups(front, rules)| + if CountsIndependent(Judge(r, Groups(front, rules), rules).0) then 1 else 0
  {
    hide Judge, Countable, Groups;
    GroupsSnoc(front, r, rules);
    JudgeMeaning(r, Groups(front, rules), rules);
    CountableAcceptable(r, rules);
    if Countable(r, rules) && r.group in Groups(front, rules) {
      assert Groups(front, rules) + {r.group} == Groups(front, rules);
    }
  }

  lemma CountableAcceptable(r: Source, rules: Rules)
    ensures Countable(r, rules) ==> Acceptable(r, rules)
  {
  }

  /** Applying a policy to its own result changes nothing. */
  lemma ApplyTwice(rs: seq<Source>, rules: Rules)
    ensures Applied(Applied(rs, rules), rules) == Applied(rs, rules)
  {
    hide Judge, Scan;
    forall r, seen ensures Judging(rules)(Judging(rules)(r, seen).0, seen) == Judging(rules)(r, seen) {
      JudgeTwice(r, seen, rules);
    }
    ScanTwice(rs, {}, Judging(rules));
  }

  lemma JudgeTwice(r: Source, seen: set<string>, rules: Rules)
    ensures Judge(Judge(r, seen, rules).0, seen, rules) == Judge(r, seen, rules)
  {
  }

  // Order does not matter for the verdict

  /** The counts of the applied policy in terms of the records before it. */
  lemma StatsMeaning(rs: seq<Source>, rules: Rules)
    ensures var st := Evaluate(Applied(rs, rules), rules);
            && st.usable == CountIf(rs, IsUsable)
            && st.unavailable == CountIf(rs, IsUnavailable)
            && st.eligibleUsable == CountIf(rs, AcceptableUnder(rules))
            && st.primary == CountIf(rs, PrimaryUnder(rules))
            && st.independent == |Groups(rs, rules)|
  {
    hide Judge, Scan, ScanEnd, Countable, Acceptable, CountIf, Groups;
    var out := Applied(rs, rules);
    forall i | 0 <= i < |rs|
      ensures && out[i].status == rs[i].status
              && (out[i].eligible <==> Acceptable(rs[i], rules))
              && (out[i].primary <==> Acceptable(rs[i], rules) && rs[i].cls in PRIMARY_CLASSES)
    {
      ScanAt(rs, i, {}, Judging(rules));
      JudgeMeaning(rs[i], ScanEnd(rs[..i], {}, Judging(rules)), rules);
    }
    forall i | 0 <= i < |rs| ensures Acceptable(rs[i], rules) ==> rs[i].status.Usable? {
      AcceptableUsable(rs[i], rules);
    }
    CountAligned(rs, out, IsUsable, IsUsable);
    CountAligned(rs, out, IsUnavailable, IsUnavailable);
    CountAligned(rs, out, AcceptableUnder(rules), IsEligibleUsable);
    CountAligned(rs, out, PrimaryUnder(rules), CountsPrimary);
    IndependentIsGroups(rs, rules);
  }

  /** What a policy asks of the records before the pass. */
  predicate Met(rs: seq<Source>, rules: Rules) {
    && (exists r :: r in rs && Acceptable(r, rules))
    && CountIf(rs, PrimaryUnder(rules)) >= rules.minPrimary
    && |Groups(rs, rules)| >= rules.minIndependent
    && (rules.requireCross ==> |Groups(rs, rules)| >= 2)
  }

  /** The verdict of the counting loop is exactly that. */
  lemma VerdictIsMet(rs: seq<Source>, rules: Rules)
    ensures Evaluate(Applied(rs, rules), rules).ok <==> Met(rs, rules)
  {
    hide Acceptable, CountIf, Groups, Applied;
    StatsMeaning(rs, rules);
    CountSome(rs, AcceptableUnder(rules));
  }

  lemma AcceptableUsable(r: Source, rules: Rules)
    ensures Acceptable(r, rules) ==> r.status.Usable?
  {
  }

  /** Permuting the records before the policy pass changes none of the counts. */
  lemma VerdictIgnoresOrder(rs: seq<Source>, qs: seq<Source>, rules: Rules)
    requires multiset(rs) == multiset(qs)
    ensures Evaluate(Applied(rs, rules), rules) == Evaluate(Applied(qs, rules), rules)
  {
    hide CountIf, Acceptable, Countable;
    StatsMeaning(rs, rules);
    StatsMeaning(qs, rules);
    forall p: Source -> bool ensures CountIf(rs, p) == CountIf(qs, p) { CountPermuted(rs, qs, p); }
    SameGroups(rs, qs, rules);
  }

  lemma SameGroups(rs: seq<Source>, qs: seq<Source>, rules: Rules)
    requires multiset(rs) == multiset(qs)
    ensures Groups(rs, rules) == Groups(qs, rules)
  {
    hide Countable;
    forall r ensures r in rs <==> r in qs {
      assert r in rs <==> r in multiset(rs);
      assert r in qs <==> r in multiset(qs);
    }
  }

  /** A satisfied cross-check has two separate records that count as independent. */
  lemma CrossCheckHasTwo(rs: seq<Source>, rules: Rules)
    requires rules.requireCross && Evaluate(Applied(rs, rules), rules).ok
    ensures exists i, j :: 0 <= i < j < |rs| && CountsIndependent(Applied(rs, rules)[i])
                           && CountsIndependent(Applied(rs, rules)[j])
  {
    CountPair(Applied(rs, rules), CountsIndependent);
  }
}
