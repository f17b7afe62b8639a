/** Lists: first-occurrence filtering by a key, passes that carry a state, and counting. */
module Seqs {

  function DistinctBy<T>(xs: seq<T>, key: T -> string, seen: set<string>): (ys: seq<T>)
    ensures |ys| <= |xs|
  {
    if |xs| == 0 then []
    else if key(xs[0]) in seen then DistinctBy(xs[1..], key, seen)
    else [xs[0]] + DistinctBy(xs[1..], key, seen + {key(xs[0])})
  }

  function Keys<T>(xs: seq<T>, key: T -> string): set<string> {
    set i | 0 <= i < |xs| :: key(xs[i])
  }

  predicate KeyDistinct<T(!new)>(xs: seq<T>, key: T -> string) {
    forall i, j :: 0 <= i < j < |xs| ==> key(xs[i]) != key(xs[j])
  }

  predicate Avoids<T(!new)>(xs: seq<T>, key: T -> string, seen: set<string>) {
    forall i :: 0 <= i < |xs| ==> key(xs[i]) !in seen
  }

  /** Nothing kept repeats a key, every key is kept or was seen, and only inputs are kept. */
  lemma {:induction false} DistinctByFacts<T(!new)>(xs: seq<T>, key: T -> string, seen: set<string>)
    ensures var ys := DistinctBy(xs, key, seen);
            && KeyDistinct(ys, key) && Avoids(ys, key, seen)
            && (forall y :: y in ys ==> y in xs)
            && (forall x :: x in xs ==> key(x) in seen || key(x) in Keys(ys, key))
  {
    if |xs| > 0 {
      var ys := DistinctBy(xs, key, seen);
      if key(xs[0]) in seen {
        DistinctByFacts(xs[1..], key, seen);
      } else {
        var rest := DistinctBy(xs[1..], key, seen + {key(xs[0])});
        DistinctByFacts(xs[1..], key, seen + {key(xs[0])});
        assert forall i :: 0 < i < |ys| ==> ys[i] == rest[i - 1];
        forall x | x in xs ensures key(x) in seen || key(x) in Keys(ys, key) {
          if key(x) == key(ys[0]) {
          } else {
            assert x in xs[1..];
            if key(x) !in seen {
              var i :| 0 <= i < |rest| && key(rest[i]) == key(x);
              assert ys[i + 1] == rest[i];
            }
          }
        }
      }
    }
  }

  /** A list that repeats no key is kept whole. */
  lemma {:induction false} DistinctByKeeps<T(!new)>(xs: seq<T>, key: T -> string, seen: set<string>)
    requires KeyDistinct(xs, key) && Avoids(xs, key, seen)
    ensures DistinctBy(xs, key, seen) == xs
  {
    if |xs| > 0 {
      assert Avoids(xs[1..], key, seen + {key(xs[0])});
      DistinctByKeeps(xs[1..], key, seen + {key(xs[0])});
      assert xs == [xs[0]] + xs[1..];
    }
  }

  lemma DistinctByIdempotent<T(!new)>(xs: seq<T>, key: T -> string)
    ensures DistinctBy(DistinctBy(xs, key, {}), key, {}) == DistinctBy(xs, key, {})
  {
    DistinctByFacts(xs, key, {});
    DistinctByKeeps(DistinctBy(xs, key, {}), key, {});
  }

  /** Dropping the last element drops at most the last element of the result. */
  lemma {:induction false} DistinctByAppend<T(!new)>(xs: seq<T>, x: T, key: T -> string, seen: set<string>)
    ensures DistinctBy(xs + [x], key, seen)
            == DistinctBy(xs, key, seen)
               + (if key(x) in seen || key(x) in Keys(DistinctBy(xs, key, seen), key) then [] else [x])
  {
    if |xs| == 0 {
      assert xs + [x] == [x];
    } else {
      assert (xs + [x])[1..] == xs[1..] + [x];
      var ys := DistinctBy(xs, key, seen);
      if key(xs[0]) in seen {
        DistinctByAppend(xs[1..], x, key, seen);
      } else {
        var more := seen + {key(xs[0])};
        var rest := DistinctBy(xs[1..], key, more);
        DistinctByAppend(xs[1..], x, key, more);
        assert ys == [xs[0]] + rest;
        KeysCons(xs[0], rest, key);
      }
    }
  }

  /** What an initial part contributes is an initial part of the whole result. */
  lemma {:induction false} DistinctByPrefix<T(!new)>(xs: seq<T>, ys: seq<T>, key: T -> string, seen: set<string>)
    ensures DistinctBy(xs, key, seen) <= DistinctBy(xs + ys, key, seen)
  {
    if |xs| > 0 {
      assert (xs + ys)[1..] == xs[1..] + ys;
      DistinctByPrefix(xs[1..], ys, key, if key(xs[0]) in seen then seen else seen + {key(xs[0])});
    }
  }

  lemma KeysCons<T(!new)>(x: T, xs: seq<T>, key: T -> string)
    ensures Keys([x] + xs, key) == {key(x)} + Keys(xs, key)
  {
    var ys := [x] + xs;
    forall k | k in {key(x)} + Keys(xs, key) ensures k in Keys(ys, key) {
      if k == key(x) {
        assert key(ys[0]) == k;
      } else {
        var i :| 0 <= i < |xs| && key(xs[i]) == k;
        assert ys[i + 1] == xs[i];
      }
    }
  }

  // Passes over a list that carry a state from record to record

  function Scan<A, B, S>(xs: seq<A>, st: S, step: (A, S) -> (B, S)): (ys: seq<B>)
    ensures |ys| == |xs|
  {
    if |xs| == 0 then []
    else var (y, next) := step(xs[0], st); [y] + Scan(xs[1..], next, step)
  }

  function ScanEnd<A, B, S>(xs: seq<A>, st: S, step: (A, S) -> (B, S)): S {
    if |xs| == 0 then st else ScanEnd(xs[1..], step(xs[0], st).1, step)
  }

  lemma {:induction false} ScanAppend<A, B, S>(xs: seq<A>, ys: seq<A>, st: S, step: (A, S) -> (B, S))
    ensures Scan(xs + ys, st, step) == Scan(xs, st, step) + Scan(ys, ScanEnd(xs, st, step), step)
    ensures ScanEnd(xs + ys, st, step) == ScanEnd(ys, ScanEnd(xs, st, step), step)
  {
    if |xs| == 0 {
      assert xs + ys == ys;
    } else {
      assert (xs + ys)[0] == xs[0] && (xs + ys)[1..] == xs[1..] + ys;
      ScanAppend(xs[1..], ys, step(xs[0], st).1, step);
    }
  }

  /** One more record: the results so far stand, and the state moves by one step. */
  lemma ScanSnoc<A, B, S>(xs: seq<A>, x: A, st: S, step: (A, S) -> (B, S))
    ensures Scan(xs + [x], st, step) == Scan(xs, st, step) + [step(x, ScanEnd(xs, st, step)).0]
    ensures ScanEnd(xs + [x], st, step) == step(x, ScanEnd(xs, st, step)).1
  {
    ScanAppend(xs, [x], st, step);
    assert [x][1..] == [];
  }

  /** Each result comes from its record and the state reached before it. */
  lemma ScanAt<A, B, S>(xs: seq<A>, i: nat, st: S, step: (A, S) -> (B, S))
    requires i < |xs|
    ensures Scan(xs, st, step)[i] == step(xs[i], ScanEnd(xs[..i], st, step)).0
  {
    assert xs == xs[..i] + xs[i..];
    ScanAppend(xs[..i], xs[i..], st, step);
  }

  /** A record that leaves the state alone can be dropped without changing any other result. */
  lemma ScanSkips<A, B, S>(xs: seq<A>, x: A, ys: seq<A>, st: S, step: (A, S) -> (B, S))
    requires step(x, ScanEnd(xs, st, step)).1 == ScanEnd(xs, st, step)
    ensures Without(Scan(xs + [x] + ys, st, step), |xs|) == Scan(xs + ys, st, step)
    ensures ScanEnd(xs + [x] + ys, st, step) == ScanEnd(xs + ys, st, step)
  {
    ScanAppend(xs + [x], ys, st, step);
    ScanSnoc(xs, x, st, step);
    ScanAppend(xs, ys, st, step);
  }

  /** A step that repeats itself on its own result makes the whole pass repeat itself. */
  lemma {:induction false} ScanTwice<A, S>(xs: seq<A>, st: S, step: (A, S) -> (A, S))
    requires forall x, s :: step(step(x, s).0, s) == step(x, s)
    ensures Scan(Scan(xs, st, step), st, step) == Scan(xs, st, step)
  {
    if |xs| > 0 { ScanTwice(xs[1..], step(xs[0], st).1, step); }
  }

  function Without<T>(xs: seq<T>, i: nat): seq<T>
    requires i < |xs|
  {
    xs[..i] + xs[i + 1..]
  }

  // Counting

  function CountIf<T>(xs: seq<T>, p: T -> bool): nat {
    if |xs| == 0 then 0 else (if p(xs[0]) then 1 else 0) + CountIf(xs[1..], p)
  }

  lemma {:induction false} CountAppend<T>(xs: seq<T>, ys: seq<T>, p: T -> bool)
    ensures CountIf(xs + ys, p) == CountIf(xs, p) + CountIf(ys, p)
  {
    if |xs| == 0 {
      assert xs + ys == ys;
    } else {
      assert (xs + ys)[1..] == xs[1..] + ys;
      CountAppend(xs[1..], ys, p);
    }
  }

  lemma CountSnoc<T>(xs: seq<T>, x: T, p: T -> bool)
    ensures CountIf(xs + [x], p) == CountIf(xs, p) + if p(x) then 1 else 0
  {
    CountAppend(xs, [x], p);
    assert [x][1..] == [];
  }

  /** Counting only depends on how often each element occurs. */
  lemma {:induction false} CountPermuted<T>(xs: seq<T>, ys: seq<T>, p: T -> bool)
    requires multiset(xs) == multiset(ys)
    ensures CountIf(xs, p) == CountIf(ys, p)
  {
    if |xs| == 0 {
      assert |multiset(ys)| == 0;
    } else {
      assert xs[0] in multiset(ys);
      var i :| 0 <= i < |ys| && ys[i] == xs[0];
      assert ys == ys[..i] + [ys[i]] + ys[i + 1..];
      assert xs == [xs[0]] + xs[1..];
      var rest := ys[..i] + ys[i + 1..];
      assert multiset(rest) == multiset(ys) - multiset{ys[i]};
      CountPermuted(xs[1..], rest, p);
      CountAppend(ys[..i], ys[i + 1..], p);
      CountAppend(ys[..i] + [ys[i]], ys[i + 1..], p);
      CountSnoc(ys[..i], ys[i], p);
    }
  }

  /** Two counts over aligned lists agree when the tests do. */
  lemma {:induction false} CountAligned<A, B>(xs: seq<A>, ys: seq<B>, p: A -> bool, q: B -> bool)
    requires |xs| == |ys| && forall i :: 0 <= i < |xs| ==> p(xs[i]) == q(ys[i])
    ensures CountIf(xs, p) == CountIf(ys, q)
  {
    if |xs| > 0 { CountAligned(xs[1..], ys[1..], p, q); }
  }

  /** At most one when no two places satisfy the test. */
  lemma {:induction false} CountAtMostOne<T>(xs: seq<T>, p: T -> bool)
    requires forall i, j :: 0 <= i < j < |xs| ==> !(p(xs[i]) && p(xs[j]))
    ensures CountIf(xs, p) <= 1
  {
    if |xs| > 0 {
      if p(xs[0]) {
        CountNone(xs[1..], p);
      } else {
        CountAtMostOne(xs[1..], p);
      }
    }
  }

  /** Counting with a stronger test counts no more. */
  lemma {:induction false} CountImplies<T>(xs: seq<T>, p: T -> bool, q: T -> bool)
    requires forall x :: x in xs && p(x) ==> q(x)
    ensures CountIf(xs, p) <= CountIf(xs, q)
  {
    if |xs| > 0 { CountImplies(xs[1..], p, q); }
  }

  lemma {:induction false} CountWithout<T>(xs: seq<T>, i: nat, p: T -> bool)
    requires i < |xs|
    ensures CountIf(xs, p) == CountIf(Without(xs, i), p) + if p(xs[i]) then 1 else 0
  {
    CountAppend(xs[..i], xs[i + 1..], p);
    CountSnoc(xs[..i], xs[i], p);
    assert xs == xs[..i] + [xs[i]] + xs[i + 1..];
    CountAppend(xs[..i] + [xs[i]], xs[i + 1..], p);
  }

  lemma CountPair<T>(xs: seq<T>, p: T -> bool)
    requires CountIf(xs, p) >= 2
    ensures exists i, j :: 0 <= i < j < |xs| && p(xs[i]) && p(xs[j])
  {
    if forall i, j :: 0 <= i < j < |xs| ==> !(p(xs[i]) && p(xs[j])) { CountAtMostOne(xs, p); }
  }

  lemma {:induction false} CountNone<T>(xs: seq<T>, p: T -> bool)
    requires forall i :: 0 <= i < |xs| ==> !p(xs[i])
    ensures CountIf(xs, p) == 0
  {
    if |xs| > 0 { CountNone(xs[1..], p); }
  }

  lemma {:induction false} CountSome<T(!new)>(xs: seq<T>, p: T -> bool)
    ensures CountIf(xs, p) > 0 <==> exists x :: x in xs && p(x)
  {
    if |xs| > 0 {
      CountSome(xs[1..], p);
      assert forall x :: x in xs <==> x == xs[0] || x in xs[1..];
    }
  }

  // The elements of a list as a set

  function Elems<T(==)>(xs: seq<T>): set<T> { set x | x in xs }

  lemma ElemsSnoc<T>(xs: seq<T>)
    requires |xs| > 0
    ensures Elems(xs) == Elems(xs[..|xs| - 1]) + {xs[|xs| - 1]}
  {
    assert xs == xs[..|xs| - 1] + [xs[|xs| - 1]];
  }

  lemma {:induction false} ElemsSize<T>(xs: seq<T>)
    ensures |Elems(xs)| <= |xs|
    ensures (forall i, j :: 0 <= i < j < |xs| ==> xs[i] != xs[j]) ==> |Elems(xs)| == |xs|
  {
    hide Elems;
    if |xs| == 0 {
      NoElems<T>();
    } else {
      var front, last := xs[..|xs| - 1], xs[|xs| - 1];
      ElemsSnoc(xs);
      ElemsSize(front);
      if forall i, j :: 0 <= i < j < |xs| ==> xs[i] != xs[j] { NewElem(front, last); }
    }
  }

  lemma NoElems<T>()
    ensures Elems<T>([]) == {}
  {
  }

  lemma NewElem<T>(xs: seq<T>, x: T)
    requires forall i :: 0 <= i < |xs| ==> xs[i] != x
    ensures x !in Elems(xs)
  {
  }

  lemma {:induction false} SubsetSize<T>(a: set<T>, b: set<T>)
    requires a <= b
    ensures |a| <= |b|
    decreases |a|
  {
    if a != {} {
      var y :| y in a;
      SubsetSize(a - {y}, b - {y});
    }
  }
}
