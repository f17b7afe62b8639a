/**
 The string helpers the contracts share: trimming, ASCII case mapping, whitespace
 normalisation, splitting and joining, and substring search.
*/
module Text {

  datatype Option<+T> = None | Some(value: T)

  predicate IsSpace(c: char) {
    || c == ' ' || '\t' <= c <= '\r' || '\U{1C}' <= c <= '\U{1F}'
    || c == '\U{85}' || c == '\U{A0}' || c == '\U{1680}' || '\U{2000}' <= c <= '\U{200A}'
    || c == '\U{2028}' || c == '\U{2029}' || c == '\U{202F}' || c == '\U{205F}' || c == '\U{3000}'
  }

  predicate NoSpaces(s: string) {
    forall i :: 0 <= i < |s| ==> !IsSpace(s[i])
  }

  /** The first position from i on, and the last end from j back, not next to a dropped character. */
  function Front(s: string, i: nat, drop: char -> bool): (k: nat)
    requires i <= |s|
    ensures i <= k <= |s|
    decreases |s| - i
  {
    if i < |s| && drop(s[i]) then Front(s, i + 1, drop) else i
  }

  function Back(s: string, i: nat, j: nat, drop: char -> bool): (k: nat)
    requires i <= j <= |s|
    ensures i <= k <= j
    decreases j
  {
    if i < j && drop(s[j - 1]) then Back(s, i, j - 1, drop) else j
  }

  /** Drops characters of one class from both ends. */
  function Trim(s: string, drop: char -> bool): (t: string)
    ensures |t| <= |s|
  {
    s[Front(s, 0, drop)..Back(s, Front(s, 0, drop), |s|, drop)]
  }

  lemma {:induction false} FrontStops(s: string, i: nat, drop: char -> bool)
    requires i <= |s|
    ensures var k := Front(s, i, drop);
            (forall n :: i <= n < k ==> drop(s[n])) && (k < |s| ==> !drop(s[k]))
    decreases |s| - i
  {
    if i < |s| && drop(s[i]) { FrontStops(s, i + 1, drop); }
  }

  lemma {:induction false} BackStops(s: string, i: nat, j: nat, drop: char -> bool)
    requires i <= j <= |s|
    ensures var k := Back(s, i, j, drop);
            (forall n :: k <= n < j ==> drop(s[n])) && (i < k ==> !drop(s[k - 1]))
    decreases j
  {
    if i < j && drop(s[j - 1]) { BackStops(s, i, j - 1, drop); }
  }

  lemma TrimFixed(s: string, drop: char -> bool)
    requires s != "" ==> !drop(s[0]) && !drop(s[|s| - 1])
    ensures Trim(s, drop) == s
  {
  }

  lemma TrimEnds(s: string, drop: char -> bool)
    ensures var t := Trim(s, drop);
            t != "" ==> !drop(t[0]) && !drop(t[|t| - 1])
  {
    FrontStops(s, 0, drop);
    BackStops(s, Front(s, 0, drop), |s|, drop);
  }

  lemma TrimIdempotent(s: string, drop: char -> bool)
    ensures Trim(Trim(s, drop), drop) == Trim(s, drop)
  {
    hide Trim;
    TrimEnds(s, drop);
    TrimFixed(Trim(s, drop), drop);
  }

  function Strip(s: string): string { Trim(s, IsSpace) }

  predicate Stripped(s: string) { Strip(s) == s }

  lemma StripIdempotent(s: string)
    ensures Stripped(Strip(s))
  {
    TrimIdempotent(s, IsSpace);
  }

  lemma StripNoSpaces(s: string)
    requires NoSpaces(s)
    ensures Strip(s) == s
  {
    TrimFixed(s, IsSpace);
  }

  function LowerChar(c: char): char {
    if 'A' <= c <= 'Z' then ((c as int) + 32) as char else c
  }

  function UpperChar(c: char): char {
    if 'a' <= c <= 'z' then ((c as int) - 32) as char else c
  }

  function Lower(s: string): (t: string)
    ensures |t| == |s|
  {
    seq(|s|, i requires 0 <= i < |s| => LowerChar(s[i]))
  }

  function Upper(s: string): (t: string)
    ensures |t| == |s|
  {
    seq(|s|, i requires 0 <= i < |s| => UpperChar(s[i]))
  }

  function Replace(s: string, from: char, to: char): (t: string)
    ensures |t| == |s|
  {
    seq(|s|, i requires 0 <= i < |s| => if s[i] == from then to else s[i])
  }

  /** The pieces between separators; there is always at least one. */
  function Split(s: string, sep: char -> bool): (parts: seq<string>)
    ensures |parts| > 0
    ensures forall p, i :: p in parts && 0 <= i < |p| ==> !sep(p[i])
  {
    if s == "" then [""]
    else if sep(s[0]) then [""] + Split(s[1..], sep)
    else
      var rest := Split(s[1..], sep);
      [[s[0]] + rest[0]] + rest[1..]
  }

  function Join(parts: seq<string>, sep: string): string {
    if |parts| == 0 then ""
    else if |parts| == 1 then parts[0]
    else parts[0] + sep + Join(parts[1..], sep)
  }

  function Filter<T(!new)>(xs: seq<T>, keep: T -> bool): (ys: seq<T>)
    ensures |ys| <= |xs|
    ensures forall y :: y in ys <==> y in xs && keep(y)
  {
    if |xs| == 0 then []
    else if keep(xs[0]) then [xs[0]] + Filter(xs[1..], keep)
    else Filter(xs[1..], keep)
  }

  lemma {:induction false} FilterAll<T(!new)>(xs: seq<T>, keep: T -> bool)
    requires forall x :: x in xs ==> keep(x)
    ensures Filter(xs, keep) == xs
  {
    if |xs| > 0 {
      FilterAll(xs[1..], keep);
      assert [xs[0]] + xs[1..] == xs;
    }
  }

  // Collapsing white space

  predicate NonEmpty(s: string) { s != "" }

  /** The words between white space. */
  function Words(s: string): seq<string> { Filter(Split(s, IsSpace), NonEmpty) }

  /** Where a pass over a text stands: before its first word, inside a word, or after one. */
  datatype Place = AtStart | InWord | InGap

  /** The words of the rest of a text with one blank between them, found in one pass. */
  function Collapse(s: string, i: nat, place: Place): string
    requires i <= |s|
    decreases |s| - i
  {
    if i == |s| then ""
    else if IsSpace(s[i]) then Collapse(s, i + 1, if place == AtStart then AtStart else InGap)
    else (if place == InGap then " " else "") + [s[i]] + Collapse(s, i + 1, InWord)
  }

  /** Lower-cases and collapses every run of white space to one blank. */
  function Norm(s: string): string { Collapse(Lower(Strip(s)), 0, AtStart) }

  lemma {:induction false} SplitNoSep(s: string, sep: char -> bool)
    requires forall i :: 0 <= i < |s| ==> !sep(s[i])
    ensures Split(s, sep) == [s]
  {
    if s != "" {
      SplitNoSep(s[1..], sep);
      assert [s[0]] + s[1..] == s;
    }
  }

  /** The words of a text put after the beginning of a word. */
  function WordsFrom(front: string, s: string): seq<string> {
    var parts := Split(s, IsSpace);
    Filter([front + parts[0]] + parts[1..], NonEmpty)
  }

  lemma WordsStep(front: string, s: string)
    requires s != ""
    ensures WordsFrom(front, s)
            == if !IsSpace(s[0]) then WordsFrom(front + [s[0]], s[1..])
               else if front == "" then WordsFrom("", s[1..])
               else [front] + WordsFrom("", s[1..])
  {
    hide Filter;
    var rest := Split(s[1..], IsSpace);
    assert forall t: string :: t + "" == t && "" + t == t;
    if IsSpace(s[0]) {
      FilterFirst(front, rest, NonEmpty);
      assert [rest[0]] + rest[1..] == rest;
    } else {
      assert front + ([s[0]] + rest[0]) == front + [s[0]] + rest[0];
    }
  }

  lemma FilterFirst<T(!new)>(x: T, xs: seq<T>, keep: T -> bool)
    ensures Filter([x] + xs, keep) == if keep(x) then [x] + Filter(xs, keep) else Filter(xs, keep)
  {
    assert ([x] + xs)[1..] == xs;
  }

  lemma WordsEnd(front: string)
    ensures WordsFrom(front, "") == if front == "" then [] else [front]
  {
    assert front + "" == front;
  }

  lemma {:induction false} CollapseFrom(s: string, i: nat, front: string)
    requires i <= |s|
    ensures var ws := WordsFrom(front, s[i..]);
            if front == "" then
              && Collapse(s, i, AtStart) == Join(ws, " ")
              && Collapse(s, i, InGap) == if ws == [] then "" else " " + Join(ws, " ")
            else ws != [] && front + Collapse(s, i, InWord) == Join(ws, " ")
    decreases |s| - i
  {
    hide WordsFrom;
    if i == |s| {
      WordsEnd(front);
    } else {
      WordsStep(front, s[i..]);
      assert s[i..][1..] == s[i + 1..];
      var ws := WordsFrom("", s[i + 1..]);
      if IsSpace(s[i]) {
        CollapseFrom(s, i + 1, "");
        if front != "" && ws != [] { JoinFirst(front, ws, " "); }
      } else {
        CollapseFrom(s, i + 1, front + [s[i]]);
        var rest := Collapse(s, i + 1, InWord);
        assert front + ([s[i]] + rest) == front + [s[i]] + rest;
        assert " " + [s[i]] + rest == " " + ([s[i]] + rest);
      }
    }
  }

  /** Collapsing joins the words of the text by single blanks. */
  lemma CollapseJoins(s: string)
    ensures Collapse(s, 0, AtStart) == Join(Words(s), " ")
  {
    CollapseFrom(s, 0, "");
    var parts := Split(s, IsSpace);
    assert s[0..] == s && "" + parts[0] == parts[0];
    assert [parts[0]] + parts[1..] == parts;
  }

  lemma {:induction false} CollapseWord(s: string, i: nat, place: Place)
    requires i <= |s| && NoSpaces(s) && place != InGap
    ensures Collapse(s, i, place) == s[i..]
    decreases |s| - i
  {
    if i < |s| { CollapseWord(s, i + 1, InWord); }
  }

  /** A word with no white space is only lower-cased by Norm. */
  lemma NormWord(s: string)
    requires NoSpaces(s)
    ensures Norm(s) == Lower(s)
  {
    StripNoSpaces(s);
    forall i | 0 <= i < |Lower(s)| ensures !IsSpace(Lower(s)[i]) {
      assert Lower(s)[i] == LowerChar(s[i]);
    }
    CollapseWord(Lower(s), 0, AtStart);
  }

  lemma NormStrip(s: string)
    ensures Norm(Strip(s)) == Norm(s)
  {
    StripIdempotent(s);
  }

  /** Splitting undoes joining when no part holds the separator. */
  lemma {:induction false} SplitAppend(a: string, c: char, b: string, sep: char -> bool)
    requires forall i :: 0 <= i < |a| ==> !sep(a[i])
    requires sep(c)
    ensures Split(a + [c] + b, sep) == [a] + Split(b, sep)
  {
    var s := a + [c] + b;
    if a == "" {
      assert s[0] == c && s[1..] == b;
    } else {
      assert s[0] == a[0] && s[1..] == a[1..] + [c] + b;
      SplitAppend(a[1..], c, b, sep);
      SplitOn(s, sep, a[1..], Split(b, sep));
      assert [a[0]] + a[1..] == a;
    }
  }

  /** A first character that does not separate joins the first piece of the rest. */
  lemma SplitOn(s: string, sep: char -> bool, first: string, rest: seq<string>)
    requires s != "" && !sep(s[0]) && Split(s[1..], sep) == [first] + rest
    ensures Split(s, sep) == [[s[0]] + first] + rest
  {
  }

  lemma {:induction false} SplitJoin(parts: seq<string>, c: char)
    requires |parts| > 0
    requires forall p, i :: p in parts && 0 <= i < |p| ==> p[i] != c
    ensures Split(Join(parts, [c]), x => x == c) == parts
  {
    var sep := x => x == c;
    if |parts| == 1 {
      SplitNoSep(parts[0], sep);
    } else {
      SplitJoin(parts[1..], c);
      SplitAppend(parts[0], c, Join(parts[1..], [c]), sep);
      assert [parts[0]] + parts[1..] == parts;
    }
  }

  lemma {:induction false} JoinSplit(s: string, c: char)
    ensures Join(Split(s, x => x == c), [c]) == s
  {
    var sep := x => x == c;
    if s != "" {
      JoinSplit(s[1..], c);
      var rest := Split(s[1..], sep);
      if s[0] == c {
        assert Split(s, sep) == [""] + rest;
        JoinFirst("", rest, [c]);
        assert "" + [c] + s[1..] == s;
      } else {
        assert Split(s, sep) == [[s[0]] + rest[0]] + rest[1..];
        JoinPrefix([s[0]], rest, [c]);
        assert [s[0]] + s[1..] == s;
      }
    }
  }

  lemma JoinFirst(first: string, rest: seq<string>, sep: string)
    requires |rest| > 0
    ensures Join([first] + rest, sep) == first + sep + Join(rest, sep)
  {
    assert ([first] + rest)[1..] == rest;
  }

  /** What is put before the first part comes first in the whole. */
  lemma JoinPrefix(front: string, parts: seq<string>, sep: string)
    requires |parts| > 0
    ensures Join([front + parts[0]] + parts[1..], sep) == front + Join(parts, sep)
  {
    var more := [front + parts[0]] + parts[1..];
    if |parts| == 1 {
      assert more == [front + parts[0]];
    } else {
      assert more[1..] == parts[1..];
      assert front + parts[0] + sep + Join(parts[1..], sep) == front + (parts[0] + sep + Join(parts[1..], sep));
    }
  }

  predicate OccursAt(hay: string, needle: string, i: nat) {
    i + |needle| <= |hay| && hay[i..i + |needle|] == needle
  }

  predicate Contains(hay: string, needle: string) {
    exists i :: 0 <= i <= |hay| && OccursAt(hay, needle, i)
  }

  predicate EndsWith(s: string, suffix: string) {
    |suffix| <= |s| && s[|s| - |suffix|..] == suffix
  }

  predicate StartsWith(s: string, prefix: string) {
    |prefix| <= |s| && s[..|prefix|] == prefix
  }

  /** Decimal digits of a natural, as the language prints it. */
  function Digits(n: nat): (s: string)
    ensures s != "" && forall i :: 0 <= i < |s| ==> '0' <= s[i] <= '9'
  {
    var d := [((n % 10) + 48) as char];
    if n < 10 then d else Digits(n / 10) + d
  }

  lemma {:induction false} DigitsInjective(m: nat, n: nat)
    requires Digits(m) == Digits(n)
    ensures m == n
  {
    var a, b := Digits(m), Digits(n);
    assert a[|a| - 1] == ((m % 10) + 48) as char;
    assert b[|b| - 1] == ((n % 10) + 48) as char;
    assert m % 10 == n % 10;
    if m >= 10 && n >= 10 {
      assert a[..|a| - 1] == Digits(m / 10) && b[..|b| - 1] == Digits(n / 10);
      DigitsInjective(m / 10, n / 10);
    }
  }
}
