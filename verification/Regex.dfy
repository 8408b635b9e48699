/** Backtracking regular expressions with leftmost-first semantics: a pattern tried at a
    position yields its possible ends in the order a backtracking matcher would try them.
    The match is the first of them.
    */
module Regex {

  datatype Regex =
    | Empty
    | Class(p: char -> bool)
    | Cat(first: Regex, second: Regex)
    | Alt(left: Regex, right: Regex)
    | Star(body: Regex)
    | NotFollowedBy(q: char -> bool)

  function Opt(r: Regex): Regex { Alt(r, Empty) }

  function Plus(r: Regex): Regex { Cat(r, Star(r)) }

  function AnyOf(rs: seq<Regex>): Regex
    requires rs != []
  {
    if |rs| == 1 then rs[0] else Alt(rs[0], AnyOf(rs[1..]))
  }

  /** All of es lie between lo and hi. */
  ghost predicate Within(es: seq<nat>, lo: nat, hi: nat) {
    forall k :: 0 <= k < |es| ==> lo <= es[k] <= hi
  }

  /** The ends of every way r can match s from i, most preferred first. */
  ghost function Ends(r: Regex, s: seq<char>, i: nat): (es: seq<nat>)
    requires i <= |s|
    ensures Within(es, i, |s|)
    decreases |s| - i, r, 0
  {
    match r
    case Empty => [i]
    case Class(p) => if i < |s| && p(s[i]) then [i + 1] else []
    case Cat(a, b) => EndsFrom(Ends(a, s, i), b, s, i)
    case Alt(a, b) => Ends(a, s, i) + Ends(b, s, i)
    case Star(a) =>
      // An iteration that consumes nothing is not repeated.
      var later := Later(Ends(a, s, i), i, |s|);
      (if later == [] then [] else EndsFrom(later, r, s, i + 1)) + [i]
    case NotFollowedBy(q) => if i == |s| || !q(s[i]) then [i] else []
  }

  /** r tried from each of the starts, in order: backtracking into the starts. */
  ghost function EndsFrom(starts: seq<nat>, r: Regex, s: seq<char>, i: nat): (es: seq<nat>)
    requires i <= |s|
    requires Within(starts, i, |s|)
    ensures Within(es, i, |s|)
    decreases |s| - i, r, |starts|
  {
    if starts == [] then [] else
    Ends(r, s, starts[0]) + EndsFrom(starts[1..], r, s, i)
  }

  ghost function Later(es: seq<nat>, i: nat, hi: nat): (ls: seq<nat>)
    requires Within(es, i, hi)
    ensures Within(ls, i + 1, hi) && (ls != [] ==> i < hi)
  {
    if es == [] then []
    else if es[0] > i then [es[0]] + Later(es[1..], i, hi)
    else Later(es[1..], i, hi)
  }

  /** Leftmost-first: r matches s from i, and the match ends at e. */
  ghost predicate Matches(r: Regex, s: seq<char>, i: nat, e: nat)
    requires i <= |s|
  {
    Ends(r, s, i) != [] && Ends(r, s, i)[0] == e
  }

  ghost predicate Fails(r: Regex, s: seq<char>, i: nat)
    requires i <= |s|
  {
    Ends(r, s, i) == []
  }

  // ---- Derived forms ----

  /** The end of the longest run of p from i. */
  ghost function RunEnd(p: char -> bool, s: seq<char>, i: nat): (e: nat)
    requires i <= |s|
    ensures i <= e <= |s|
    ensures forall k :: i <= k < e ==> p(s[k])
    ensures e < |s| ==> !p(s[e])
    decreases |s| - i
  {
    if i < |s| && p(s[i]) then RunEnd(p, s, i + 1) else i
  }

  lemma {:induction false} RunEndUnique(p: char -> bool, s: seq<char>, i: nat, e: nat)
    requires i <= e <= |s|
    requires forall k :: i <= k < e ==> p(s[k])
    requires e < |s| ==> !p(s[e])
    ensures RunEnd(p, s, i) == e
    decreases e - i
  {
    if i < e { RunEndUnique(p, s, i + 1, e); }
  }

  /** e, e - 1, ..., i: a greedy run, and the shorter runs it backs off to. */
  ghost function Down(e: nat, i: nat): (d: seq<nat>)
    requires i <= e
    ensures |d| == e - i + 1
    ensures forall k :: 0 <= k < |d| ==> d[k] == e - k
  {
    if e == i then [i] else [e] + Down(e - 1, i)
  }

  lemma DownAppend(e: nat, i: nat)
    requires i < e
    ensures Down(e, i + 1) + [i] == Down(e, i)
  {}

  lemma EndsOfClass(p: char -> bool, s: seq<char>, i: nat)
    requires i <= |s|
    ensures Ends(Class(p), s, i) == if i < |s| && p(s[i]) then [i + 1] else []
  {}

  lemma FromNone(r: Regex, s: seq<char>, i: nat)
    requires i <= |s|
    ensures EndsFrom([], r, s, i) == []
  {}

  /** One start alone. */
  lemma FromOne(r: Regex, s: seq<char>, i: nat, start: nat)
    requires i <= start <= |s|
    ensures EndsFrom([start], r, s, i) == Ends(r, s, start)
  {
    hide Ends;
    assert [start][1..] == [] && EndsFrom([], r, s, i) == [];
    assert EndsFrom([start], r, s, i) == Ends(r, s, start) + [];
  }

  /** One iteration of a greedy run, and then stopping before it. */
  lemma StarStep(p: char -> bool, s: seq<char>, i: nat)
    requires i < |s| && p(s[i])
    ensures Ends(Star(Class(p)), s, i) == Ends(Star(Class(p)), s, i + 1) + [i]
  {
    assert Ends(Class(p), s, i) == [i + 1];
    assert Later([i + 1], i, |s|) == [i + 1] + Later([], i, |s|) == [i + 1];
    FromOne(Star(Class(p)), s, i + 1, i + 1);
  }

  lemma StarStops(p: char -> bool, s: seq<char>, i: nat)
    requires i <= |s| && (i < |s| ==> !p(s[i]))
    ensures Ends(Star(Class(p)), s, i) == [i]
  {
    assert Ends(Class(p), s, i) == [];
    assert Later([], i, |s|) == [];
  }

  lemma {:induction false} EndsOfStar(p: char -> bool, s: seq<char>, i: nat)
    requires i <= |s|
    ensures Ends(Star(Class(p)), s, i) == Down(RunEnd(p, s, i), i)
    decreases |s| - i
  {
    hide Ends;
    if i < |s| && p(s[i]) {
      EndsOfStar(p, s, i + 1);
      StarStep(p, s, i);
      DownAppend(RunEnd(p, s, i), i);
    } else {
      StarStops(p, s, i);
    }
  }

  /** Back-tracking stops at the first start from which r matches. */
  lemma {:induction false} FirstStart(starts: seq<nat>, r: Regex, s: seq<char>, i: nat, k: nat, e: nat)
    requires i <= |s|
    requires Within(starts, i, |s|)
    requires k < |starts|
    requires forall j :: 0 <= j < k ==> Fails(r, s, starts[j])
    requires Matches(r, s, starts[k], e)
    ensures EndsFrom(starts, r, s, i) != [] && EndsFrom(starts, r, s, i)[0] == e
    decreases k
  {
    if k > 0 {
      assert Fails(r, s, starts[0]);
      FirstStart(starts[1..], r, s, i, k - 1, e);
    }
  }

  lemma {:induction false} NoStart(starts: seq<nat>, r: Regex, s: seq<char>, i: nat)
    requires i <= |s|
    requires Within(starts, i, |s|)
    requires forall j :: 0 <= j < |starts| ==> Fails(r, s, starts[j])
    ensures EndsFrom(starts, r, s, i) == []
  {
    if starts != [] {
      assert Fails(r, s, starts[0]);
      NoStart(starts[1..], r, s, i);
    }
  }

  lemma {:induction false} EndsOfPlus(p: char -> bool, s: seq<char>, i: nat)
    requires i <= |s|
    ensures Ends(Plus(Class(p)), s, i)
         == if i < |s| && p(s[i]) then Down(RunEnd(p, s, i), i + 1) else []
  {
    if i < |s| && p(s[i]) {
      EndsOfStar(p, s, i + 1);
      EndsOfClass(p, s, i);
      FromOne(Star(Class(p)), s, i, i + 1);
      assert RunEnd(p, s, i) == RunEnd(p, s, i + 1);
    } else {
      assert EndsFrom([], Star(Class(p)), s, i) == [];
    }
  }

  lemma EndsOfCat(a: Regex, b: Regex, s: seq<char>, i: nat)
    requires i <= |s|
    ensures Ends(Cat(a, b), s, i) == EndsFrom(Ends(a, s, i), b, s, i)
  {}

  /** A greedy run then r: the run backs off to the last place, k, from which r matches. */
  lemma StarThen(p: char -> bool, r: Regex, s: seq<char>, i: nat, k: nat, e: nat)
    requires i <= |s| && i <= k <= RunEnd(p, s, i)
    requires forall x :: k < x <= RunEnd(p, s, i) ==> Fails(r, s, x)
    requires Matches(r, s, k, e)
    ensures Matches(Cat(Star(Class(p)), r), s, i, e)
  {
    hide Ends, EndsFrom;
    EndsOfCat(Star(Class(p)), r, s, i);
    var end := RunEnd(p, s, i);
    EndsOfStar(p, s, i);
    FirstStart(Down(end, i), r, s, i, end - k, e);
  }

  lemma StarThenFails(p: char -> bool, r: Regex, s: seq<char>, i: nat)
    requires i <= |s|
    requires forall x :: i <= x <= RunEnd(p, s, i) ==> Fails(r, s, x)
    ensures Fails(Cat(Star(Class(p)), r), s, i)
  {
    hide Ends, EndsFrom;
    EndsOfCat(Star(Class(p)), r, s, i);
    EndsOfStar(p, s, i);
    NoStart(Down(RunEnd(p, s, i), i), r, s, i);
  }

  lemma PlusThen(p: char -> bool, r: Regex, s: seq<char>, i: nat, k: nat, e: nat)
    requires i < |s| && p(s[i]) && i < k <= RunEnd(p, s, i)
    requires forall x :: k < x <= RunEnd(p, s, i) ==> Fails(r, s, x)
    requires Matches(r, s, k, e)
    ensures Matches(Cat(Plus(Class(p)), r), s, i, e)
  {
    hide Ends, EndsFrom;
    EndsOfCat(Plus(Class(p)), r, s, i);
    var end := RunEnd(p, s, i);
    EndsOfPlus(p, s, i);
    FirstStart(Down(end, i + 1), r, s, i, end - k, e);
  }

  lemma PlusThenFails(p: char -> bool, r: Regex, s: seq<char>, i: nat)
    requires i <= |s|
    requires i < |s| && p(s[i]) ==> forall x :: i < x <= RunEnd(p, s, i) ==> Fails(r, s, x)
    ensures Fails(Cat(Plus(Class(p)), r), s, i)
  {
    hide Ends, EndsFrom;
    EndsOfCat(Plus(Class(p)), r, s, i);
    EndsOfPlus(p, s, i);
    if i < |s| && p(s[i]) {
      NoStart(Down(RunEnd(p, s, i), i + 1), r, s, i);
    } else {
      NoStart([], r, s, i);
    }
  }
}
