/** Byte-level BPE: the ranked merge loop, the byte alphabet it works on, and the chunk cache. */
module Bpe {
  import opened Basics

  type Symbol = seq<char>

  // ---- The byte alphabet ----

  /** Bytes that print as themselves. */
  predicate Printable(b: nat) {
    33 <= b <= 126 || 161 <= b <= 172 || 174 <= b <= 255
  }

  /** How many bytes below b do not print. */
  function Unprintable(b: nat): (n: nat)
    requires b <= 256
    ensures n <= b
  {
    if b == 0 then 0 else Unprintable(b - 1) + if Printable(b - 1) then 0 else 1
  }

  function ByteRune(b: Byte): char {
    if Printable(b) then b as char else (256 + Unprintable(b)) as char
  }

  method ByteRunes() returns (out: array<char>)
    ensures fresh(out) && out.Length == 256
    ensures forall b: Byte :: out[b] == ByteRune(b)
  {
    out := new char[256](_ => '\0');
    var n := 0;
    for b := 0 to 256
      invariant n == Unprintable(b)
      invariant forall c: Byte :: c < b ==> out[c] == ByteRune(c)
    {
      if Printable(b) {
        out[b] := b as char;
      } else {
        out[b] := (256 + n) as char;
        n := n + 1;
      }
    }
  }

  lemma {:induction false} UnprintableGrows(a: nat, b: nat)
    requires a < b <= 256
    ensures Unprintable(a) <= Unprintable(b)
    ensures !Printable(a) ==> Unprintable(a) < Unprintable(b)
  {
    if a + 1 < b { UnprintableGrows(a, b - 1); }
  }

  /** Distinct bytes have distinct runes, and none of them is the space that separates the two sides of a rank key. */
  lemma ByteRuneInjective(a: Byte, b: Byte)
    ensures ByteRune(a) == ByteRune(b) ==> a == b
    ensures ByteRune(a) != ' '
  {
    if a < b { UnprintableGrows(a, b); } else if b < a { UnprintableGrows(b, a); }
  }

  /** The bytes that do not print take the runes from 256 on, in their order. */
  lemma ByteRuneIs(b: Byte)
    ensures Printable(b) ==> ByteRune(b) as int == b
    ensures !Printable(b) ==> ByteRune(b) as int == 256 + |set c: Byte | c < b && !Printable(c)|
  {
    UnprintableIs(b);
  }

  lemma {:induction false} UnprintableIs(b: nat)
    requires b <= 256
    ensures Unprintable(b) == |set c: Byte | c < b && !Printable(c)|
  {
    var below := set c: Byte | c < b && !Printable(c);
    if b == 0 {
      assert below == {};
    } else {
      UnprintableIs(b - 1);
      var c: Byte := b - 1;
      var before := set c: Byte | c < b - 1 && !Printable(c);
      assert below == if Printable(c) then before else before + {c};
    }
  }

  // ---- Rank keys ----

  function Key(left: Symbol, right: Symbol): string { left + " " + right }

  /** A rank table's line "a b" is the key of a before b. */
  lemma KeyIs(left: Symbol, right: Symbol)
    ensures var k := Key(left, right); k[..|left|] == left && k[|left|] == ' ' && k[|left| + 1..] == right
  {}

  /** A symbol the merge loop can hold: byte runes, so no space. */
  predicate Clean(s: Symbol) { s != [] && Spaceless(s) }

  predicate AllClean(syms: seq<Symbol>) { forall k :: 0 <= k < |syms| ==> Clean(syms[k]) }

  predicate Spaceless(s: Symbol) { forall k :: 0 <= k < |s| ==> s[k] != ' ' }

  lemma {:induction false} KeyUnambiguous(l: Symbol, r: Symbol, l': Symbol, r': Symbol)
    requires Spaceless(l) && Spaceless(l') && Key(l, r) == Key(l', r')
    ensures l == l' && r == r'
  {
    var k, k' := Key(l, r), Key(l', r');
    if l == [] || l' == [] {
      assert k[0] == k'[0];
      assert l == [] <==> k[0] == ' ';
      assert l' == [] <==> k'[0] == ' ';
      assert k[1..] == k'[1..];
    } else {
      assert k[1..] == Key(l[1..], r) && k'[1..] == Key(l'[1..], r');
      KeyUnambiguous(l[1..], r, l'[1..], r');
      assert l == [k[0]] + l[1..] && l' == [k'[0]] + l'[1..];
    }
  }

  /** Ranks as the loader builds them: no two keys share one, and none is negative. */
  predicate GoodRanks(ranks: map<string, int>) {
    (forall k <- ranks :: ranks[k] >= 0)
    && forall k <- ranks, k' <- ranks :: ranks[k] == ranks[k'] ==> k == k'
  }

  /** The rank of a merge is its line; a repeated line keeps its first. */
  method LoadRanks(merges: seq<string>) returns (ranks: map<string, int>)
    ensures GoodRanks(ranks)
    ensures forall k :: k in ranks <==> k in merges
    ensures forall k <- ranks :: 0 <= ranks[k] < |merges| && merges[ranks[k]] == k && k !in merges[..ranks[k]]
  {
    ranks := map[];
    for i := 0 to |merges|
      invariant forall k :: k in ranks <==> k in merges[..i]
      invariant forall k <- ranks :: 0 <= ranks[k] < i && merges[ranks[k]] == k && k !in merges[..ranks[k]]
    {
      if merges[i] !in ranks { ranks := ranks[merges[i] := i]; }
      assert merges[..i + 1] == merges[..i] + [merges[i]];
    }
    assert merges[..|merges|] == merges;
  }

  // ---- One round: the pair to merge ----

  predicate Ranked(ranks: map<string, int>, syms: seq<Symbol>, i: nat) {
    i + 1 < |syms| && Key(syms[i], syms[i + 1]) in ranks
  }

  function Rank(ranks: map<string, int>, syms: seq<Symbol>, i: nat): int
    requires Ranked(ranks, syms, i)
  {
    ranks[Key(syms[i], syms[i + 1])]
  }

  /** The lowest-ranked pair, leftmost among equals. */
  ghost predicate IsBest(ranks: map<string, int>, syms: seq<Symbol>, at: nat) {
    Ranked(ranks, syms, at)
    && (forall i :: 0 <= i < at && Ranked(ranks, syms, i) ==> Rank(ranks, syms, i) > Rank(ranks, syms, at))
    && (forall i :: at <= i && Ranked(ranks, syms, i) ==> Rank(ranks, syms, i) >= Rank(ranks, syms, at))
  }

  /** Its place among the first n pairs. */
  function BestOf(ranks: map<string, int>, syms: seq<Symbol>, n: nat): (at: Option<nat>)
    ensures at.None? ==> forall i :: 0 <= i < n ==> !Ranked(ranks, syms, i)
    ensures at.Some? ==> at.value < n && Ranked(ranks, syms, at.value)
    ensures at.Some? ==> forall i :: 0 <= i < n && Ranked(ranks, syms, i) ==>
      Rank(ranks, syms, i) > Rank(ranks, syms, at.value) || (i >= at.value && Rank(ranks, syms, i) == Rank(ranks, syms, at.value))
  {
    if n == 0 then None else
    var at := BestOf(ranks, syms, n - 1);
    if Ranked(ranks, syms, n - 1) && (at.None? || Rank(ranks, syms, n - 1) < Rank(ranks, syms, at.value))
    then Some(n - 1) else at
  }

  function Best(ranks: map<string, int>, syms: seq<Symbol>): (at: Option<nat>)
    ensures at.None? ==> forall i: nat :: !Ranked(ranks, syms, i)
    ensures at.Some? ==> IsBest(ranks, syms, at.value)
  {
    BestOf(ranks, syms, |syms|)
  }

  lemma BestIs(ranks: map<string, int>, syms: seq<Symbol>, at: nat)
    requires IsBest(ranks, syms, at)
    ensures Best(ranks, syms) == Some(at)
  {
    assert Ranked(ranks, syms, at);
    var b := Best(ranks, syms).value;
    assert Ranked(ranks, syms, b);
  }

  lemma DropMore<T>(s: seq<T>, i: nat, n: nat)
    requires i + n <= |s|
    ensures s[i..][n..] == s[i + n..]
  {}

  // ---- The loop, and the loop it stands in for ----

  /** Every occurrence of (l, r), left to right and without overlap, becomes l + r. */
  function Sweep(l: Symbol, r: Symbol, syms: seq<Symbol>): (out: seq<Symbol>)
    ensures |out| <= |syms|
  {
    if syms == [] then []
    else if |syms| >= 2 && syms[0] == l && syms[1] == r then [l + r] + Sweep(l, r, syms[2..])
    else [syms[0]] + Sweep(l, r, syms[1..])
  }

  lemma {:induction false} SweepShrinks(l: Symbol, r: Symbol, syms: seq<Symbol>, at: nat)
    requires at + 1 < |syms| && syms[at] == l && syms[at + 1] == r
    ensures |Sweep(l, r, syms)| < |syms|
  {
    if !(syms[0] == l && syms[1] == r) { SweepShrinks(l, r, syms[1..], at - 1); }
  }

  /** The source's loop: the best pair is swept away, until no pair is ranked. */
  function SweepAll(ranks: map<string, int>, syms: seq<Symbol>): seq<Symbol>
    decreases |syms|
  {
    match Best(ranks, syms)
    case None => syms
    case Some(at) =>
      SweepShrinks(syms[at], syms[at + 1], syms, at);
      SweepAll(ranks, Sweep(syms[at], syms[at + 1], syms))
  }

  function MergeAt(syms: seq<Symbol>, at: nat): seq<Symbol>
    requires at + 1 < |syms|
  {
    syms[..at] + [syms[at] + syms[at + 1]] + syms[at + 2..]
  }

  /** BPE as it is defined: one pair at a time. */
  function MergeAll(ranks: map<string, int>, syms: seq<Symbol>): seq<Symbol>
    decreases |syms|
  {
    match Best(ranks, syms)
    case None => syms
    case Some(at) => MergeAll(ranks, MergeAt(syms, at))
  }

  /** Every ranked pair that contains the output of a merge ranks after that merge. */
  ghost predicate MergesInOrder(ranks: map<string, int>) {
    forall l: Symbol, r: Symbol, x: Symbol | Clean(l) && Clean(r) && Clean(x) && Key(l, r) in ranks ::
      (Key(x, l + r) in ranks ==> ranks[Key(x, l + r)] > ranks[Key(l, r)])
      && (Key(l + r, x) in ranks ==> ranks[Key(l + r, x)] > ranks[Key(l, r)])
  }

  /** Midway through a sweep of (l, r): done is swept, rest is not, and every ranked pair ranks at least as high. */
  ghost predicate Midway(ranks: map<string, int>, l: Symbol, r: Symbol, done: seq<Symbol>, rest: seq<Symbol>)
    requires Key(l, r) in ranks
  {
    AllClean(done + rest) && NoneBelow(ranks, ranks[Key(l, r)], done + rest) && Swept(l, r, done + rest, |done|)
  }

  ghost predicate NoneBelow(ranks: map<string, int>, least: int, syms: seq<Symbol>) {
    forall i: nat | Ranked(ranks, syms, i) :: Rank(ranks, syms, i) >= least
  }

  /** (l, r) does not start at any of the first n places. */
  ghost predicate Swept(l: Symbol, r: Symbol, syms: seq<Symbol>, n: nat) {
    forall i: nat | i < n && i + 1 < |syms| :: syms[i] != l || syms[i + 1] != r
  }

  ghost predicate Merge(ranks: map<string, int>, l: Symbol, r: Symbol) {
    GoodRanks(ranks) && MergesInOrder(ranks) && Clean(l) && Clean(r) && Key(l, r) in ranks
  }

  lemma MidwayBest(ranks: map<string, int>, l: Symbol, r: Symbol, syms: seq<Symbol>, n: nat)
    requires Merge(ranks, l, r) && AllClean(syms) && NoneBelow(ranks, ranks[Key(l, r)], syms) && Swept(l, r, syms, n)
    requires n + 1 < |syms| && syms[n] == l && syms[n + 1] == r
    ensures Best(ranks, syms) == Some(n)
  {
    hide MergesInOrder, Best;
    forall i: nat | i < n && Ranked(ranks, syms, i) ensures Rank(ranks, syms, i) > ranks[Key(l, r)] {
      assert Clean(syms[i]);
      if Key(syms[i], syms[i + 1]) == Key(l, r) { KeyUnambiguous(syms[i], syms[i + 1], l, r); }
    }
    assert Ranked(ranks, syms, n);
    BestIs(ranks, syms, n);
  }

  /** After a merge, the pairs that hold its output rank later and the others are as they were. */
  lemma MergedRanks(ranks: map<string, int>, l: Symbol, r: Symbol, a: seq<Symbol>, b: seq<Symbol>)
    requires Merge(ranks, l, r) && AllClean(a + [l, r] + b) && NoneBelow(ranks, ranks[Key(l, r)], a + [l, r] + b)
    ensures AllClean(a + [l + r] + b) && NoneBelow(ranks, ranks[Key(l, r)], a + [l + r] + b)
  {
    hide GoodRanks;
    var n := |a|;
    var syms, syms' := a + [l, r] + b, a + [l + r] + b;
    assert forall i :: 0 <= i < n ==> syms'[i] == syms[i];
    assert forall i :: n < i < |syms'| ==> syms'[i] == syms[i + 1];
    assert syms'[n] == l + r && Clean(l + r);
    forall i: nat | Ranked(ranks, syms', i) ensures Rank(ranks, syms', i) >= ranks[Key(l, r)] {
      if i + 1 < n {
        assert Ranked(ranks, syms, i);
      } else if n < i {
        assert Ranked(ranks, syms, i + 1);
      } else if i == n {
        assert Clean(syms'[i + 1]) && Key(l + r, syms'[i + 1]) in ranks;
      } else {
        assert Clean(syms'[i]) && Key(syms'[i], l + r) in ranks;
      }
    }
  }

  lemma MergedSwept(l: Symbol, r: Symbol, a: seq<Symbol>, b: seq<Symbol>)
    requires l != [] && r != [] && Swept(l, r, a + [l, r] + b, |a|)
    ensures Swept(l, r, a + [l + r] + b, |a| + 1)
  {
    var syms, syms' := a + [l, r] + b, a + [l + r] + b;
    forall i: nat | i < |a| + 1 && i + 1 < |syms'| ensures syms'[i] != l || syms'[i + 1] != r {
      if i + 1 < |a| {
        assert syms'[i] == syms[i] && syms'[i + 1] == syms[i + 1];
      } else {
        assert |l + r| > |l| && |l + r| > |r|;
      }
    }
  }

  lemma MidwayMerge(ranks: map<string, int>, l: Symbol, r: Symbol, done: seq<Symbol>, rest: seq<Symbol>)
    requires Merge(ranks, l, r) && Midway(ranks, l, r, done, rest)
    requires |rest| >= 2 && rest[0] == l && rest[1] == r
    ensures Best(ranks, done + rest) == Some(|done|)
    ensures MergeAt(done + rest, |done|) == (done + [l + r]) + rest[2..]
    ensures Midway(ranks, l, r, done + [l + r], rest[2..])
  {
    hide GoodRanks, MergesInOrder, NoneBelow, AllClean, Best;
    assert done + rest == done + [l, r] + rest[2..];
    MidwayBest(ranks, l, r, done + rest, |done|);
    MergedRanks(ranks, l, r, done, rest[2..]);
    MergedSwept(l, r, done, rest[2..]);
  }

  lemma MidwaySkip(ranks: map<string, int>, l: Symbol, r: Symbol, done: seq<Symbol>, rest: seq<Symbol>)
    requires Key(l, r) in ranks && Midway(ranks, l, r, done, rest)
    requires rest != [] && !(|rest| >= 2 && rest[0] == l && rest[1] == r)
    ensures Midway(ranks, l, r, done + [rest[0]], rest[1..])
  {
    hide NoneBelow, AllClean;
    assert (done + [rest[0]]) + rest[1..] == done + rest;
  }

  /** Finishing the sweep leaves what merging one pair at a time ends with unchanged. */
  lemma {:induction false} SweepIsMerges(ranks: map<string, int>, l: Symbol, r: Symbol, done: seq<Symbol>, rest: seq<Symbol>)
    requires Key(l, r) in ranks && Merge(ranks, l, r) && Midway(ranks, l, r, done, rest)
    ensures MergeAll(ranks, done + rest) == MergeAll(ranks, done + Sweep(l, r, rest))
    decreases |rest|
  {
    hide Key, Merge, Midway, Best, IsBest, MergeAt, Sweep;
    SweepHead(l, r, done, rest);
    if rest == [] {
    } else if |rest| >= 2 && rest[0] == l && rest[1] == r {
      MidwayMerge(ranks, l, r, done, rest);
      SweepIsMerges(ranks, l, r, done + [l + r], rest[2..]);
    } else {
      MidwaySkip(ranks, l, r, done, rest);
      SweepIsMerges(ranks, l, r, done + [rest[0]], rest[1..]);
    }
  }

  lemma SweepHead(l: Symbol, r: Symbol, done: seq<Symbol>, rest: seq<Symbol>)
    ensures rest == [] ==> Sweep(l, r, rest) == rest
    ensures rest != [] ==>
      if |rest| >= 2 && rest[0] == l && rest[1] == r then
        done + Sweep(l, r, rest) == (done + [l + r]) + Sweep(l, r, rest[2..])
      else
        done + rest == (done + [rest[0]]) + rest[1..]
        && done + Sweep(l, r, rest) == (done + [rest[0]]) + Sweep(l, r, rest[1..])
  {
    if |rest| >= 2 && rest[0] == l && rest[1] == r {
      Associates(done, [l + r], Sweep(l, r, rest[2..]));
    } else if rest != [] {
      Uncons(rest);
      Associates(done, [rest[0]], rest[1..]);
      Associates(done, [rest[0]], Sweep(l, r, rest[1..]));
    }
  }

  lemma MidwayStart(ranks: map<string, int>, syms: seq<Symbol>, at: nat)
    requires GoodRanks(ranks) && MergesInOrder(ranks) && AllClean(syms) && IsBest(ranks, syms, at)
    ensures Ranked(ranks, syms, at) && Merge(ranks, syms[at], syms[at + 1]) && Midway(ranks, syms[at], syms[at + 1], [], syms)
  {
    hide GoodRanks, MergesInOrder;
    assert [] + syms == syms;
    assert Clean(syms[at]) && Clean(syms[at + 1]);
    assert forall i: nat | Ranked(ranks, syms, i) :: i < at || at <= i;
  }

  lemma {:induction false} SweepClean(l: Symbol, r: Symbol, syms: seq<Symbol>)
    requires Clean(l) && Clean(r) && AllClean(syms)
    ensures AllClean(Sweep(l, r, syms))
  {
    if syms == [] {
    } else if |syms| >= 2 && syms[0] == l && syms[1] == r {
      SweepClean(l, r, syms[2..]);
    } else {
      SweepClean(l, r, syms[1..]);
    }
  }

  /** The loop that sweeps gives the symbols that merging one pair at a time gives. */
  lemma {:induction false} SweepAllIsMergeAll(ranks: map<string, int>, syms: seq<Symbol>)
    requires GoodRanks(ranks) && MergesInOrder(ranks) && AllClean(syms)
    ensures SweepAll(ranks, syms) == MergeAll(ranks, syms)
    decreases |syms|
  {
    hide GoodRanks, MergesInOrder, AllClean, Midway, Merge, IsBest, Best, Sweep;
    var best := Best(ranks, syms);
    if best.Some? {
      var at := best.value;
      MidwayStart(ranks, syms, at);
      SweepOnce(ranks, syms, at);
      SweepAllIsMergeAll(ranks, Sweep(syms[at], syms[at + 1], syms));
      SweepIsMerges(ranks, syms[at], syms[at + 1], [], syms);
      assert [] + syms == syms;
      assert [] + Sweep(syms[at], syms[at + 1], syms) == Sweep(syms[at], syms[at + 1], syms);
    }
  }

  lemma SweepOnce(ranks: map<string, int>, syms: seq<Symbol>, at: nat)
    requires AllClean(syms) && Ranked(ranks, syms, at)
    ensures |Sweep(syms[at], syms[at + 1], syms)| < |syms| && AllClean(Sweep(syms[at], syms[at + 1], syms))
  {
    assert Clean(syms[at]) && Clean(syms[at + 1]);
    SweepShrinks(syms[at], syms[at + 1], syms, at);
    SweepClean(syms[at], syms[at + 1], syms);
  }

  function Join(syms: seq<Symbol>): Symbol {
    if syms == [] then [] else syms[0] + Join(syms[1..])
  }

  lemma {:induction false} SweepJoin(l: Symbol, r: Symbol, syms: seq<Symbol>)
    ensures Join(Sweep(l, r, syms)) == Join(syms)
  {
    if syms == [] {
    } else if |syms| >= 2 && syms[0] == l && syms[1] == r {
      SweepJoin(l, r, syms[2..]);
      assert syms[1..][1..] == syms[2..];
      assert Join(syms) == l + (r + Join(syms[2..]));
    } else {
      SweepJoin(l, r, syms[1..]);
    }
  }

  /** The loop ends with no ranked pair, and the symbols still spell the chunk. */
  lemma {:induction false} SweepAllDone(ranks: map<string, int>, syms: seq<Symbol>)
    ensures Join(SweepAll(ranks, syms)) == Join(syms)
    ensures forall i: nat :: !Ranked(ranks, SweepAll(ranks, syms), i)
    decreases |syms|
  {
    var best := Best(ranks, syms);
    if best.Some? {
      var at := best.value;
      SweepShrinks(syms[at], syms[at + 1], syms, at);
      SweepJoin(syms[at], syms[at + 1], syms);
      SweepAllDone(ranks, Sweep(syms[at], syms[at + 1], syms));
    }
  }

  /** Without that order the two differ: here "aba" ranks before the merge that makes its left half. */
  lemma OrderMatters()
    ensures var ranks := map[Key("a", "b") := 1, Key("ab", "a") := 0];
            GoodRanks(ranks)
            && SweepAll(ranks, ["a", "b", "a", "b"]) == ["ab", "ab"]
            && MergeAll(ranks, ["a", "b", "a", "b"]) == ["aba", "b"]
  {
    var ranks := map[Key("a", "b") := 1, Key("ab", "a") := 0];
    assert Key("a", "b") != Key("ab", "a");
    FirstMerge(ranks);
    SweepTwice();
    LaterMerges(ranks);
  }

  lemma FirstMerge(ranks: map<string, int>)
    requires ranks == map[Key("a", "b") := 1, Key("ab", "a") := 0] && Key("a", "b") != Key("ab", "a")
    ensures Best(ranks, ["a", "b", "a", "b"]) == Some(0)
  {
    var s0 := ["a", "b", "a", "b"];
    assert Key("b", "a")[0] == 'b' && Key("a", "b")[0] == 'a' && Key("ab", "a")[0] == 'a';
    assert IsBest(ranks, s0, 0);
    BestIs(ranks, s0, 0);
  }

  lemma LaterMerges(ranks: map<string, int>)
    requires ranks == map[Key("a", "b") := 1, Key("ab", "a") := 0] && Key("a", "b") != Key("ab", "a")
    ensures Best(ranks, ["ab", "ab"]) == Best(ranks, ["aba", "b"]) == None
    ensures Best(ranks, ["ab", "a", "b"]) == Some(0)
    ensures MergeAt(["a", "b", "a", "b"], 0) == ["ab", "a", "b"]
    ensures MergeAt(["ab", "a", "b"], 0) == ["aba", "b"]
  {
    assert "a" + "b" == "ab" && "ab" + "a" == "aba";
    assert |Key("ab", "ab")| == |Key("aba", "b")| == 5 && |Key("a", "b")| == 3 && |Key("ab", "a")| == 4;
    var s2 := ["ab", "a", "b"];
    assert !Ranked(ranks, ["ab", "ab"], 0) && !Ranked(ranks, ["aba", "b"], 0);
    assert IsBest(ranks, s2, 0);
    BestIs(ranks, s2, 0);
  }

  lemma SweepTwice()
    ensures Sweep("a", "b", ["a", "b", "a", "b"]) == ["ab", "ab"]
  {
    var s0 := ["a", "b", "a", "b"];
    assert "a" + "b" == "ab";
    assert s0[2..] == ["a", "b"] && ["a", "b"][2..] == [];
    assert Sweep("a", "b", ["a", "b"]) == ["ab"] + Sweep("a", "b", []);
  }

  // ---- The chunk encoder ----

  datatype Result<T> = Ok(value: T) | NoToken(symbol: Symbol)

  function Runes(chunk: seq<Byte>): (syms: seq<Symbol>)
    ensures |syms| == |chunk|
    ensures forall i :: 0 <= i < |chunk| ==> syms[i] == [ByteRune(chunk[i])]
  {
    if chunk == [] then [] else [[ByteRune(chunk[0])]] + Runes(chunk[1..])
  }

  lemma RunesClean(chunk: seq<Byte>)
    ensures AllClean(Runes(chunk))
  {
    forall i | 0 <= i < |chunk| ensures Clean(Runes(chunk)[i]) { ByteRuneInjective(chunk[i], chunk[i]); }
  }

  function Ids(vocab: map<Symbol, int>, syms: seq<Symbol>): Result<seq<int>> {
    if syms == [] then Ok([])
    else if syms[0] !in vocab then NoToken(syms[0])
    else match Ids(vocab, syms[1..])
         case Ok(rest) => Ok([vocab[syms[0]]] + rest)
         case NoToken(s) => NoToken(s)
  }

  /** The token of each symbol in order, or the first symbol that has none. */
  ghost predicate TokensOf(vocab: map<Symbol, int>, syms: seq<Symbol>, r: Result<seq<int>>) {
    match r
    case Ok(ids) => |ids| == |syms| && forall i :: 0 <= i < |syms| ==> syms[i] in vocab && ids[i] == vocab[syms[i]]
    case NoToken(s) =>
      exists i :: 0 <= i < |syms| && syms[i] == s && s !in vocab && forall j :: 0 <= j < i ==> syms[j] in vocab
  }

  lemma {:induction false} IdsAre(vocab: map<Symbol, int>, syms: seq<Symbol>)
    ensures TokensOf(vocab, syms, Ids(vocab, syms))
  {
    if syms != [] && syms[0] in vocab {
      var rest := syms[1..];
      IdsAre(vocab, rest);
      assert forall i :: 1 <= i < |syms| ==> syms[i] == rest[i - 1];
      match Ids(vocab, rest)
      case Ok(_) =>
      case NoToken(s) =>
        var i :| 0 <= i < |rest| && rest[i] == s && s !in vocab && forall j :: 0 <= j < i ==> rest[j] in vocab;
        assert syms[i + 1] == s;
    }
  }

  /** What a chunk encodes to, without the cache. */
  function Encoding(vocab: map<Symbol, int>, ranks: map<string, int>, chunk: seq<Byte>): Result<seq<int>> {
    Ids(vocab, SweepAll(ranks, Runes(chunk)))
  }

  /** With merges in order, the encoding is the one the definition of BPE gives. */
  lemma EncodingIsBpe(vocab: map<Symbol, int>, ranks: map<string, int>, chunk: seq<Byte>)
    requires GoodRanks(ranks) && MergesInOrder(ranks)
    ensures Encoding(vocab, ranks, chunk) == Ids(vocab, MergeAll(ranks, Runes(chunk)))
    ensures TokensOf(vocab, MergeAll(ranks, Runes(chunk)), Encoding(vocab, ranks, chunk))
  {
    RunesClean(chunk);
    SweepAllIsMergeAll(ranks, Runes(chunk));
    IdsAre(vocab, MergeAll(ranks, Runes(chunk)));
  }

  const CACHE_LIMIT := 65536

  class Tokenizer {
    const vocab: map<Symbol, int>
    const ranks: map<string, int>
    const byteRune: array<char>
    var cache: map<seq<Byte>, seq<int>>

    ghost predicate Valid()
      reads this, byteRune
    {
      GoodRanks(ranks)
      && byteRune.Length == 256 && (forall b: Byte :: byteRune[b] == ByteRune(b))
      && |cache| <= CACHE_LIMIT
      && forall c <- cache :: Encoding(vocab, ranks, c) == Ok(cache[c])
    }

    constructor (vocab: map<Symbol, int>, ranks: map<string, int>)
      requires GoodRanks(ranks)
      ensures Valid() && this.vocab == vocab && this.ranks == ranks && cache == map[]
    {
      this.vocab, this.ranks, cache := vocab, ranks, map[];
      var runes := ByteRunes();
      byteRune := runes;
    }

    /** The best pair, scanned left to right, or None. */
    method FindBest(syms: seq<Symbol>) returns (at: Option<nat>)
      requires GoodRanks(ranks)
      ensures at == Best(ranks, syms)
    {
      at := None;
      var best := -1;
      var i := 0;
      while i + 1 < |syms|
        invariant i == 0 || i < |syms|
        invariant at == BestOf(ranks, syms, i)
        invariant best == if at.None? then -1 else Rank(ranks, syms, at.value)
      {
        var key := Key(syms[i], syms[i + 1]);
        if key in ranks && (best < 0 || ranks[key] < best) {
          best, at := ranks[key], Some(i);
        }
        i := i + 1;
      }
      if |syms| > 0 { assert BestOf(ranks, syms, |syms|) == BestOf(ranks, syms, |syms| - 1); }
    }

    static method SweepPair(left: Symbol, right: Symbol, syms: seq<Symbol>) returns (merged: seq<Symbol>)
      ensures merged == Sweep(left, right, syms)
    {
      merged := [];
      var i := 0;
      while i < |syms|
        invariant 0 <= i <= |syms|
        invariant merged + Sweep(left, right, syms[i..]) == Sweep(left, right, syms)
      {
        if i + 1 < |syms| && syms[i] == left && syms[i + 1] == right {
          DropMore(syms, i, 2);
          Associates(merged, [left + right], Sweep(left, right, syms[i + 2..]));
          merged := merged + [left + right];
          i := i + 2;
        } else {
          DropMore(syms, i, 1);
          Associates(merged, [syms[i]], Sweep(left, right, syms[i + 1..]));
          merged := merged + [syms[i]];
          i := i + 1;
        }
      }
    }

    method Bpe(chunk: seq<Byte>) returns (r: Result<seq<int>>)
      requires Valid()
      modifies this`cache
      ensures Valid()
      ensures r == Encoding(vocab, ranks, chunk) && TokensOf(vocab, SweepAll(ranks, Runes(chunk)), r)
      ensures cache == if chunk !in old(cache) && |old(cache)| < CACHE_LIMIT && r.Ok?
                       then old(cache)[chunk := r.value] else old(cache)
    {
      hide GoodRanks, Ids, SweepAll, TokensOf;
      IdsAre(vocab, SweepAll(ranks, Runes(chunk)));
      if chunk in cache {
        return Ok(cache[chunk]);
      }
      var syms := ToRunes(chunk);
      syms := MergeLoop(syms);
      r := LookUp(syms);
      if r.Ok? && |cache| < CACHE_LIMIT {
        cache := cache[chunk := r.value];
      }
    }

    method ToRunes(chunk: seq<Byte>) returns (syms: seq<Symbol>)
      requires Valid()
      ensures syms == Runes(chunk)
    {
      hide GoodRanks, ByteRune;
      syms := [];
      for i := 0 to |chunk|
        invariant |syms| == i && forall k :: 0 <= k < i ==> syms[k] == [ByteRune(chunk[k])]
      {
        syms := syms + [[byteRune[chunk[i]]]];
      }
    }

    method MergeLoop(syms0: seq<Symbol>) returns (syms: seq<Symbol>)
      requires GoodRanks(ranks)
      ensures syms == SweepAll(ranks, syms0)
    {
      syms := syms0;
      while |syms| > 1
        invariant SweepAll(ranks, syms) == SweepAll(ranks, syms0)
        decreases |syms|
      {
        var at := FindBest(syms);
        if at.None? { break; }
        SweepShrinks(syms[at.value], syms[at.value + 1], syms, at.value);
        syms := SweepPair(syms[at.value], syms[at.value + 1], syms);
      }
    }

    method LookUp(syms: seq<Symbol>) returns (r: Result<seq<int>>)
      ensures r == Ids(vocab, syms)
      ensures r.Ok? ==> |r.value| == |syms| && forall i :: 0 <= i < |syms| ==> syms[i] in vocab && r.value[i] == vocab[syms[i]]
      ensures r.NoToken? ==>
        exists i :: 0 <= i < |syms| && syms[i] == r.symbol && r.symbol !in vocab && forall j :: 0 <= j < i ==> syms[j] in vocab
    {
      IdsAre(vocab, syms);
      var ids: seq<int> := [];
      assert syms[0..] == syms;
      PrependNone(Ids(vocab, syms));
      for i := 0 to |syms|
        invariant Ids(vocab, syms) == Prepend(ids, Ids(vocab, syms[i..]))
      {
        assert syms[i..][1..] == syms[i + 1..];
        if syms[i] !in vocab { return NoToken(syms[i]); }
        PrependMore(ids, vocab[syms[i]], Ids(vocab, syms[i + 1..]));
        ids := ids + [vocab[syms[i]]];
      }
      assert syms[|syms|..] == [];
      assert ids + [] == ids;
      r := Ok(ids);
    }
  }

  ghost function Prepend(ids: seq<int>, r: Result<seq<int>>): Result<seq<int>> {
    match r
    case Ok(rest) => Ok(ids + rest)
    case NoToken(s) => NoToken(s)
  }

  lemma PrependNone(r: Result<seq<int>>)
    ensures Prepend([], r) == r
  {
    if r.Ok? { assert [] + r.value == r.value; }
  }

  lemma PrependMore(ids: seq<int>, id: int, r: Result<seq<int>>)
    ensures Prepend(ids, Prepend([id], r)) == Prepend(ids + [id], r)
  {
    if r.Ok? { assert ids + ([id] + r.value) == (ids + [id]) + r.value; }
  }
}
