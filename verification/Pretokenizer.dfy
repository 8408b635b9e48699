/** The Qwen2 pre-tokenizer: the hand-written scanner must cut the chunks the published pattern cuts. */
module Pretokenizer {
  import opened Regex

  /** The Unicode tables the scanner consults. */
  datatype Tables = Tables(letter: char -> bool, number: char -> bool, space: char -> bool, lower: char -> char)

  /** The one fact about Unicode the scanner rests on: line breaks are white space. */
  predicate BreaksAreSpace(t: Tables) {
    t.space('\r') && t.space('\n')
  }

  function Newline(): char -> bool { c => c == '\r' || c == '\n' }
  function Is(x: char): char -> bool { c => c == x }
  function Folds(t: Tables, x: char): char -> bool { c => t.lower(c) == x }
  function Punct(t: Tables): char -> bool { c => !t.space(c) && !t.letter(c) && !t.number(c) }
  function Prefix(t: Tables): char -> bool { c => !Newline()(c) && !t.letter(c) && !t.number(c) }
  function NonSpace(t: Tables): char -> bool { c => !t.space(c) }

  /** The classes of the pattern, one character at a time. */
  lemma ClassesAre(t: Tables, c: char, x: char)
    ensures Newline()(c) <==> c as int == 10 || c as int == 13
    ensures Is(x)(c) <==> c == x
    ensures Punct(t)(c) <==> !t.space(c) && !t.letter(c) && !t.number(c)
    ensures Prefix(t)(c) <==> c as int != 10 && c as int != 13 && !t.letter(c) && !t.number(c)
    ensures NonSpace(t)(c) <==> !t.space(c)
    ensures Folds(t, x)(c) <==> t.lower(c) == x
  {}

  // ---- The pattern ----
  //
  // (?i:'s|'t|'re|'ve|'m|'ll|'d)|[^\r\n\p{L}\p{N}]?\p{L}+|\p{N}
  // | ?[^\s\p{L}\p{N}]+[\r\n]*|\s*[\r\n]+|\s+(?!\S)|\s+

  const QUOTE := 39 as char   // the apostrophe

  const SUFFIXES: seq<string> := ["s", "t", "re", "ve", "m", "ll", "d"]

  /** w, whatever the case. */
  function Folded(t: Tables, w: string): Regex
    requires w != ""
  {
    if |w| == 1 then Class(Folds(t, w[0])) else Cat(Class(Folds(t, w[0])), Folded(t, w[1..]))
  }

  /** A quote and one of ws. */
  function Suffix(t: Tables, ws: seq<string>): Regex
    requires ws != [] && forall k :: 0 <= k < |ws| ==> ws[k] != ""
  {
    var first := Cat(Class(Is(QUOTE)), Folded(t, ws[0]));
    if |ws| == 1 then first else Alt(first, Suffix(t, ws[1..]))
  }

  function Contraction(t: Tables): Regex { Suffix(t, SUFFIXES) }

  function Word(t: Tables): Regex { Cat(Opt(Class(Prefix(t))), Plus(Class(t.letter))) }

  function Punctuation(t: Tables): Regex {
    Cat(Opt(Class(Is(' '))), Cat(Plus(Class(Punct(t))), Star(Class(Newline()))))
  }

  function LineBreaks(t: Tables): Regex { Cat(Star(Class(t.space)), Plus(Class(Newline()))) }

  function TrailingSpace(t: Tables): Regex { Cat(Plus(Class(t.space)), NotFollowedBy(NonSpace(t))) }

  function Qwen2(t: Tables): Regex {
    AnyOf([Contraction(t), Word(t), Class(t.number), Punctuation(t), LineBreaks(t), TrailingSpace(t),
           Plus(Class(t.space))])
  }

  /** chunks are the successive matches of the pattern from i, the last ending at j. */
  ghost predicate Cut(t: Tables, s: seq<char>, i: nat, chunks: seq<seq<char>>, j: nat)
    requires i <= |s|
    decreases |chunks|
  {
    if chunks == [] then i == j else
    var e := i + |chunks[0]|;
    i < e <= |s| && chunks[0] == s[i..e] && Matches(Qwen2(t), s, i, e) && Cut(t, s, e, chunks[1..], j)
  }

  // ---- What each alternative matches ----

  lemma {:induction false} FirstAlternative(rs: seq<Regex>, s: seq<char>, i: nat, k: nat, e: nat)
    requires i <= |s| && k < |rs|
    requires forall j :: 0 <= j < k ==> Fails(rs[j], s, i)
    requires Matches(rs[k], s, i, e)
    ensures Matches(AnyOf(rs), s, i, e)
    decreases k
  {
    if k > 0 {
      assert Fails(rs[0], s, i);
      FirstAlternative(rs[1..], s, i, k - 1, e);
    }
  }

  lemma ClassThen(p: char -> bool, r: Regex, s: seq<char>, i: nat)
    requires i <= |s|
    ensures Ends(Cat(Class(p), r), s, i) == if i < |s| && p(s[i]) then Ends(r, s, i + 1) else []
  {
    hide Ends, EndsFrom;
    EndsOfCat(Class(p), r, s, i);
    EndsOfClass(p, s, i);
    if i < |s| && p(s[i]) {
      FromOne(r, s, i, i + 1);
    } else {
      FromNone(r, s, i);
    }
  }

  lemma OptEnds(p: char -> bool, s: seq<char>, i: nat)
    requires i <= |s|
    ensures Ends(Opt(Class(p)), s, i) == if i < |s| && p(s[i]) then [i + 1, i] else [i]
  {
    AltEnds(Class(p), Empty, s, i);
    EndsOfClass(p, s, i);
    assert Ends(Empty, s, i) == [i];
  }

  lemma FromTwo(r: Regex, s: seq<char>, i: nat)
    requires i < |s|
    ensures EndsFrom([i + 1, i], r, s, i) == Ends(r, s, i + 1) + Ends(r, s, i)
  {
    hide Ends;
    FromOne(r, s, i, i);
    assert [i + 1, i][1..] == [i];
  }

  lemma OptClassThen(p: char -> bool, r: Regex, s: seq<char>, i: nat)
    requires i <= |s|
    ensures Ends(Cat(Opt(Class(p)), r), s, i)
         == (if i < |s| && p(s[i]) then Ends(r, s, i + 1) else []) + Ends(r, s, i)
  {
    hide Ends, EndsFrom;
    EndsOfCat(Opt(Class(p)), r, s, i);
    OptEnds(p, s, i);
    if i < |s| && p(s[i]) {
      FromTwo(r, s, i);
    } else {
      FromOne(r, s, i, i);
    }
  }

  predicate Spells(t: Tables, w: string, s: seq<char>, i: nat) {
    w == "" || (i < |s| && t.lower(s[i]) == w[0] && Spells(t, w[1..], s, i + 1))
  }

  lemma {:induction false} FoldedEnds(t: Tables, w: string, s: seq<char>, i: nat)
    requires w != "" && i <= |s|
    ensures Ends(Folded(t, w), s, i) == if Spells(t, w, s, i) then [i + |w|] else []
  {
    hide Ends;
    if |w| > 1 {
      ClassThen(Folds(t, w[0]), Folded(t, w[1..]), s, i);
      if i < |s| { FoldedEnds(t, w[1..], s, i + 1); }
    } else {
      EndsOfClass(Folds(t, w[0]), s, i);
      assert w[1..] == "";
    }
  }

  /** The length of the first of ws spelled at i, 0 when none is. */
  function FirstSpelled(t: Tables, ws: seq<string>, s: seq<char>, i: nat): nat {
    if ws == [] then 0 else if Spells(t, ws[0], s, i) then |ws[0]| else FirstSpelled(t, ws[1..], s, i)
  }

  lemma AltEnds(l: Regex, r: Regex, s: seq<char>, i: nat)
    requires i <= |s|
    ensures Ends(Alt(l, r), s, i) == Ends(l, s, i) + Ends(r, s, i)
  {}

  lemma {:induction false} SuffixMatch(t: Tables, ws: seq<string>, s: seq<char>, i: nat)
    requires i <= |s| && ws != [] && forall k :: 0 <= k < |ws| ==> ws[k] != ""
    ensures var n := if i < |s| && s[i] == QUOTE then FirstSpelled(t, ws, s, i + 1) else 0;
            if n == 0 then Fails(Suffix(t, ws), s, i) else Matches(Suffix(t, ws), s, i, i + 1 + n)
  {
    hide Folded, Spells, Ends;
    ClassThen(Is(QUOTE), Folded(t, ws[0]), s, i);
    if i < |s| { FoldedEnds(t, ws[0], s, i + 1); }
    if |ws| > 1 {
      SuffixMatch(t, ws[1..], s, i);
      AltEnds(Cat(Class(Is(QUOTE)), Folded(t, ws[0])), Suffix(t, ws[1..]), s, i);
    } else {
      assert ws[1..] == [];
    }
  }

  lemma Spells1(t: Tables, x: char, s: seq<char>, i: nat)
    ensures Spells(t, [x], s, i) == (i < |s| && t.lower(s[i]) == x)
  {
    assert [x][1..] == "";
  }

  lemma Spells2(t: Tables, x: char, y: char, s: seq<char>, i: nat)
    ensures Spells(t, [x, y], s, i) == (i + 1 < |s| && t.lower(s[i]) == x && t.lower(s[i + 1]) == y)
  {
    assert [x, y][1..] == [y];
    Spells1(t, y, s, i + 1);
  }

  /** The length of the contraction at i, 0 when there is none. */
  function ContractionLength(t: Tables, s: seq<char>, i: nat): (n: nat)
    requires i <= |s|
    ensures n <= |s| - i
  {
    if i + 1 >= |s| || s[i] != QUOTE then 0 else
    var a := t.lower(s[i + 1]);
    if a == 's' || a == 't' || a == 'm' || a == 'd' then 2
    else if i + 2 >= |s| then 0 else
    var b := t.lower(s[i + 2]);
    if (a == 'r' && b == 'e') || (a == 'v' && b == 'e') || (a == 'l' && b == 'l') then 3 else 0
  }

  lemma ContractionMatch(t: Tables, s: seq<char>, i: nat)
    requires i <= |s|
    ensures if ContractionLength(t, s, i) == 0 then Fails(Contraction(t), s, i)
            else Matches(Contraction(t), s, i, i + ContractionLength(t, s, i))
  {
    SuffixMatch(t, SUFFIXES, s, i);
    if i < |s| && s[i] == QUOTE { SuffixCases(t, s, i); }
  }

  /** The scanner's case analysis, against the list of suffixes. */
  lemma SuffixCases(t: Tables, s: seq<char>, i: nat)
    requires i < |s| && s[i] == QUOTE
    ensures var n := FirstSpelled(t, SUFFIXES, s, i + 1);
            ContractionLength(t, s, i) == if n == 0 then 0 else n + 1
  {
    var j := i + 1;
    Spells1(t, 's', s, j); Spells1(t, 't', s, j); Spells1(t, 'm', s, j); Spells1(t, 'd', s, j);
    Spells2(t, 'r', 'e', s, j); Spells2(t, 'v', 'e', s, j); Spells2(t, 'l', 'l', s, j);
    assert SUFFIXES[6..] == ["d"];
    assert SUFFIXES[5..][1..] == SUFFIXES[6..];
    assert SUFFIXES[4..][1..] == SUFFIXES[5..];
    assert SUFFIXES[3..][1..] == SUFFIXES[4..];
    assert SUFFIXES[2..][1..] == SUFFIXES[3..];
    assert SUFFIXES[1..][1..] == SUFFIXES[2..];
    var f := (k: nat) requires k <= 7 => FirstSpelled(t, SUFFIXES[k..], s, j);
    assert f(7) == 0;
    assert f(6) == if Spells(t, "d", s, j) then 1 else f(7);
    assert f(5) == if Spells(t, "ll", s, j) then 2 else f(6);
    assert f(4) == if Spells(t, "m", s, j) then 1 else f(5);
    assert f(3) == if Spells(t, "ve", s, j) then 2 else f(4);
    assert f(2) == if Spells(t, "re", s, j) then 2 else f(3);
    assert f(1) == if Spells(t, "t", s, j) then 1 else f(2);
  }

  /** Letters from i, or from i + 1 after one prefix character. */
  lemma WordMatch(t: Tables, s: seq<char>, i: nat)
    requires i < |s|
    ensures var j := if Prefix(t)(s[i]) && i + 1 < |s| && t.letter(s[i + 1]) then i + 1 else i;
            if t.letter(s[j]) then Matches(Word(t), s, i, RunEnd(t.letter, s, j)) else Fails(Word(t), s, i)
  {
    OptClassThen(Prefix(t), Plus(Class(t.letter)), s, i);
    EndsOfPlus(t.letter, s, i);
    EndsOfPlus(t.letter, s, i + 1);
  }

  lemma PunctuationMatch(t: Tables, s: seq<char>, i: nat)
    requires i < |s|
    ensures var j := if s[i] == ' ' && i + 1 < |s| && Punct(t)(s[i + 1]) then i + 1 else i;
            if Punct(t)(s[j]) then Matches(Punctuation(t), s, i, RunEnd(Newline(), s, RunEnd(Punct(t), s, j)))
            else Fails(Punctuation(t), s, i)
  {
    var body := Cat(Plus(Class(Punct(t))), Star(Class(Newline())));
    OptClassThen(Is(' '), body, s, i);
    PunctBodyEnds(t, s, i);
    PunctBodyEnds(t, s, i + 1);
  }

  lemma PunctBodyEnds(t: Tables, s: seq<char>, i: nat)
    requires i <= |s|
    ensures var body := Cat(Plus(Class(Punct(t))), Star(Class(Newline())));
            if i < |s| && Punct(t)(s[i]) then Matches(body, s, i, RunEnd(Newline(), s, RunEnd(Punct(t), s, i)))
            else Fails(body, s, i)
  {
    var tail := Star(Class(Newline()));
    if i < |s| && Punct(t)(s[i]) {
      var e := RunEnd(Punct(t), s, i);
      EndsOfStar(Newline(), s, e);
      PlusThen(Punct(t), tail, s, i, e, RunEnd(Newline(), s, e));
    } else {
      PlusThenFails(Punct(t), tail, s, i);
    }
  }

  /** White space, then line breaks: the greedy run gives back everything after its last line break. */
  lemma LineBreaksMatch(t: Tables, s: seq<char>, i: nat, last: nat)
    requires BreaksAreSpace(t) && i <= |s|
    requires i <= last < RunEnd(t.space, s, i) && Newline()(s[last])
    requires forall k :: last < k < RunEnd(t.space, s, i) ==> !Newline()(s[k])
    ensures Matches(LineBreaks(t), s, i, last + 1)
  {
    hide Ends;
    var breaks := Plus(Class(Newline()));
    forall x | last < x <= RunEnd(t.space, s, i) ensures Fails(breaks, s, x) {
      EndsOfPlus(Newline(), s, x);
    }
    EndsOfPlus(Newline(), s, last);
    RunEndUnique(Newline(), s, last, last + 1);
    StarThen(t.space, breaks, s, i, last, last + 1);
  }

  lemma LineBreaksFail(t: Tables, s: seq<char>, i: nat)
    requires BreaksAreSpace(t) && i <= |s|
    requires forall k :: i <= k < RunEnd(t.space, s, i) ==> !Newline()(s[k])
    ensures Fails(LineBreaks(t), s, i)
  {
    var breaks := Plus(Class(Newline()));
    forall x | i <= x <= RunEnd(t.space, s, i) ensures Fails(breaks, s, x) {
      EndsOfPlus(Newline(), s, x);
    }
    StarThenFails(t.space, breaks, s, i);
  }

  /** A run that ends the text is taken whole; otherwise its last space is left for the next word. */
  lemma TrailingSpaceMatch(t: Tables, s: seq<char>, i: nat)
    requires i < |s| && t.space(s[i])
    ensures var e := RunEnd(t.space, s, i);
            if e == |s| then Matches(TrailingSpace(t), s, i, e)
            else if e - 1 > i then Matches(TrailingSpace(t), s, i, e - 1)
            else Fails(TrailingSpace(t), s, i)
  {
    var e := RunEnd(t.space, s, i);
    var look := NotFollowedBy(NonSpace(t));
    if e == |s| {
      PlusThen(t.space, look, s, i, e, e);
    } else if e - 1 > i {
      PlusThen(t.space, look, s, i, e - 1, e - 1);
    } else {
      PlusThenFails(t.space, look, s, i);
    }
  }

  // ---- The first alternative that applies ----

  /** The first letter of the word at i, past an optional prefix character, and likewise the first
      punctuation character, past an optional space. */
  function WordStart(t: Tables, s: seq<char>, i: nat): nat
    requires i < |s|
  {
    if Prefix(t)(s[i]) && i + 1 < |s| && t.letter(s[i + 1]) then i + 1 else i
  }

  function PunctStart(t: Tables, s: seq<char>, i: nat): nat
    requires i < |s|
  {
    if s[i] == ' ' && i + 1 < |s| && Punct(t)(s[i + 1]) then i + 1 else i
  }

  /** Alternatives 1 to 4 do not apply at i. */
  predicate OnlySpace(t: Tables, s: seq<char>, i: nat)
    requires i < |s|
  {
    ContractionLength(t, s, i) == 0 && !t.letter(s[WordStart(t, s, i)]) && !t.number(s[i])
    && !Punct(t)(s[PunctStart(t, s, i)])
  }

  ghost function Alternatives(t: Tables): (rs: seq<Regex>)
    ensures |rs| == 7 && AnyOf(rs) == Qwen2(t)
  {
    [Contraction(t), Word(t), Class(t.number), Punctuation(t), LineBreaks(t), TrailingSpace(t), Plus(Class(t.space))]
  }

  lemma ByContraction(t: Tables, s: seq<char>, i: nat)
    requires i < |s| && ContractionLength(t, s, i) > 0
    ensures Matches(Qwen2(t), s, i, i + ContractionLength(t, s, i))
  {
    ContractionMatch(t, s, i);
    FirstAlternative(Alternatives(t), s, i, 0, i + ContractionLength(t, s, i));
  }

  lemma ByWord(t: Tables, s: seq<char>, i: nat)
    requires i < |s| && ContractionLength(t, s, i) == 0
    requires t.letter(s[WordStart(t, s, i)])
    ensures Matches(Qwen2(t), s, i, RunEnd(t.letter, s, WordStart(t, s, i)))
  {
    ContractionMatch(t, s, i);
    WordMatch(t, s, i);
    FirstAlternative(Alternatives(t), s, i, 1, RunEnd(t.letter, s, WordStart(t, s, i)));
  }

  lemma ByNumber(t: Tables, s: seq<char>, i: nat)
    requires i < |s| && ContractionLength(t, s, i) == 0 && !t.letter(s[WordStart(t, s, i)])
    requires t.number(s[i])
    ensures Matches(Qwen2(t), s, i, i + 1)
  {
    ContractionMatch(t, s, i);
    WordMatch(t, s, i);
    FirstAlternative(Alternatives(t), s, i, 2, i + 1);
  }

  lemma ByPunctuation(t: Tables, s: seq<char>, i: nat)
    requires i < |s| && ContractionLength(t, s, i) == 0 && !t.letter(s[WordStart(t, s, i)]) && !t.number(s[i])
    requires Punct(t)(s[PunctStart(t, s, i)])
    ensures Matches(Qwen2(t), s, i, RunEnd(Newline(), s, RunEnd(Punct(t), s, PunctStart(t, s, i))))
  {
    ContractionMatch(t, s, i);
    WordMatch(t, s, i);
    PunctuationMatch(t, s, i);
    FirstAlternative(Alternatives(t), s, i, 3, RunEnd(Newline(), s, RunEnd(Punct(t), s, PunctStart(t, s, i))));
  }

  lemma NotBySpaceYet(t: Tables, s: seq<char>, i: nat)
    requires i < |s| && OnlySpace(t, s, i)
    ensures forall k :: 0 <= k < 4 ==> Fails(Alternatives(t)[k], s, i)
  {
    ContractionMatch(t, s, i);
    WordMatch(t, s, i);
    PunctuationMatch(t, s, i);
  }

  lemma ByLineBreaks(t: Tables, s: seq<char>, i: nat, last: nat)
    requires BreaksAreSpace(t)
    requires i < |s| && OnlySpace(t, s, i)
    requires i <= last < RunEnd(t.space, s, i) && Newline()(s[last])
    requires forall k :: last < k < RunEnd(t.space, s, i) ==> !Newline()(s[k])
    ensures Matches(Qwen2(t), s, i, last + 1)
  {
    NotBySpaceYet(t, s, i);
    LineBreaksMatch(t, s, i, last);
    FirstAlternative(Alternatives(t), s, i, 4, last + 1);
  }

  lemma SpaceRun(t: Tables, s: seq<char>, i: nat)
    requires i < |s| && t.space(s[i])
    ensures Matches(Plus(Class(t.space)), s, i, RunEnd(t.space, s, i))
  {
    EndsOfPlus(t.space, s, i);
  }

  lemma BySpace(t: Tables, s: seq<char>, i: nat)
    requires BreaksAreSpace(t)
    requires i < |s| && OnlySpace(t, s, i) && t.space(s[i])
    requires forall k :: i <= k < RunEnd(t.space, s, i) ==> !Newline()(s[k])
    ensures var e := RunEnd(t.space, s, i);
            Matches(Qwen2(t), s, i, if e < |s| && e - 1 > i then e - 1 else e)
  {
    hide Matches, Fails, Qwen2, OnlySpace, TrailingSpace;
    var e := RunEnd(t.space, s, i);
    NotBySpaceYet(t, s, i);
    LineBreaksFail(t, s, i);
    TrailingSpaceMatch(t, s, i);
    SpaceRun(t, s, i);
    if e < |s| && e - 1 <= i {
      FirstAlternative(Alternatives(t), s, i, 6, e);
    } else {
      FirstAlternative(Alternatives(t), s, i, 5, if e < |s| then e - 1 else e);
    }
  }

  // ---- The scanner ----

  method SkipRun(p: char -> bool, s: seq<char>, i: nat) returns (e: nat)
    requires i <= |s|
    ensures e == RunEnd(p, s, i)
  {
    e := i;
    while e < |s| && p(s[e])
      invariant i <= e <= |s|
      invariant RunEnd(p, s, e) == RunEnd(p, s, i)
    {
      e := e + 1;
    }
  }

  method ScanContraction(t: Tables, s: seq<char>, i: nat) returns (c: nat)
    requires i < |s|
    ensures c == ContractionLength(t, s, i)
  {
    var n := |s|;
    c := 0;
    if s[i] == QUOTE && i + 1 < n {
      var a := t.lower(s[i + 1]);
      if a == 's' || a == 't' || a == 'm' || a == 'd' {
        c := 2;
      } else if i + 2 < n {
        var b := t.lower(s[i + 2]);
        if (a == 'r' && b == 'e') || (a == 'v' && b == 'e') || (a == 'l' && b == 'l') {
          c := 3;
        }
      }
    }
  }

  /** One round of the scan loop: the end of the chunk at i. */
  method NextChunk(t: Tables, s: seq<char>, i: nat) returns (end: nat)
    requires BreaksAreSpace(t)
    requires i < |s|
    ensures i < end <= |s|
    ensures Matches(Qwen2(t), s, i, end)
  {
    hide Qwen2, Matches, RunEnd, ContractionLength, BreaksAreSpace;
    var n := |s|;
    // contractions
    var c := ScanContraction(t, s, i);
    if c > 0 {
      ByContraction(t, s, i);
      return i + c;
    }
    // an optional prefix, then letters
    var j := i;
    if !Newline()(s[j]) && !t.letter(s[j]) && !t.number(s[j]) && j + 1 < n && t.letter(s[j + 1]) {
      j := j + 1;
    }
    if t.letter(s[j]) {
      ByWord(t, s, i);
      end := SkipRun(t.letter, s, j);
      return;
    }
    // one number
    if t.number(s[i]) {
      ByNumber(t, s, i);
      return i + 1;
    }
    // an optional space, punctuation, then line breaks
    j := i;
    if s[j] == ' ' && j + 1 < n && Punct(t)(s[j + 1]) {
      j := j + 1;
    }
    if Punct(t)(s[j]) {
      ByPunctuation(t, s, i);
      j := SkipRun(Punct(t), s, j);
      end := SkipRun(Newline(), s, j);
      return;
    }
    end := NextSpace(t, s, i);
  }

  /** The white-space half of the round. */
  method NextSpace(t: Tables, s: seq<char>, i: nat) returns (end: nat)
    requires BreaksAreSpace(t)
    requires i < |s| && OnlySpace(t, s, i) && t.space(s[i])
    ensures i < end <= |s|
    ensures Matches(Qwen2(t), s, i, end)
  {
    hide Qwen2, Matches, OnlySpace;
    var n := |s|;
    var e := SkipRun(t.space, s, i);
    var last := -1;
    for k := i to e
      invariant last >= 0 ==> i <= last < k && Newline()(s[last])
      invariant forall m :: i <= m < k && m > last ==> !Newline()(s[m])
    {
      if Newline()(s[k]) { last := k; }
    }
    if last >= 0 {
      ByLineBreaks(t, s, i, last);
      end := last + 1;
    } else {
      BySpace(t, s, i);
      if e == n {
        end := e;
      } else if e - 1 > i {
        end := e - 1;
      } else {
        end := e;
      }
    }
  }

  method Pretokenize(t: Tables, s: seq<char>) returns (chunks: seq<seq<char>>)
    requires BreaksAreSpace(t)
    ensures Cut(t, s, 0, chunks, |s|)
  {
    chunks := [];
    var i := 0;
    while i < |s|
      invariant 0 <= i <= |s|
      invariant Cut(t, s, 0, chunks, i)
    {
      var end := NextChunk(t, s, i);
      CutExtends(t, s, 0, chunks, i, end);
      chunks := chunks + [s[i..end]];
      i := end;
    }
  }

  // ---- What a cut is ----

  lemma {:induction false} CutExtends(t: Tables, s: seq<char>, i: nat, chunks: seq<seq<char>>, j: nat, end: nat)
    requires i <= |s| && j < end <= |s|
    requires Cut(t, s, i, chunks, j) && Matches(Qwen2(t), s, j, end)
    ensures Cut(t, s, i, chunks + [s[j..end]], end)
    decreases |chunks|
  {
    hide Matches;
    if chunks == [] {
      assert [s[j..end]][1..] == [];
    } else {
      CutExtends(t, s, i + |chunks[0]|, chunks[1..], j, end);
      assert (chunks + [s[j..end]])[1..] == chunks[1..] + [s[j..end]];
    }
  }

  /** The last line break of s[i..e], or -1. */
  function LastNewline(s: seq<char>, i: nat, e: nat): (last: int)
    requires i <= e <= |s|
    ensures last == -1 || (i <= last < e && Newline()(s[last]))
    ensures forall m :: i <= m < e && m > last ==> !Newline()(s[m])
  {
    if e == i then -1 else if Newline()(s[e - 1]) then e - 1 else LastNewline(s, i, e - 1)
  }

  /** Where the chunk at i ends, alternative by alternative. */
  ghost function ChunkEnd(t: Tables, s: seq<char>, i: nat): nat
    requires i < |s|
  {
    var c := ContractionLength(t, s, i);
    if c > 0 then i + c
    else if t.letter(s[WordStart(t, s, i)]) then RunEnd(t.letter, s, WordStart(t, s, i))
    else if t.number(s[i]) then i + 1
    else if Punct(t)(s[PunctStart(t, s, i)]) then RunEnd(Newline(), s, RunEnd(Punct(t), s, PunctStart(t, s, i)))
    else SpaceEnd(t, s, i)
  }

  ghost function SpaceEnd(t: Tables, s: seq<char>, i: nat): nat
    requires i < |s|
  {
    var e := RunEnd(t.space, s, i);
    var last := LastNewline(s, i, e);
    if last >= 0 then last + 1 else if e < |s| && e - 1 > i then e - 1 else e
  }

  lemma SpaceMatches(t: Tables, s: seq<char>, i: nat)
    requires BreaksAreSpace(t)
    requires i < |s| && OnlySpace(t, s, i) && t.space(s[i])
    ensures i < SpaceEnd(t, s, i) <= |s| && Matches(Qwen2(t), s, i, SpaceEnd(t, s, i))
  {
    hide Qwen2, Matches;
    var e := RunEnd(t.space, s, i);
    var last := LastNewline(s, i, e);
    if last >= 0 { ByLineBreaks(t, s, i, last); } else { BySpace(t, s, i); }
  }

  /** The pattern matches something wherever there is text, and its match ends there. */
  lemma PatternMatches(t: Tables, s: seq<char>, i: nat)
    requires BreaksAreSpace(t) && i < |s|
    ensures i < ChunkEnd(t, s, i) <= |s| && Matches(Qwen2(t), s, i, ChunkEnd(t, s, i))
  {
    hide Qwen2, Matches, SpaceEnd;
    if ContractionLength(t, s, i) > 0 {
      ByContraction(t, s, i);
    } else if t.letter(s[WordStart(t, s, i)]) {
      ByWord(t, s, i);
    } else if t.number(s[i]) {
      ByNumber(t, s, i);
    } else if Punct(t)(s[PunctStart(t, s, i)]) {
      ByPunctuation(t, s, i);
    } else {
      SpaceMatches(t, s, i);
    }
  }

  /** Every text has a cut. */
  lemma {:induction false} CutExists(t: Tables, s: seq<char>, i: nat)
    requires BreaksAreSpace(t) && i <= |s|
    ensures exists chunks :: Cut(t, s, i, chunks, |s|)
    decreases |s| - i
  {
    hide Matches;
    if i == |s| {
      assert Cut(t, s, i, [], |s|);
    } else {
      PatternMatches(t, s, i);
      var e := ChunkEnd(t, s, i);
      CutExists(t, s, e);
      var rest :| Cut(t, s, e, rest, |s|);
      assert ([s[i..e]] + rest)[1..] == rest;
      assert Cut(t, s, i, [s[i..e]] + rest, |s|);
    }
  }

  function Concat(chunks: seq<seq<char>>): seq<char> {
    if chunks == [] then [] else chunks[0] + Concat(chunks[1..])
  }

  /** The chunks are non-empty and concatenate to the input. */
  lemma {:induction false} CutCovers(t: Tables, s: seq<char>, i: nat, chunks: seq<seq<char>>)
    requires i <= |s| && Cut(t, s, i, chunks, |s|)
    ensures Concat(chunks) == s[i..]
    ensures forall c <- chunks :: c != []
    decreases |chunks|
  {
    hide Matches;
    if chunks != [] {
      var e := i + |chunks[0]|;
      CutCovers(t, s, e, chunks[1..]);
      assert s[i..] == s[i..e] + s[e..];
      assert chunks == [chunks[0]] + chunks[1..];
    }
  }

  /** The pattern determines the cut. */
  lemma MatchUnique(r: Regex, s: seq<char>, i: nat, e: nat, e': nat)
    requires i <= |s| && Matches(r, s, i, e) && Matches(r, s, i, e')
    ensures e == e'
  {}

  lemma {:induction false} CutUnique(t: Tables, s: seq<char>, i: nat, a: seq<seq<char>>, b: seq<seq<char>>)
    requires i <= |s| && Cut(t, s, i, a, |s|) && Cut(t, s, i, b, |s|)
    ensures a == b
    decreases |a|
  {
    hide Qwen2, Matches;
    if a != [] {
      assert b != [];
      MatchUnique(Qwen2(t), s, i, i + |a[0]|, i + |b[0]|);
      CutUnique(t, s, i + |a[0]|, a[1..], b[1..]);
      assert a == [a[0]] + a[1..] && b == [b[0]] + b[1..];
    }
  }

  // ---- Case folding ----

  const SUFFIX_LETTERS := "stmdrevl"

  /** The pattern's tables are the scanner's, except that its case folding takes more letters to the letters of the
      contractions than `lower` does. */
  ghost predicate FoldsMore(scanner: Tables, pattern: Tables) {
    pattern == scanner.(lower := pattern.lower)
    && (forall c :: scanner.lower(c) in SUFFIX_LETTERS ==> pattern.lower(c) == scanner.lower(c))
    && (forall c :: pattern.lower(c) in SUFFIX_LETTERS ==> scanner.letter(c))
    && !scanner.letter(QUOTE) && !scanner.number(QUOTE)
  }

  /** A contraction at i by folding alone, with a letter right behind it. */
  predicate FoldedWord(scanner: Tables, pattern: Tables, s: seq<char>, i: nat)
    requires i < |s|
  {
    var c := ContractionLength(pattern, s, i);
    ContractionLength(scanner, s, i) == 0 && c > 0 && i + c < |s| && scanner.letter(s[i + c])
  }

  lemma RunEndSame(p: char -> bool, q: char -> bool, s: seq<char>, i: nat)
    requires i <= |s| && forall c :: p(c) == q(c)
    ensures RunEnd(p, s, i) == RunEnd(q, s, i)
  {
    RunEndUnique(q, s, i, RunEnd(p, s, i));
  }

  lemma SameSpace(scanner: Tables, pattern: Tables, s: seq<char>, i: nat)
    requires FoldsMore(scanner, pattern) && i < |s|
    ensures SpaceEnd(scanner, s, i) == SpaceEnd(pattern, s, i)
  {}

  lemma SameTables(scanner: Tables, pattern: Tables, s: seq<char>, i: nat)
    requires FoldsMore(scanner, pattern) && i < |s|
    requires ContractionLength(scanner, s, i) == ContractionLength(pattern, s, i)
    ensures ChunkEnd(scanner, s, i) == ChunkEnd(pattern, s, i)
  {
    hide ContractionLength, SpaceEnd;
    RunEndSame(Punct(scanner), Punct(pattern), s, PunctStart(scanner, s, i));
    SameSpace(scanner, pattern, s, i);
  }

  /** A pattern that folds more cuts the same chunk at i, unless a folded contraction stands there with a letter
      behind it: the pattern ends the contraction where the scanner reads on to the end of a word. */
  lemma FoldingAgrees(scanner: Tables, pattern: Tables, s: seq<char>, i: nat)
    requires FoldsMore(scanner, pattern) && i < |s|
    ensures ChunkEnd(scanner, s, i) == ChunkEnd(pattern, s, i) <==> !FoldedWord(scanner, pattern, s, i)
  {
    var a, c := ContractionLength(scanner, s, i), ContractionLength(pattern, s, i);
    if a > 0 || c == 0 {
      SameTables(scanner, pattern, s, i);
    } else {
      assert s[i] == QUOTE && WordStart(scanner, s, i) == i + 1;
      var e := RunEnd(scanner.letter, s, i + 1);
      assert forall k :: i + 1 <= k < i + c ==> scanner.letter(s[k]);
      assert ChunkEnd(scanner, s, i) == e && ChunkEnd(pattern, s, i) == i + c;
    }
  }

  /** chunks, from i on, start at no folded word. */
  predicate NoFoldedWord(scanner: Tables, pattern: Tables, s: seq<char>, i: nat, chunks: seq<seq<char>>)
    decreases |chunks|
  {
    chunks == []
    || (i < |s| && !FoldedWord(scanner, pattern, s, i)
        && NoFoldedWord(scanner, pattern, s, i + |chunks[0]|, chunks[1..]))
  }

  /** The scanner's chunks are those of a pattern that folds more exactly when none of them starts at a folded word. */
  lemma {:induction false} CutFoldingByChunk(scanner: Tables, pattern: Tables, s: seq<char>, i: nat, chunks: seq<seq<char>>)
    requires BreaksAreSpace(scanner) && FoldsMore(scanner, pattern)
    requires i <= |s| && Cut(scanner, s, i, chunks, |s|)
    ensures Cut(pattern, s, i, chunks, |s|) <==> NoFoldedWord(scanner, pattern, s, i, chunks)
    decreases |chunks|
  {
    hide Qwen2, ChunkEnd, FoldedWord, FoldsMore;
    if chunks != [] {
      var e := i + |chunks[0]|;
      ScannerEnds(scanner, pattern, s, i);
      FoldingAgrees(scanner, pattern, s, i);
      CutFoldingByChunk(scanner, pattern, s, e, chunks[1..]);
    }
  }

  lemma ScannerEnds(scanner: Tables, pattern: Tables, s: seq<char>, i: nat)
    requires BreaksAreSpace(scanner) && FoldsMore(scanner, pattern) && i < |s|
    ensures Matches(Qwen2(scanner), s, i, ChunkEnd(scanner, s, i)) && Matches(Qwen2(pattern), s, i, ChunkEnd(pattern, s, i))
  {
    hide Matches, Qwen2, ChunkEnd;
    PatternMatches(scanner, s, i);
    PatternMatches(pattern, s, i);
  }

  // ---- Where an apostrophe starts a chunk ----

  /** The space is white space and nothing else, and the apostrophe is no white space. */
  predicate PlainAscii(t: Tables) { !t.space(QUOTE) && !t.letter(QUOTE) && !t.number(QUOTE) && !t.letter(' ') && !t.number(' ') }

  /** What stands before i does not reach for an apostrophe at i: nothing, or neither a space nor punctuation. */
  predicate Free(t: Tables, s: seq<char>, i: nat)
    requires i <= |s|
  {
    i == 0 || (s[i - 1] != ' ' && !Punct(t)(s[i - 1]))
  }

  lemma SuffixIsLetters(t: Tables, s: seq<char>, i: nat, k: nat)
    requires i < |s| && i < k < i + ContractionLength(t, s, i)
    requires forall c :: t.lower(c) in SUFFIX_LETTERS ==> t.letter(c)
    ensures t.letter(s[k])
  {}

  /** Inside a chunk an apostrophe has a space or punctuation on its left. */
  lemma QuoteInside(t: Tables, s: seq<char>, p: nat, i: nat)
    requires BreaksAreSpace(t) && PlainAscii(t) && forall c :: t.lower(c) in SUFFIX_LETTERS ==> t.letter(c)
    requires p < i < |s| && i < ChunkEnd(t, s, p) && s[i] == QUOTE
    ensures !Free(t, s, i)
  {
    hide ContractionLength;
    if ContractionLength(t, s, p) > 0 {
      SuffixIsLetters(t, s, p, i);
    } else if t.letter(s[WordStart(t, s, p)]) {
    } else if t.number(s[p]) {
    } else if Punct(t)(s[PunctStart(t, s, p)]) {
      var q := RunEnd(Punct(t), s, PunctStart(t, s, p));
      if i < q && PunctStart(t, s, p) < i { assert Punct(t)(s[i - 1]); }
    }
  }

  /** Right behind a chunk it has neither. */
  lemma QuoteBehind(t: Tables, s: seq<char>, p: nat)
    requires BreaksAreSpace(t) && PlainAscii(t) && forall c :: t.lower(c) in SUFFIX_LETTERS ==> t.letter(c)
    requires p < |s| && p < ChunkEnd(t, s, p) < |s| && s[ChunkEnd(t, s, p)] == QUOTE
    ensures Free(t, s, ChunkEnd(t, s, p))
  {
    hide ContractionLength;
    var e := ChunkEnd(t, s, p);
    if ContractionLength(t, s, p) > 0 {
      ContractionLong(t, s, p);
      SuffixIsLetters(t, s, p, e - 1);
    } else if t.letter(s[WordStart(t, s, p)]) {
      assert t.letter(s[e - 1]);
    } else if t.number(s[p]) {
    } else if Punct(t)(s[PunctStart(t, s, p)]) {
      assert Punct(t)(s[e]) && Newline()(s[e - 1]);
    } else {
      SpaceBehind(t, s, p);
    }
  }

  lemma ContractionLong(t: Tables, s: seq<char>, i: nat)
    requires i <= |s| && ContractionLength(t, s, i) > 0
    ensures ContractionLength(t, s, i) >= 2
  {}

  lemma SpaceBehind(t: Tables, s: seq<char>, p: nat)
    requires BreaksAreSpace(t) && PlainAscii(t) && p < |s| && OnlySpace(t, s, p)
    requires p < SpaceEnd(t, s, p) < |s| && s[SpaceEnd(t, s, p)] == QUOTE
    ensures Free(t, s, SpaceEnd(t, s, p))
  {
    hide ContractionLength;
    var r := RunEnd(t.space, s, p);
    var e := SpaceEnd(t, s, p);
    assert t.space(s[e - 1]);
    if LastNewline(s, p, r) < 0 {
      assert e == r && r - 1 <= p;
      assert s[p] != ' ';
    }
  }

  /** Some apostrophe that starts a contraction by folding alone, with a letter behind it, is free on its left. */
  predicate FoldedText(scanner: Tables, pattern: Tables, s: seq<char>) {
    exists i :: 0 <= i < |s| && FreeFolded(scanner, pattern, s, i)
  }

  predicate FreeFolded(scanner: Tables, pattern: Tables, s: seq<char>, i: nat)
    requires i < |s|
  {
    Free(scanner, s, i) && FoldedWord(scanner, pattern, s, i)
  }

  /** The folded words that a chunk starts at are those that are free on their left. */
  lemma {:induction false} StartsAreFree(scanner: Tables, pattern: Tables, s: seq<char>, p: nat, chunks: seq<seq<char>>)
    requires BreaksAreSpace(scanner) && PlainAscii(scanner) && FoldsMore(scanner, pattern)
    requires p <= |s| && Cut(scanner, s, p, chunks, |s|)
    requires p < |s| && s[p] == QUOTE ==> Free(scanner, s, p)
    ensures NoFoldedWord(scanner, pattern, s, p, chunks)
       <==> forall i :: p <= i < |s| ==> !FreeFolded(scanner, pattern, s, i)
    decreases |chunks|
  {
    hide Qwen2, ChunkEnd, FoldsMore, Free, PlainAscii;
    if chunks != [] {
      var e := p + |chunks[0]|;
      FoldsToLetters(scanner, pattern);
      PatternMatches(scanner, s, p);
      if e < |s| && s[e] == QUOTE { QuoteBehind(scanner, s, p); }
      StartsAreFree(scanner, pattern, s, e, chunks[1..]);
      forall i | p < i < e ensures !FreeFolded(scanner, pattern, s, i) {
        if s[i] == QUOTE { QuoteInside(scanner, s, p, i); }
      }
      assert FreeFolded(scanner, pattern, s, p) <==> FoldedWord(scanner, pattern, s, p);
    }
  }

  lemma FoldsToLetters(scanner: Tables, pattern: Tables)
    requires FoldsMore(scanner, pattern)
    ensures forall c :: scanner.lower(c) in SUFFIX_LETTERS ==> scanner.letter(c)
  {}

  /** The scanner cuts a text as a pattern that folds more does exactly when the text has no such apostrophe. */
  lemma CutFolding(scanner: Tables, pattern: Tables, s: seq<char>, chunks: seq<seq<char>>)
    requires BreaksAreSpace(scanner) && PlainAscii(scanner) && FoldsMore(scanner, pattern)
    requires Cut(scanner, s, 0, chunks, |s|)
    ensures Cut(pattern, s, 0, chunks, |s|) <==> !FoldedText(scanner, pattern, s)
  {
    hide FoldsMore, PlainAscii, FoldedWord, Cut;
    CutFoldingByChunk(scanner, pattern, s, 0, chunks);
    StartsAreFree(scanner, pattern, s, 0, chunks);
  }

  const LONG_S := '\U{017F}'

  /** Such a text: the long s folds to 's' but is its own lower case. */
  lemma LongSDiffers(scanner: Tables, pattern: Tables)
    requires FoldsMore(scanner, pattern)
    requires scanner.lower(LONG_S) == LONG_S && pattern.lower(LONG_S) == 's' && scanner.letter('a')
    ensures FoldedText(scanner, pattern, [QUOTE, LONG_S, 'a'])
    ensures Matches(Qwen2(pattern), [QUOTE, LONG_S, 'a'], 0, 2)
    ensures Matches(Qwen2(scanner), [QUOTE, LONG_S, 'a'], 0, 3)
  {
    var s := [QUOTE, LONG_S, 'a'];
    assert FreeFolded(scanner, pattern, s, 0);
    ByContraction(pattern, s, 0);
    ByWord(scanner, s, 0);
    RunEndUnique(scanner.letter, s, 1, 3);
  }
}
