/** The .tok file of a tokenized split, and exactly when it reads back: the reader doubles the row count in 32 bits. */
module TokRows {
  import opened Basics
  import opened LittleEndian

  const MAGIC: Bytes := [0x53, 0x4B, 0x59, 0x54, 0x4F, 0x4B, 0x30, 0x31]   // SKYTOK01
  const U32 := 0x1_0000_0000
  const U64 := 0x1_0000_0000_0000_0000

  datatype Rows = Rows(ids: seq<seq<int>>, prompts: seq<int>, vocab: int)

  // ---- What is written ----

  /** uint32(v) keeps the low 32 bits. */
  function Low32(v: int): (n: nat)
    ensures n < U32
    ensures (v - n) % U32 == 0 && (0 <= v < U32 ==> n == v)
  {
    v % U32
  }

  function Total(ids: seq<seq<int>>): nat {
    if ids == [] then 0 else |ids[0]| + Total(ids[1..])
  }

  /** Prompts beyond the last row are not written. */
  function Lengths(ids: seq<seq<int>>, prompts: seq<int>): (ws: seq<nat>)
    requires |ids| <= |prompts|
    ensures |ws| == 2 * |ids| && forall k :: 0 <= k < |ws| ==> ws[k] < U32
  {
    if ids == [] then [] else [Low32(|ids[0]|), Low32(prompts[0])] + Lengths(ids[1..], prompts[1..])
  }

  /** Row i has its length and then its prompt in the table. */
  lemma {:induction false} LengthsAt(ids: seq<seq<int>>, prompts: seq<int>, i: nat)
    requires i < |ids| <= |prompts|
    ensures Lengths(ids, prompts)[2 * i] == Low32(|ids[i]|) && Lengths(ids, prompts)[2 * i + 1] == Low32(prompts[i])
    decreases i
  {
    if i > 0 {
      LengthsAt(ids[1..], prompts[1..], i - 1);
      assert Lengths(ids, prompts)[2..] == Lengths(ids[1..], prompts[1..]);
    }
  }

  /** The ids of row i stand behind those of the rows before it. */
  lemma {:induction false} TokensAt(ids: seq<seq<int>>, i: nat)
    requires i < |ids|
    ensures var at := Total(ids[..i]); at + |ids[i]| <= |Tokens(ids)| && Tokens(ids)[at..at + |ids[i]|] == Lows(ids[i])
    decreases i
  {
    if i == 0 {
      assert ids[..0] == [];
    } else {
      TokensAt(ids[1..], i - 1);
      assert ids[..i][1..] == ids[1..][..i - 1];
      var rest, at := Tokens(ids[1..]), Total(ids[1..][..i - 1]);
      assert Tokens(ids)[|ids[0]| + at..|ids[0]| + at + |ids[i]|] == rest[at..at + |ids[i]|];
    }
  }

  function Lows(row: seq<int>): (ws: seq<nat>)
    ensures |ws| == |row| && forall k :: 0 <= k < |ws| ==> ws[k] < U32
  {
    seq(|row|, k requires 0 <= k < |row| => Low32(row[k]))
  }

  function Tokens(ids: seq<seq<int>>): (ws: seq<nat>)
    ensures |ws| == Total(ids) && forall k :: 0 <= k < |ws| ==> ws[k] < U32
  {
    if ids == [] then [] else Lows(ids[0]) + Tokens(ids[1..])
  }

  function Body(r: Rows): Bytes
    requires |r.ids| <= |r.prompts|
  {
    Words(Lengths(r.ids, r.prompts), 4) + Words(Tokens(r.ids), 4)
  }

  function FileBytes(r: Rows): Bytes
    requires |r.ids| <= |r.prompts|
  {
    MAGIC + (LE(Low32(|r.ids|), 4) + (LE(Low32(r.vocab), 4) + (LE(Total(r.ids) % U64, 8) + Body(r))))
  }

  /** A row without a prompt panics. */
  function Written(r: Rows): Option<Bytes> { if |r.ids| <= |r.prompts| then Some(FileBytes(r)) else None }

  // ---- What is read ----

  /** Indexing past a slice's end panics. */
  datatype Outcome = Decoded(rows: Rows) | Refused | Panics

  function Prepended(row: seq<int>, prompt: int, o: Outcome): Outcome {
    match o
    case Decoded(r) => Decoded(Rows([row] + r.ids, [prompt] + r.prompts, r.vocab))
    case _ => o
  }

  /** n rows, their lengths and prompts from lens and their ids from toks. */
  function Cut(lens: seq<nat>, toks: seq<nat>, n: nat, vocab: int): Outcome
    decreases n
  {
    if n == 0 then Decoded(Rows([], [], vocab))
    else if |lens| < 2 || lens[0] > |toks| then Panics
    else Prepended(toks[..lens[0]], lens[1], Cut(lens[2..], toks[lens[0]..], n - 1, vocab))
  }

  function Decode(data: Bytes): Outcome {
    if |data| < 24 || data[..8] != MAGIC then Refused else
    var rows, vocab, tokens := Number(data[8..12]), Number(data[12..16]), Number(data[16..24]);
    match ReadNumbers(data, 24, 2 * rows % U32, 4)
    case Fail => Refused
    case Ok(lens, p) =>
      match ReadNumbers(data, p, tokens, 4)
      case Fail => Refused
      case Ok(toks, _) => Cut(lens, toks, rows, vocab)
  }

  // ---- The round trip ----

  predicate IdsFit(row: seq<int>) { |row| < U32 && forall k :: 0 <= k < |row| ==> 0 <= row[k] < U32 }

  predicate RowsFit(ids: seq<seq<int>>, prompts: seq<int>) {
    |ids| == |prompts| && (forall i :: 0 <= i < |ids| ==> IdsFit(ids[i]))
    && forall i :: 0 <= i < |prompts| ==> 0 <= prompts[i] < U32
  }

  predicate Fits(r: Rows) {
    |r.ids| < 0x8000_0000 && 0 <= r.vocab < U32 && RowsFit(r.ids, r.prompts)
  }

  lemma {:induction false} TotalBelow(ids: seq<seq<int>>)
    requires forall i :: 0 <= i < |ids| ==> |ids[i]| < U32
    ensures Total(ids) <= |ids| * U32
  {
    if ids != [] { TotalBelow(ids[1..]); }
  }

  lemma {:induction false} CutOfWritten(ids: seq<seq<int>>, prompts: seq<int>, vocab: int)
    requires RowsFit(ids, prompts)
    ensures Cut(Lengths(ids, prompts), Tokens(ids), |ids|, vocab) == Decoded(Rows(ids, prompts, vocab))
  {
    if ids != [] {
      hide Lengths, Tokens, Cut, RowsFit;
      FirstFits(ids, prompts);
      FirstLengths(ids, prompts);
      FirstTokens(ids);
      CutOfWritten(ids[1..], prompts[1..], vocab);
      FirstCut(Lengths(ids, prompts), Tokens(ids), |ids|, vocab);
      Uncons(ids);
      Uncons(prompts);
    }
  }

  lemma FirstFits(ids: seq<seq<int>>, prompts: seq<int>)
    requires RowsFit(ids, prompts) && ids != []
    ensures |ids| == |prompts| && IdsFit(ids[0]) && 0 <= prompts[0] < U32 && RowsFit(ids[1..], prompts[1..])
  {
    hide IdsFit;
  }

  lemma FirstCut(lens: seq<nat>, toks: seq<nat>, n: nat, vocab: int)
    requires n > 0 && |lens| >= 2 && lens[0] <= |toks|
    ensures Cut(lens, toks, n, vocab) == Prepended(toks[..lens[0]], lens[1], Cut(lens[2..], toks[lens[0]..], n - 1, vocab))
  {}

  lemma FirstLengths(ids: seq<seq<int>>, prompts: seq<int>)
    requires 0 < |ids| <= |prompts| && |ids[0]| < U32 && 0 <= prompts[0] < U32
    ensures var lens := Lengths(ids, prompts);
            lens[0] == |ids[0]| && lens[1] == prompts[0] && lens[2..] == Lengths(ids[1..], prompts[1..])
  {}

  lemma FirstTokens(ids: seq<seq<int>>)
    requires ids != [] && IdsFit(ids[0])
    ensures var toks, n := Tokens(ids), |ids[0]|; n <= |toks| && toks[..n] == ids[0] && toks[n..] == Tokens(ids[1..])
  {
    assert Lows(ids[0]) == ids[0];
  }

  /** The fields of a written file. */
  lemma FieldsAt(r: Rows)
    requires |r.ids| <= |r.prompts| && |r.ids| < U32 && 0 <= r.vocab < U32 && Total(r.ids) < U64
    ensures var data := FileBytes(r);
            |data| >= 24 && data[..8] == MAGIC && Number(data[8..12]) == |r.ids| && Number(data[12..16]) == r.vocab
            && Number(data[16..24]) == Total(r.ids) && At(data, 24, Body(r))
  {
    hide LE, Pow256, Number, Body, Total;
    Widths();
    var data := FileBytes(r);
    var a, b, c := LE(|r.ids|, 4), LE(r.vocab, 4), LE(Total(r.ids), 8);
    assert data[0..|data|] == data;
    AtSplit(data, 0, MAGIC, a + (b + (c + Body(r))));
    AtSplit(data, 8, a, b + (c + Body(r)));
    AtSplit(data, 12, b, c + Body(r));
    AtSplit(data, 16, c, Body(r));
    NumberAt(data, 8, |r.ids|, 4);
    NumberAt(data, 12, r.vocab, 4);
    NumberAt(data, 16, Total(r.ids), 8);
  }

  lemma FittingReadsBack(r: Rows)
    requires Fits(r)
    ensures Decode(FileBytes(r)) == Decoded(r)
  {
    hide LE, Pow256, Number, Words, ReadNumbers, Cut, Lengths, Tokens, Total;
    assert forall i :: 0 <= i < |r.ids| ==> IdsFit(r.ids[i]);
    TotalBelow(r.ids);
    FieldsAt(r);
    var data, lens, toks := FileBytes(r), Lengths(r.ids, r.prompts), Tokens(r.ids);
    AtSplit(data, 24, Words(lens, 4), Words(toks, 4));
    Widths();
    NumbersAt(data, 24, lens, 4);
    NumbersAt(data, 24 + |Words(lens, 4)|, toks, 4);
    CutOfWritten(r.ids, r.prompts, r.vocab);
  }

  lemma {:induction false} NumberBelow(b: Bytes)
    ensures Number(b) < Pow256(|b|)
  {
    if b != [] { NumberBelow(b[1..]); }
  }

  lemma {:induction false} NumbersBelow(data: Bytes, pos: nat, n: nat, width: nat)
    ensures var r := ReadNumbers(data, pos, n, width);
            r.Ok? ==> forall k :: 0 <= k < n ==> r.value[k] < Pow256(width)
    decreases n
  {
    hide Pow256, Number;
    if n > 0 && pos + width <= |data| {
      NumberBelow(data[pos..pos + width]);
      NumbersBelow(data, pos + width, n - 1, width);
    }
  }

  lemma {:induction false} CutFits(lens: seq<nat>, toks: seq<nat>, n: nat, vocab: int)
    requires forall k :: 0 <= k < |lens| ==> lens[k] < U32
    requires forall k :: 0 <= k < |toks| ==> toks[k] < U32
    ensures var o := Cut(lens, toks, n, vocab);
            o.Decoded? ==> 2 * n <= |lens| && |o.rows.ids| == n && RowsFit(o.rows.ids, o.rows.prompts) && o.rows.vocab == vocab
    decreases n
  {
    if n > 0 && |lens| >= 2 && lens[0] <= |toks| {
      CutFits(lens[2..], toks[lens[0]..], n - 1, vocab);
      assert IdsFit(toks[..lens[0]]);
    }
  }

  /** Whatever the file, the rows read from it are rows that can be written. */
  lemma DecodedFits(data: Bytes)
    ensures Decode(data).Decoded? ==> Fits(Decode(data).rows)
  {
    hide Pow256, Number, ReadNumbers, Cut, RowsFit;
    Widths();
    if Decode(data).Decoded? {
      var rows, vocab, tokens := Number(data[8..12]), Number(data[12..16]), Number(data[16..24]);
      NumberBelow(data[8..12]);
      NumberBelow(data[12..16]);
      var lens := ReadNumbers(data, 24, 2 * rows % U32, 4);
      NumbersBelow(data, 24, 2 * rows % U32, 4);
      NumbersBelow(data, lens.pos, tokens, 4);
      CutFits(lens.value, ReadNumbers(data, lens.pos, tokens, 4).value, rows, vocab);
    }
  }

  /** A split is written and reads back as it was exactly when it fits: a prompt for each row and none besides. */
  lemma RoundTrip(r: Rows)
    ensures Written(r).Some? && Decode(Written(r).value) == Decoded(r) <==> Fits(r)
  {
    hide Decode, FileBytes;
    if Written(r).Some? { DecodedFits(FileBytes(r)); }
    if Fits(r) { FittingReadsBack(r); }
  }

  // ---- The loops ----

  method Encode(r: Rows) returns (out: Option<Bytes>)
    ensures out == Written(r)
  {
    hide LE, Low32;
    var total := 0;
    assert r.ids[0..] == r.ids;
    for i := 0 to |r.ids|
      invariant total + Total(r.ids[i..]) == Total(r.ids)
    {
      assert r.ids[i..][1..] == r.ids[i + 1..];
      total := total + |r.ids[i]|;
    }
    var lengths := WriteLengths(r.ids, r.prompts);
    if lengths.None? { return None; }
    var tokens := WriteTokens(r.ids);
    var b := MAGIC + LE(Low32(|r.ids|), 4) + LE(Low32(r.vocab), 4) + LE(total % U64, 8) + lengths.value + tokens;
    assert b == FileBytes(r);
    out := Some(b);
  }

  /** None stands for the panic of a prompt that is missing. */
  method WriteLengths(ids: seq<seq<int>>, prompts: seq<int>) returns (out: Option<Bytes>)
    ensures out == if |ids| <= |prompts| then Some(Words(Lengths(ids, prompts), 4)) else None
  {
    hide LE, Low32;
    var b: Bytes := [];
    assert ids[0..] == ids && prompts[0..] == prompts;
    for i := 0 to |ids|
      invariant i <= |prompts|
      invariant |ids| <= |prompts| ==>
        b + Words(Lengths(ids[i..], prompts[i..]), 4) == Words(Lengths(ids, prompts), 4)
    {
      if i >= |prompts| { return None; }
      if |ids| <= |prompts| {
        assert ids[i..][1..] == ids[i + 1..] && prompts[i..][1..] == prompts[i + 1..];
        var rest := Lengths(ids[i + 1..], prompts[i + 1..]);
        TwoWords(Low32(|ids[i]|), Low32(prompts[i]), rest, 4);
        Associates(b, LE(Low32(|ids[i]|), 4) + LE(Low32(prompts[i]), 4), Words(rest, 4));
      }
      b := b + (LE(Low32(|ids[i]|), 4) + LE(Low32(prompts[i]), 4));
    }
    assert ids[|ids|..] == [] && b + [] == b;
    out := Some(b);
  }

  lemma TwoWords(a: nat, b: nat, rest: seq<nat>, n: nat)
    ensures Words([a, b] + rest, n) == (LE(a, n) + LE(b, n)) + Words(rest, n)
  {
    hide LE;
    assert ([a, b] + rest)[1..] == [b] + rest && ([b] + rest)[1..] == rest;
    Associates(LE(a, n), LE(b, n), Words(rest, n));
  }

  lemma {:induction false} WordsConcat(a: seq<nat>, b: seq<nat>, n: nat)
    ensures Words(a + b, n) == Words(a, n) + Words(b, n)
  {
    hide LE;
    if a == [] {
      assert a + b == b;
    } else {
      assert (a + b)[1..] == a[1..] + b;
      WordsConcat(a[1..], b, n);
      Associates(LE(a[0], n), Words(a[1..], n), Words(b, n));
    }
  }

  method WriteTokens(ids: seq<seq<int>>) returns (b: Bytes)
    ensures b == Words(Tokens(ids), 4)
  {
    hide LE, Lows;
    b := [];
    assert ids[0..] == ids;
    for i := 0 to |ids|
      invariant b + Words(Tokens(ids[i..]), 4) == Words(Tokens(ids), 4)
    {
      assert ids[i..][1..] == ids[i + 1..];
      var row := WriteRow(ids[i]);
      WordsConcat(Lows(ids[i]), Tokens(ids[i + 1..]), 4);
      Associates(b, row, Words(Tokens(ids[i + 1..]), 4));
      b := b + row;
    }
    assert ids[|ids|..] == [] && b + [] == b;
  }

  method WriteRow(row: seq<int>) returns (b: Bytes)
    ensures b == Words(Lows(row), 4)
  {
    hide LE, Low32;
    b := [];
    for k := 0 to |row|
      invariant b == Words(Lows(row)[..k], 4)
    {
      assert Lows(row)[..k + 1] == Lows(row)[..k] + [Lows(row)[k]];
      WordsConcat(Lows(row)[..k], [Lows(row)[k]], 4);
      assert Words([Lows(row)[k]], 4) == LE(Lows(row)[k], 4) + Words([], 4) == LE(Lows(row)[k], 4);
      b := b + LE(Low32(row[k]), 4);
    }
    assert Lows(row)[..|row|] == Lows(row);
  }

  function Extend(ids: seq<seq<int>>, prompts: seq<int>, o: Outcome): Outcome {
    match o
    case Decoded(r) => Decoded(Rows(ids + r.ids, prompts + r.prompts, r.vocab))
    case _ => o
  }

  lemma ExtendMore(ids: seq<seq<int>>, prompts: seq<int>, row: seq<int>, prompt: int, o: Outcome)
    ensures Extend(ids, prompts, Prepended(row, prompt, o)) == Extend(ids + [row], prompts + [prompt], o)
  {
    if o.Decoded? {
      Associates(ids, [row], o.rows.ids);
      Associates(prompts, [prompt], o.rows.prompts);
    }
  }

  lemma ExtendNone(o: Outcome)
    ensures Extend([], [], o) == o
  {
    if o.Decoded? { assert [] + o.rows.ids == o.rows.ids && [] + o.rows.prompts == o.rows.prompts; }
  }

  /** One row off the tables, from row i and place at on. */
  lemma CutStep(lens: seq<nat>, toks: seq<nat>, i: nat, at: nat, n: nat, vocab: int)
    requires 2 * i <= |lens| && at <= |toks| && n > 0
    ensures Cut(lens[2 * i..], toks[at..], n, vocab)
         == if 2 * i + 1 >= |lens| || at + lens[2 * i] > |toks| then Panics
            else var m := lens[2 * i];
                 Prepended(toks[at..at + m], lens[2 * i + 1], Cut(lens[2 * (i + 1)..], toks[at + m..], n - 1, vocab))
  {
    if 2 * i + 1 < |lens| {
      var m := lens[2 * i];
      assert lens[2 * i..][2..] == lens[2 * (i + 1)..];
      if at + m <= |toks| {
        assert toks[at..][m..] == toks[at + m..] && toks[at..][..m] == toks[at..at + m];
      }
    }
  }

  lemma CutNone(lens: seq<nat>, toks: seq<nat>, vocab: int)
    ensures Cut(lens, toks, 0, vocab) == Decoded(Rows([], [], vocab))
  {}

  /** The rows, taken off the two tables one by one. */
  method CutRows(lens: seq<nat>, toks: seq<nat>, n: nat, vocab: int) returns (o: Outcome)
    ensures o == Cut(lens, toks, n, vocab)
  {
    hide Cut;
    var ids: seq<seq<int>>, prompts: seq<int> := [], [];
    var at := 0;
    assert lens[0..] == lens && toks[0..] == toks;
    ExtendNone(Cut(lens, toks, n, vocab));
    for i := 0 to n
      invariant 0 <= at <= |toks| && 2 * i <= |lens|
      invariant Extend(ids, prompts, Cut(lens[2 * i..], toks[at..], n - i, vocab)) == Cut(lens, toks, n, vocab)
    {
      CutStep(lens, toks, i, at, n - i, vocab);
      if 2 * i + 1 >= |lens| || at + lens[2 * i] > |toks| { return Panics; }
      var m := lens[2 * i];
      ExtendMore(ids, prompts, toks[at..at + m], lens[2 * i + 1], Cut(lens[2 * (i + 1)..], toks[at + m..], n - i - 1, vocab));
      ids, prompts := ids + [toks[at..at + m]], prompts + [lens[2 * i + 1]];
      at := at + m;
    }
    CutNone(lens[2 * n..], toks[at..], vocab);
    assert ids + [] == ids && prompts + [] == prompts;
    o := Decoded(Rows(ids, prompts, vocab));
  }
}
