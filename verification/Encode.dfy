/** Encoding a text: added tokens first, the longest first; the text between is normalised, cut into chunks and merged. */
module Encode {
  import opened Basics
  import opened Pretokenizer
  import Bpe

  type Text = seq<char>

  datatype Added = Added(content: Text, id: int)

  /** The loader drops empty added tokens and sorts the others by length in bytes, longest first; so none comes before
      one that it begins. */
  predicate LongestFirst(added: seq<Added>) {
    (forall k :: 0 <= k < |added| ==> added[k].content != [])
    && forall j, k :: 0 <= j < k < |added| ==> !(added[j].content < added[k].content)
  }

  predicate Starts(s: Text, i: nat, w: Text) { i + |w| <= |s| && s[i..i + |w|] == w }

  // ---- The split into added tokens and the text between ----

  /** Text between added tokens, with its chunks, or an added token. */
  datatype Piece = Plain(text: Text, chunks: seq<Text>) | Token(text: Text, id: int)

  predicate NoneStarts(added: seq<Added>, s: Text, i: nat) {
    forall k :: 0 <= k < |added| ==> !Starts(s, i, added[k].content)
  }

  /** Token k stands at i, no longer one does, and no earlier one with its content is listed. */
  predicate LongestAt(added: seq<Added>, s: Text, i: nat, k: nat) {
    k < |added| && Starts(s, i, added[k].content)
    && forall j :: 0 <= j < |added| && Starts(s, i, added[j].content) ==>
         |added[j].content| < |added[k].content| || (added[j].content == added[k].content && k <= j)
  }

  /** pieces are what stands in s from i to end: added tokens, the longest at their place, and between them whole
      stretches of text in which none starts. */
  ghost predicate Pieces(t: Tables, nfc: Text -> Text, added: seq<Added>, s: Text, i: nat, pieces: seq<Piece>, end: nat)
    decreases |pieces|
  {
    if pieces == [] then i == end else
    PieceAt(t, nfc, added, s, i, pieces[0]) && Pieces(t, nfc, added, s, i + |pieces[0].text|, pieces[1..], end)
  }

  ghost predicate PieceAt(t: Tables, nfc: Text -> Text, added: seq<Added>, s: Text, i: nat, p: Piece) {
    match p
    case Token(text, id) => exists k: nat :: LongestAt(added, s, i, k) && added[k] == Added(text, id)
    case Plain(text, chunks) =>
      var e := i + |text|;
      i < e <= |s| && text == s[i..e] && Cut(t, nfc(text), 0, chunks, |nfc(text)|)
      && (forall m :: i <= m < e ==> NoneStarts(added, s, m))
      && (e == |s| || !NoneStarts(added, s, e))
  }

  // ---- What the pieces encode to ----

  type Ids = Bpe.Result<seq<int>>

  /** a's ids and then b's, up to the first symbol without a token. */
  ghost function Both(a: Ids, b: Ids): Ids { if a.Ok? then Bpe.Prepend(a.value, b) else a }

  /** The bytes of a chunk, which BPE works on. */
  type Utf8 = Text -> seq<Byte>

  /** What each chunk encodes to. */
  type ChunkEncoder = Text -> Ids

  /** The tokenizer's sweeps. */
  ghost function Swept(vocab: map<Bpe.Symbol, int>, ranks: map<string, int>, utf8: Utf8): ChunkEncoder {
    chunk => Bpe.Encoding(vocab, ranks, utf8(chunk))
  }

  /** The definition of BPE: one merge at a time, the pair of the lowest rank first. */
  ghost function Merged(vocab: map<Bpe.Symbol, int>, ranks: map<string, int>, utf8: Utf8): ChunkEncoder {
    chunk => Bpe.Ids(vocab, Bpe.MergeAll(ranks, Bpe.Runes(utf8(chunk))))
  }

  /** The symbols of each chunk, by sweeping and by the definition. */
  type Merger = Text -> seq<Bpe.Symbol>

  ghost function SweptSymbols(ranks: map<string, int>, utf8: Utf8): Merger {
    chunk => Bpe.SweepAll(ranks, Bpe.Runes(utf8(chunk)))
  }

  ghost function MergedSymbols(ranks: map<string, int>, utf8: Utf8): Merger {
    chunk => Bpe.MergeAll(ranks, Bpe.Runes(utf8(chunk)))
  }

  ghost function ChunkIds(ids: ChunkEncoder, chunks: seq<Text>): Ids {
    if chunks == [] then Bpe.Ok([])
    else Both(ids(chunks[0]), ChunkIds(ids, chunks[1..]))
  }

  ghost function PieceIds(ids: ChunkEncoder, p: Piece): Ids {
    match p
    case Token(_, id) => Bpe.Ok([id])
    case Plain(_, chunks) => ChunkIds(ids, chunks)
  }

  ghost function PiecesIds(ids: ChunkEncoder, pieces: seq<Piece>): Ids {
    if pieces == [] then Bpe.Ok([])
    else Both(PieceIds(ids, pieces[0]), PiecesIds(ids, pieces[1..]))
  }

  // ---- What a split is ----

  function Spelled(pieces: seq<Piece>): Text {
    if pieces == [] then [] else pieces[0].text + Spelled(pieces[1..])
  }

  lemma PieceSpells(t: Tables, nfc: Text -> Text, added: seq<Added>, s: Text, i: nat, p: Piece)
    requires PieceAt(t, nfc, added, s, i, p)
    ensures Starts(s, i, p.text) && (LongestFirst(added) ==> p.text != [])
  {
    hide Cut;
  }

  /** The pieces spell the text. */
  lemma {:induction false} PiecesCover(t: Tables, nfc: Text -> Text, added: seq<Added>, s: Text, i: nat, pieces: seq<Piece>)
    requires i <= |s| && Pieces(t, nfc, added, s, i, pieces, |s|)
    ensures Spelled(pieces) == s[i..]
    decreases |pieces|
  {
    hide PieceAt;
    if pieces != [] {
      PieceSpells(t, nfc, added, s, i, pieces[0]);
      var e := i + |pieces[0].text|;
      PiecesCover(t, nfc, added, s, e, pieces[1..]);
      assert s[i..] == s[i..e] + s[e..];
    }
  }

  lemma FirstPieceUnique(t: Tables, nfc: Text -> Text, added: seq<Added>, s: Text, i: nat, p: Piece, q: Piece)
    requires PieceAt(t, nfc, added, s, i, p) && PieceAt(t, nfc, added, s, i, q)
    ensures p == q
  {
    hide Cut, Starts;
    if p.Plain? && q.Plain? {
      var e, e' := i + |p.text|, i + |q.text|;
      var ends, ends' := NoneStarts(added, s, e), NoneStarts(added, s, e');
      assert e == e';
      CutUnique(t, nfc(p.text), 0, p.chunks, q.chunks);
    } else if p.Token? && q.Token? {
      var k: nat :| LongestAt(added, s, i, k) && added[k] == Added(p.text, p.id);
      var k': nat :| LongestAt(added, s, i, k') && added[k'] == Added(q.text, q.id);
      assert k == k';
    } else {
      NotBoth(t, nfc, added, s, i, if p.Plain? then p else q, if p.Plain? then q else p);
    }
  }

  /** Text and an added token do not stand at the same place. */
  lemma NotBoth(t: Tables, nfc: Text -> Text, added: seq<Added>, s: Text, i: nat, p: Piece, q: Piece)
    requires p.Plain? && q.Token? && PieceAt(t, nfc, added, s, i, p)
    ensures !PieceAt(t, nfc, added, s, i, q)
  {
    hide Cut, Starts;
    assert NoneStarts(added, s, i);
  }

  /** A text splits in one way. */
  lemma {:induction false} PiecesUnique(t: Tables, nfc: Text -> Text, added: seq<Added>, s: Text, i: nat, a: seq<Piece>, b: seq<Piece>)
    requires LongestFirst(added)
    requires Pieces(t, nfc, added, s, i, a, |s|) && Pieces(t, nfc, added, s, i, b, |s|)
    ensures a == b
    decreases |a|
  {
    hide PieceAt;
    EndsOnce(t, nfc, added, s, i, a);
    EndsOnce(t, nfc, added, s, i, b);
    if a != [] {
      FirstPieceUnique(t, nfc, added, s, i, a[0], b[0]);
      PiecesUnique(t, nfc, added, s, i + |a[0].text|, a[1..], b[1..]);
      Uncons(a);
      Uncons(b);
    }
  }

  lemma EndsOnce(t: Tables, nfc: Text -> Text, added: seq<Added>, s: Text, i: nat, a: seq<Piece>)
    requires LongestFirst(added) && Pieces(t, nfc, added, s, i, a, |s|)
    ensures i == |s| <==> a == []
  {
    hide PieceAt;
    if a != [] { PieceSpells(t, nfc, added, s, i, a[0]); }
  }

  lemma {:induction false} PiecesConcat(t: Tables, nfc: Text -> Text, added: seq<Added>, s: Text, i: nat, a: seq<Piece>, j: nat, b: seq<Piece>, end: nat)
    requires Pieces(t, nfc, added, s, i, a, j) && Pieces(t, nfc, added, s, j, b, end)
    ensures Pieces(t, nfc, added, s, i, a + b, end)
    decreases |a|
  {
    hide PieceAt;
    if a == [] {
      assert a + b == b;
    } else {
      PiecesConcat(t, nfc, added, s, i + |a[0].text|, a[1..], j, b, end);
      assert (a + b)[1..] == a[1..] + b;
    }
  }

  lemma OnePiece(t: Tables, nfc: Text -> Text, added: seq<Added>, s: Text, i: nat, p: Piece)
    requires PieceAt(t, nfc, added, s, i, p)
    ensures Pieces(t, nfc, added, s, i, [p], i + |p.text|)
  {
    hide PieceAt;
    assert [p][1..] == [];
  }

  // ---- Every text splits ----

  /** The first added token that stands at i, which is the longest because the longest are listed first. */
  function FirstStarting(added: seq<Added>, s: Text, i: nat): (k: nat)
    ensures k <= |added| && (forall j :: 0 <= j < k ==> !Starts(s, i, added[j].content))
    ensures k < |added| ==> Starts(s, i, added[k].content)
  {
    if added == [] || Starts(s, i, added[0].content) then 0 else FirstStarting(added[1..], s, i) + 1
  }

  lemma FirstIsLongest(added: seq<Added>, s: Text, i: nat)
    requires LongestFirst(added)
    ensures var k := FirstStarting(added, s, i);
            if k == |added| then NoneStarts(added, s, i) else LongestAt(added, s, i, k)
  {
    var k := FirstStarting(added, s, i);
    if k < |added| {
      forall j | 0 <= j < |added| && Starts(s, i, added[j].content)
        ensures |added[j].content| < |added[k].content| || (added[j].content == added[k].content && k <= j)
      {
        var a, b := added[k].content, added[j].content;
        assert |a| <= |b| ==> b[..|a|] == s[i..i + |b|][..|a|] == a;
        assert |b| <= |a| ==> a[..|b|] == s[i..i + |a|][..|b|] == b;
        assert j > k ==> !(a < b);
      }
    }
  }

  /** The first place from i where an added token starts, or the end. */
  function NextStart(added: seq<Added>, s: Text, i: nat): (e: nat)
    requires i <= |s|
    ensures i <= e <= |s| && (forall m :: i <= m < e ==> NoneStarts(added, s, m)) && (e == |s| || !NoneStarts(added, s, e))
    decreases |s| - i
  {
    if i == |s| || !NoneStarts(added, s, i) then i else NextStart(added, s, i + 1)
  }

  lemma FirstPieceExists(t: Tables, nfc: Text -> Text, added: seq<Added>, s: Text, i: nat) returns (p: Piece)
    requires BreaksAreSpace(t) && LongestFirst(added) && i < |s|
    ensures PieceAt(t, nfc, added, s, i, p)
  {
    hide Cut, Starts;
    FirstIsLongest(added, s, i);
    var k := FirstStarting(added, s, i);
    if k < |added| {
      p := Token(added[k].content, added[k].id);
      assert added[k] == Added(p.text, p.id);
    } else {
      var text := s[i..NextStart(added, s, i)];
      CutExists(t, nfc(text), 0);
      var chunks :| Cut(t, nfc(text), 0, chunks, |nfc(text)|);
      p := Plain(text, chunks);
    }
  }

  lemma {:induction false} PiecesExist(t: Tables, nfc: Text -> Text, added: seq<Added>, s: Text, i: nat)
    requires BreaksAreSpace(t) && LongestFirst(added) && i <= |s|
    ensures exists pieces :: Pieces(t, nfc, added, s, i, pieces, |s|)
    decreases |s| - i
  {
    hide PieceAt, LongestFirst;
    if i == |s| {
      assert Pieces(t, nfc, added, s, i, [], |s|);
    } else {
      var p := FirstPieceExists(t, nfc, added, s, i);
      PieceSpells(t, nfc, added, s, i, p);
      PiecesExist(t, nfc, added, s, i + |p.text|);
      var rest :| Pieces(t, nfc, added, s, i + |p.text|, rest, |s|);
      OnePiece(t, nfc, added, s, i, p);
      PiecesConcat(t, nfc, added, s, i, [p], i + |p.text|, rest, |s|);
      assert Pieces(t, nfc, added, s, i, [p] + rest, |s|);
    }
  }

  // ---- The encoding ----

  lemma BothAssociates(a: Ids, b: Ids, c: Ids)
    ensures Both(Both(a, b), c) == Both(a, Both(b, c))
  {
    if a.Ok? && b.Ok? && c.Ok? { Associates(a.value, b.value, c.value); }
  }

  lemma BothNone(a: Ids)
    ensures Both(Bpe.Ok([]), a) == a && Both(a, Bpe.Ok([])) == a
  {
    if a.Ok? { assert [] + a.value == a.value && a.value + [] == a.value; }
  }

  lemma {:induction false} ChunkIdsConcat(ids: ChunkEncoder, a: seq<Text>, b: seq<Text>)
    ensures ChunkIds(ids, a + b) == Both(ChunkIds(ids, a), ChunkIds(ids, b))
  {
    if a == [] {
      assert a + b == b;
      BothNone(ChunkIds(ids, b));
    } else {
      assert (a + b)[1..] == a[1..] + b;
      ChunkIdsConcat(ids, a[1..], b);
      BothAssociates(ids(a[0]), ChunkIds(ids, a[1..]), ChunkIds(ids, b));
    }
  }

  lemma OneChunk(ids: ChunkEncoder, chunk: Text)
    ensures ChunkIds(ids, [chunk]) == ids(chunk)
  {
    BothNone(ids(chunk));
    assert [chunk][1..] == [];
  }

  /** The chunk that comes next adds its ids, or is where the encoding fails. */
  lemma ChunkFollows(ids: ChunkEncoder, chunks: seq<Text>, i: nat, out: seq<int>)
    requires i < |chunks| && ChunkIds(ids, chunks[..i]) == Bpe.Ok(out)
    ensures var r := ids(chunks[i]);
            if r.Ok? then ChunkIds(ids, chunks[..i + 1]) == Bpe.Ok(out + r.value) else ChunkIds(ids, chunks) == r
  {
    hide ChunkIds;
    ChunkIdsConcat(ids, chunks[..i], [chunks[i]]);
    assert chunks[..i + 1] == chunks[..i] + [chunks[i]];
    OneChunk(ids, chunks[i]);
    ChunkIdsConcat(ids, chunks[..i + 1], chunks[i + 1..]);
    assert chunks[..i + 1] + chunks[i + 1..] == chunks;
  }

  lemma {:induction false} PiecesIdsConcat(ids: ChunkEncoder, a: seq<Piece>, b: seq<Piece>)
    ensures PiecesIds(ids, a + b) == Both(PiecesIds(ids, a), PiecesIds(ids, b))
  {
    if a == [] {
      assert a + b == b;
      BothNone(PiecesIds(ids, b));
    } else {
      assert (a + b)[1..] == a[1..] + b;
      PiecesIdsConcat(ids, a[1..], b);
      BothAssociates(PieceIds(ids, a[0]), PiecesIds(ids, a[1..]), PiecesIds(ids, b));
    }
  }

  // ---- Which ids those are ----

  /** The ids of the parts stand in ids one after another, those of part k from ends[k] to ends[k + 1]. */
  ghost predicate Laid(parts: seq<Ids>, ids: seq<int>, ends: seq<nat>) {
    |ends| == |parts| + 1 && ends[0] == 0 && ends[|parts|] == |ids|
    && forall k :: 0 <= k < |parts| ==> PartAt(parts[k], ids, ends[k], ends[k + 1])
  }

  ghost predicate PartAt(part: Ids, ids: seq<int>, from: nat, to: nat) {
    part.Ok? && from <= to <= |ids| && ids[from..to] == part.value
  }

  /** r is the parts in their order, or the first failure among them. */
  ghost predicate InOrder(parts: seq<Ids>, r: Ids) {
    match r
    case Ok(ids) => exists ends :: Laid(parts, ids, ends)
    case NoToken(_) => exists k :: 0 <= k < |parts| && parts[k] == r && forall m :: 0 <= m < k ==> parts[m].Ok?
  }

  /** One result for each chunk, every id that of its symbol. */
  ghost predicate ChunkParts(vocab: map<Bpe.Symbol, int>, syms: Merger, chunks: seq<Text>, parts: seq<Ids>) {
    |parts| == |chunks| && forall k :: 0 <= k < |chunks| ==> Bpe.TokensOf(vocab, syms(chunks[k]), parts[k])
  }

  ghost predicate ChunksGive(vocab: map<Bpe.Symbol, int>, syms: Merger, chunks: seq<Text>, r: Ids) {
    exists parts :: ChunkParts(vocab, syms, chunks, parts) && InOrder(parts, r)
  }

  /** An added token gives its own id. */
  ghost predicate PieceGives(vocab: map<Bpe.Symbol, int>, syms: Merger, p: Piece, r: Ids) {
    match p
    case Token(_, id) => r == Bpe.Ok([id])
    case Plain(_, chunks) => ChunksGive(vocab, syms, chunks, r)
  }

  ghost predicate PieceParts(vocab: map<Bpe.Symbol, int>, syms: Merger, pieces: seq<Piece>, parts: seq<Ids>) {
    |parts| == |pieces| && forall k :: 0 <= k < |pieces| ==> PieceGives(vocab, syms, pieces[k], parts[k])
  }

  ghost predicate PiecesGive(vocab: map<Bpe.Symbol, int>, syms: Merger, pieces: seq<Piece>, r: Ids) {
    exists parts :: PieceParts(vocab, syms, pieces, parts) && InOrder(parts, r)
  }

  lemma NothingInOrder()
    ensures InOrder([], Bpe.Ok([]))
  {
    assert Laid([], [], [0]);
  }

  /** One part more in front. */
  lemma ConsInOrder(a: Ids, parts: seq<Ids>, r: Ids)
    requires InOrder(parts, r)
    ensures InOrder([a] + parts, Both(a, r))
  {
    var more := [a] + parts;
    if a.NoToken? {
      assert more[0] == a;
    } else if r.NoToken? {
      var k :| 0 <= k < |parts| && parts[k] == r && forall m :: 0 <= m < k ==> parts[m].Ok?;
      assert more[k + 1] == r;
    } else {
      var ends :| Laid(parts, r.value, ends);
      ConsLaid(a, parts, r.value, ends);
    }
  }

  lemma ConsLaid(a: Ids, parts: seq<Ids>, ids: seq<int>, ends: seq<nat>)
    requires a.Ok? && Laid(parts, ids, ends)
    ensures exists ends' :: Laid([a] + parts, a.value + ids, ends')
  {
    var n, more, all := |a.value|, [a] + parts, a.value + ids;
    var ends' := [0] + seq(|ends|, k requires 0 <= k < |ends| => n + ends[k]);
    forall k | 0 <= k < |more| ensures PartAt(more[k], all, ends'[k], ends'[k + 1]) {
      if k > 0 {
        assert PartAt(parts[k - 1], ids, ends[k - 1], ends[k]);
        assert all[n + ends[k - 1]..n + ends[k]] == ids[ends[k - 1]..ends[k]];
      }
    }
    assert Laid(more, all, ends');
  }

  lemma {:induction false} ChunkIdsGive(vocab: map<Bpe.Symbol, int>, syms: Merger, ids: ChunkEncoder, chunks: seq<Text>)
    requires forall c :: Bpe.TokensOf(vocab, syms(c), ids(c))
    ensures ChunksGive(vocab, syms, chunks, ChunkIds(ids, chunks))
  {
    hide Bpe.TokensOf, InOrder, Both;
    if chunks == [] {
      NothingInOrder();
      assert ChunkParts(vocab, syms, chunks, []);
    } else {
      ChunkIdsGive(vocab, syms, ids, chunks[1..]);
      var parts :| ChunkParts(vocab, syms, chunks[1..], parts) && InOrder(parts, ChunkIds(ids, chunks[1..]));
      ConsInOrder(ids(chunks[0]), parts, ChunkIds(ids, chunks[1..]));
      assert ChunkParts(vocab, syms, chunks, [ids(chunks[0])] + parts);
    }
  }

  lemma {:induction false} PiecesIdsGive(vocab: map<Bpe.Symbol, int>, syms: Merger, ids: ChunkEncoder, pieces: seq<Piece>)
    requires forall c :: Bpe.TokensOf(vocab, syms(c), ids(c))
    ensures PiecesGive(vocab, syms, pieces, PiecesIds(ids, pieces))
  {
    hide Bpe.TokensOf, InOrder, Both, ChunksGive, ChunkIds;
    if pieces == [] {
      NothingInOrder();
      assert PieceParts(vocab, syms, pieces, []);
    } else {
      var p := pieces[0];
      PiecesIdsGive(vocab, syms, ids, pieces[1..]);
      if p.Plain? { ChunkIdsGive(vocab, syms, ids, p.chunks); }
      var parts :| PieceParts(vocab, syms, pieces[1..], parts) && InOrder(parts, PiecesIds(ids, pieces[1..]));
      ConsInOrder(PieceIds(ids, p), parts, PiecesIds(ids, pieces[1..]));
      assert PieceParts(vocab, syms, pieces, [PieceIds(ids, p)] + parts);
    }
  }

  /** r is the text's encoding. */
  ghost predicate IsEncoding(t: Tables, nfc: Text -> Text, added: seq<Added>, ids: ChunkEncoder, s: Text, r: Ids) {
    exists pieces :: Pieces(t, nfc, added, s, 0, pieces, |s|) && r == PiecesIds(ids, pieces)
  }

  /** The text splits into pieces, and r is their ids in order or the first symbol without a token. */
  ghost predicate GivesIds(t: Tables, nfc: Text -> Text, added: seq<Added>, vocab: map<Bpe.Symbol, int>, syms: Merger,
                           s: Text, r: Ids) {
    exists pieces :: Pieces(t, nfc, added, s, 0, pieces, |s|) && PiecesGive(vocab, syms, pieces, r)
  }

  lemma SweptGives(vocab: map<Bpe.Symbol, int>, ranks: map<string, int>, utf8: Utf8, chunk: Text)
    ensures Bpe.TokensOf(vocab, SweptSymbols(ranks, utf8)(chunk), Swept(vocab, ranks, utf8)(chunk))
  {
    hide Bpe.TokensOf, Bpe.SweepAll, Bpe.Ids;
    Bpe.IdsAre(vocab, Bpe.SweepAll(ranks, Bpe.Runes(utf8(chunk))));
  }

  lemma EncodingGivesIds(t: Tables, nfc: Text -> Text, added: seq<Added>, vocab: map<Bpe.Symbol, int>,
                         ranks: map<string, int>, utf8: Utf8, s: Text, r: Ids)
    requires IsEncoding(t, nfc, added, Swept(vocab, ranks, utf8), s, r)
    ensures GivesIds(t, nfc, added, vocab, SweptSymbols(ranks, utf8), s, r)
  {
    hide Pieces, PiecesIds, PiecesGive, Bpe.TokensOf, SweptSymbols, Swept;
    var pieces :| Pieces(t, nfc, added, s, 0, pieces, |s|) && r == PiecesIds(Swept(vocab, ranks, utf8), pieces);
    forall c ensures Bpe.TokensOf(vocab, SweptSymbols(ranks, utf8)(c), Swept(vocab, ranks, utf8)(c)) {
      SweptGives(vocab, ranks, utf8, c);
    }
    PiecesIdsGive(vocab, SweptSymbols(ranks, utf8), Swept(vocab, ranks, utf8), pieces);
  }

  /** The tokenizer's files and the text determine the encoding. */
  lemma EncodingUnique(t: Tables, nfc: Text -> Text, added: seq<Added>, ids: ChunkEncoder, s: Text, r: Ids, r': Ids)
    requires LongestFirst(added)
    requires IsEncoding(t, nfc, added, ids, s, r) && IsEncoding(t, nfc, added, ids, s, r')
    ensures r == r'
  {
    hide Pieces, PiecesIds, LongestFirst;
    var a :| Pieces(t, nfc, added, s, 0, a, |s|) && r == PiecesIds(ids, a);
    var b :| Pieces(t, nfc, added, s, 0, b, |s|) && r' == PiecesIds(ids, b);
    PiecesUnique(t, nfc, added, s, 0, a, b);
  }

  // ---- A text's encoding is that of BPE by its definition ----

  lemma {:induction false} ChunksAgree(ids: ChunkEncoder, ids': ChunkEncoder, chunks: seq<Text>)
    requires forall c <- chunks :: ids(c) == ids'(c)
    ensures ChunkIds(ids, chunks) == ChunkIds(ids', chunks)
  {
    if chunks != [] { ChunksAgree(ids, ids', chunks[1..]); }
  }

  lemma {:induction false} PiecesAgree(ids: ChunkEncoder, ids': ChunkEncoder, pieces: seq<Piece>)
    requires forall c :: ids(c) == ids'(c)
    ensures PiecesIds(ids, pieces) == PiecesIds(ids', pieces)
  {
    if pieces != [] {
      if pieces[0].Plain? { ChunksAgree(ids, ids', pieces[0].chunks); }
      PiecesAgree(ids, ids', pieces[1..]);
    }
  }

  /** With merges in order, encoding a text merges each chunk one pair at a time: sweeping changes nothing, and so
      neither does it change which symbol first has no token. */
  lemma TextIsBpe(t: Tables, nfc: Text -> Text, added: seq<Added>, vocab: map<Bpe.Symbol, int>, ranks: map<string, int>,
                  utf8: Utf8, s: Text, r: Ids)
    requires Bpe.GoodRanks(ranks) && Bpe.MergesInOrder(ranks)
    ensures IsEncoding(t, nfc, added, Swept(vocab, ranks, utf8), s, r)
       <==> IsEncoding(t, nfc, added, Merged(vocab, ranks, utf8), s, r)
    ensures IsEncoding(t, nfc, added, Swept(vocab, ranks, utf8), s, r)
        ==> GivesIds(t, nfc, added, vocab, MergedSymbols(ranks, utf8), s, r)
  {
    hide Pieces, PiecesIds, Bpe.Encoding, Bpe.MergesInOrder, PiecesGive, Bpe.TokensOf, Bpe.MergeAll, Bpe.GoodRanks;
    var swept, merged := Swept(vocab, ranks, utf8), Merged(vocab, ranks, utf8);
    forall c ensures swept(c) == merged(c) && Bpe.TokensOf(vocab, MergedSymbols(ranks, utf8)(c), swept(c)) {
      Bpe.EncodingIsBpe(vocab, ranks, utf8(c));
    }
    forall pieces ensures PiecesIds(swept, pieces) == PiecesIds(merged, pieces) { PiecesAgree(swept, merged, pieces); }
    if IsEncoding(t, nfc, added, swept, s, r) {
      var pieces :| Pieces(t, nfc, added, s, 0, pieces, |s|) && r == PiecesIds(swept, pieces);
      PiecesIdsGive(vocab, MergedSymbols(ranks, utf8), swept, pieces);
    }
  }

  class Encoder {
    const bpe: Bpe.Tokenizer
    const added: seq<Added>
    const tables: Tables
    const nfc: Text -> Text      // NFC, or nothing when the tokenizer file names no normalizer
    const utf8: Utf8

    ghost predicate Valid()
      reads this, bpe, bpe.byteRune
    {
      bpe.Valid() && BreaksAreSpace(tables) && LongestFirst(added)
    }

    constructor (bpe: Bpe.Tokenizer, added: seq<Added>, tables: Tables, nfc: Text -> Text, utf8: Utf8)
      requires bpe.Valid() && BreaksAreSpace(tables) && LongestFirst(added)
      ensures Valid() && this.bpe == bpe && this.added == added && this.tables == tables && this.nfc == nfc && this.utf8 == utf8
    {
      this.bpe, this.added, this.tables, this.nfc, this.utf8 := bpe, added, tables, nfc, utf8;
    }

    ghost function OfChunk(): ChunkEncoder { Swept(bpe.vocab, bpe.ranks, utf8) }

    method Starting(s: Text, i: nat) returns (k: nat)
      ensures k == FirstStarting(added, s, i)
    {
      k := 0;
      assert added[0..] == added;
      while k < |added| && !(i + |added[k].content| <= |s| && s[i..i + |added[k].content|] == added[k].content)
        invariant k <= |added| && FirstStarting(added, s, i) == FirstStarting(added[k..], s, i) + k
      {
        assert added[k..][1..] == added[k + 1..];
        k := k + 1;
      }
    }

    /** A stretch of text between added tokens. */
    method EncodeText(s: Text) returns (r: Ids, ghost chunks: seq<Text>)
      requires Valid()
      modifies bpe`cache
      ensures Valid()
      ensures s != [] ==> Cut(tables, nfc(s), 0, chunks, |nfc(s)|) && r == ChunkIds(OfChunk(), chunks)
                          && ChunksGive(bpe.vocab, SweptSymbols(bpe.ranks, utf8), chunks, r)
      ensures s == [] ==> r == Bpe.Ok([])
    {
      hide Cut, ChunkIds, LongestFirst, Bpe.Encoding, ChunksGive, Bpe.TokensOf;
      if s == [] { return Bpe.Ok([]), []; }
      var parts := Pretokenize(tables, nfc(s));
      chunks := parts;
      ChunksSweptGive(parts);
      var out: seq<int> := [];
      NoChunks(parts);
      for i := 0 to |parts|
        invariant Valid()
        invariant ChunkIds(OfChunk(), parts[..i]) == Bpe.Ok(out)
      {
        ChunkFollows(OfChunk(), parts, i, out);
        var ids := bpe.Bpe(utf8(parts[i]));
        if ids.NoToken? {
          return Bpe.NoToken(ids.symbol), parts;
        }
        out := out + ids.value;
      }
      assert parts[..|parts|] == parts;
      r := Bpe.Ok(out);
    }

    lemma ChunksSweptGive(chunks: seq<Text>)
      ensures ChunksGive(bpe.vocab, SweptSymbols(bpe.ranks, utf8), chunks, ChunkIds(OfChunk(), chunks))
    {
      hide ChunksGive, ChunkIds, Bpe.TokensOf, SweptSymbols, Swept;
      forall c ensures Bpe.TokensOf(bpe.vocab, SweptSymbols(bpe.ranks, utf8)(c), OfChunk()(c)) {
        SweptGives(bpe.vocab, bpe.ranks, utf8, c);
      }
      ChunkIdsGive(bpe.vocab, SweptSymbols(bpe.ranks, utf8), OfChunk(), chunks);
    }

    lemma NoChunks(parts: seq<Text>)
      ensures ChunkIds(OfChunk(), parts[..0]) == Bpe.Ok([])
    {}

    /** The pieces up to end are encoded, and the stretch from there to i holds no added token. */
    ghost predicate Progress(s: Text, pieces: seq<Piece>, end: nat, i: nat, out: seq<int>)
      reads this, bpe, bpe.byteRune
    {
      Valid() && end <= i <= |s| && Pieces(tables, nfc, added, s, 0, pieces, end)
      && PiecesIds(OfChunk(), pieces) == Bpe.Ok(out)
      && forall m :: end <= m < i ==> NoneStarts(added, s, m)
    }

    /** Whatever follows, a piece that fails fails the text. */
    lemma Failing(s: Text, pieces: seq<Piece>, i: nat, r: Ids)
      requires Valid() && i <= |s| && Pieces(tables, nfc, added, s, 0, pieces, i)
      requires r.NoToken? && PiecesIds(OfChunk(), pieces) == r
      ensures IsEncoding(tables, nfc, added, OfChunk(), s, r)
    {
      hide Pieces, PiecesIds, LongestFirst;
      PiecesExist(tables, nfc, added, s, i);
      var rest :| Pieces(tables, nfc, added, s, i, rest, |s|);
      PiecesConcat(tables, nfc, added, s, 0, pieces, i, rest, |s|);
      PiecesIdsConcat(OfChunk(), pieces, rest);
      assert Pieces(tables, nfc, added, s, 0, pieces + rest, |s|);
    }

    lemma PlainAt(s: Text, start: nat, i: nat, chunks: seq<Text>)
      requires start < i <= |s| && (i == |s| || !NoneStarts(added, s, i))
      requires forall m :: start <= m < i ==> NoneStarts(added, s, m)
      requires Cut(tables, nfc(s[start..i]), 0, chunks, |nfc(s[start..i])|)
      ensures PieceAt(tables, nfc, added, s, start, Plain(s[start..i], chunks))
    {}

    /** The stretch from end to i, encoded. */
    lemma Stretch(s: Text, pieces: seq<Piece>, end: nat, i: nat, out: seq<int>, chunks: seq<Text>, seg: Ids)
      returns (more: seq<Piece>)
      requires Progress(s, pieces, end, i, out) && (i == |s| || !NoneStarts(added, s, i))
      requires end < i ==> Cut(tables, nfc(s[end..i]), 0, chunks, |nfc(s[end..i])|) && seg == ChunkIds(OfChunk(), chunks)
      requires end == i ==> seg == Bpe.Ok([])
      ensures Pieces(tables, nfc, added, s, 0, more, i)
      ensures PiecesIds(OfChunk(), more) == if seg.Ok? then Bpe.Ok(out + seg.value) else seg
    {
      hide Cut, Pieces, ChunkIds, NoneStarts, PieceAt, LongestFirst;
      if end == i {
        assert out + [] == out;
        more := pieces;
      } else {
        var p := Plain(s[end..i], chunks);
        more := pieces + [p];
        PlainAt(s, end, i, chunks);
        OnePiece(tables, nfc, added, s, end, p);
        PiecesConcat(tables, nfc, added, s, 0, pieces, end, [p], i);
        PiecesIdsConcat(OfChunk(), pieces, [p]);
        BothNone(PieceIds(OfChunk(), p));
        assert [p][1..] == [];
      }
    }

    /** An added token at i, after the pieces up to it. */
    lemma AfterToken(s: Text, pieces: seq<Piece>, i: nat, out: seq<int>, k: nat) returns (more: seq<Piece>)
      requires Valid() && Pieces(tables, nfc, added, s, 0, pieces, i)
      requires PiecesIds(OfChunk(), pieces) == Bpe.Ok(out) && LongestAt(added, s, i, k)
      ensures var e := i + |added[k].content|; Progress(s, more, e, e, out + [added[k].id])
    {
      hide Pieces, LongestFirst, Cut;
      var p := Token(added[k].content, added[k].id);
      assert added[k] == Added(p.text, p.id);
      assert PieceAt(tables, nfc, added, s, i, p);
      more := pieces + [p];
      OnePiece(tables, nfc, added, s, i, p);
      PiecesConcat(tables, nfc, added, s, 0, pieces, i, [p], i + |p.text|);
      PiecesIdsConcat(OfChunk(), pieces, [p]);
      BothNone(PieceIds(OfChunk(), p));
      assert [p][1..] == [];
    }

    /** The token at i and the text before it, or the failure of that text. */
    method TakeToken(s: Text, start: nat, i: nat, k: nat, out: seq<int>, ghost pieces: seq<Piece>)
      returns (r: Ids, ghost more: seq<Piece>)
      requires Progress(s, pieces, start, i, out) && LongestAt(added, s, i, k)
      modifies bpe`cache
      ensures Valid()
      ensures r.Ok? ==> var e := i + |added[k].content|; Progress(s, more, e, e, r.value)
      ensures r.NoToken? ==> IsEncoding(tables, nfc, added, OfChunk(), s, r)
    {
      hide Pieces, PiecesIds, IsEncoding, Cut, ChunkIds, LongestFirst, Starts;
      var seg, chunks := EncodeText(s[start..i]);
      more := Stretch(s, pieces, start, i, out, chunks, seg);
      if seg.NoToken? {
        Failing(s, more, i, seg);
        return seg, more;
      }
      more := AfterToken(s, more, i, out + seg.value, k);
      r := Bpe.Ok(out + seg.value + [added[k].id]);
    }

    /** The text's encoding: the ids of its pieces in order, each chunk's those of the symbols its merges leave, and an
        added token's its own; or the first symbol without a token. */
    method Encode(s: Text) returns (r: Ids)
      requires Valid()
      modifies bpe`cache
      ensures Valid()
      ensures IsEncoding(tables, nfc, added, OfChunk(), s, r)
      ensures GivesIds(tables, nfc, added, bpe.vocab, SweptSymbols(bpe.ranks, utf8), s, r)
    {
      r := EncodePieces(s);
      EncodingGivesIds(tables, nfc, added, bpe.vocab, bpe.ranks, utf8, s, r);
    }

    method EncodePieces(s: Text) returns (r: Ids)
      requires Valid()
      modifies bpe`cache
      ensures Valid()
      ensures IsEncoding(tables, nfc, added, OfChunk(), s, r)
    {
      hide Progress, Bpe.Tokenizer.Valid, IsEncoding, LongestFirst, LongestAt, FirstStarting;
      var out: seq<int> := [];
      var start, i := 0, 0;
      ghost var pieces: seq<Piece> := [];
      NoPieces(s);
      while i < |s|
        invariant 0 <= start <= i <= |s| && Progress(s, pieces, start, i, out)
        decreases |s| - i
      {
        Look(s, pieces, start, i, out);
        var k := Starting(s, i);
        if k < |added| {
          r, pieces := TakeToken(s, start, i, k, out, pieces);
          if r.NoToken? { return; }
          out := r.value;
          i := i + |added[k].content|;
          start := i;
        } else {
          i := i + 1;
        }
      }
      r := TakeRest(s, start, out, pieces);
    }

    /** The text after the last added token. */
    method TakeRest(s: Text, start: nat, out: seq<int>, ghost pieces: seq<Piece>) returns (r: Ids)
      requires Progress(s, pieces, start, |s|, out)
      modifies bpe`cache
      ensures Valid()
      ensures IsEncoding(tables, nfc, added, OfChunk(), s, r)
    {
      hide Pieces, PiecesIds, IsEncoding, Cut, ChunkIds, LongestFirst, NoneStarts;
      assert s[start..] == s[start..|s|];
      var seg, chunks := EncodeText(s[start..]);
      ghost var more := Stretch(s, pieces, start, |s|, out, chunks, seg);
      r := if seg.Ok? then Bpe.Ok(out + seg.value) else seg;
      Whole(s, more, r);
    }

    /** What stands at i decides the step. */
    lemma Look(s: Text, pieces: seq<Piece>, start: nat, i: nat, out: seq<int>)
      requires Progress(s, pieces, start, i, out) && i < |s|
      ensures var k := FirstStarting(added, s, i);
              if k == |added| then Progress(s, pieces, start, i + 1, out)
              else LongestAt(added, s, i, k) && i < i + |added[k].content| <= |s|
    {
      hide Cut, Pieces;
      FirstIsLongest(added, s, i);
    }

    lemma NoPieces(s: Text)
      requires Valid()
      ensures Progress(s, [], 0, 0, [])
    {}

    lemma Whole(s: Text, pieces: seq<Piece>, r: Ids)
      requires Pieces(tables, nfc, added, s, 0, pieces, |s|) && r == PiecesIds(OfChunk(), pieces)
      ensures IsEncoding(tables, nfc, added, OfChunk(), s, r)
    {}
  }
}
