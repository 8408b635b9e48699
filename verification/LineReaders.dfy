/** Two readers of lines from files: one follows a file that is still being written, the other reads a dataset in
    pages through a buffer. */
module LineReaders {
  import opened Basics

  const NL: Byte := 10
  const CR: Byte := 13

  // ---- Complete lines ----

  /** The first line break of b, or its end. */
  function Break(b: Bytes): (i: nat)
    ensures i <= |b| && (forall k :: 0 <= k < i ==> b[k] != NL) && (i < |b| ==> b[i] == NL)
  {
    if b == [] || b[0] == NL then 0 else
    var i := Break(b[1..]) + 1;
    assert forall k :: 1 <= k < i ==> b[k] == b[1..][k - 1];
    i
  }

  /** The complete lines of b, without their breaks; what follows the last break is not one. */
  function Lines(b: Bytes): seq<Bytes> {
    var i := Break(b);
    if i == |b| then [] else [b[..i]] + Lines(b[i + 1..])
  }

  predicate Whole(b: Bytes) { b == [] || b[|b| - 1] == NL }

  lemma {:induction false} BreakIs(b: Bytes, i: nat)
    requires i < |b| && b[i] == NL && forall k :: 0 <= k < i ==> b[k] != NL
    ensures Break(b) == i
  {
    if i > 0 { BreakIs(b[1..], i - 1); }
  }

  lemma {:induction false} LinesConcat(a: Bytes, b: Bytes)
    requires Whole(a)
    ensures Lines(a + b) == Lines(a) + Lines(b)
    decreases |a|
  {
    if a == [] {
      assert a + b == b;
      assert Lines(a) == [];
    } else {
      var i := Break(a);
      NoBreak(a);
      assert (a + b)[..i] == a[..i] && (a + b)[i + 1..] == a[i + 1..] + b;
      BreakIs(a + b, i);
      LinesConcat(a[i + 1..], b);
    }
  }

  lemma NoBreak(a: Bytes)
    requires a != [] && Whole(a)
    ensures Break(a) < |a|
  {
    assert a[|a| - 1] == NL;
  }

  /** The lines, each with a break behind it. */
  function WithBreaks(ls: seq<Bytes>): Bytes { if ls == [] then [] else ls[0] + [NL] + WithBreaks(ls[1..]) }

  /** The lines hold no break, and with their breaks they are all of b but what follows the last one. */
  lemma {:induction false} LinesAre(b: Bytes) returns (tail: Bytes)
    ensures b == WithBreaks(Lines(b)) + tail && NL !in tail
    decreases |b|
  {
    hide Lines, WithBreaks;
    var i := Break(b);
    if i == |b| {
      tail := b;
      NoLine(b);
      assert b == [] + tail;
    } else {
      tail := LinesAre(b[i + 1..]);
      FirstLine(b);
      assert b == (b[..i] + [NL]) + b[i + 1..];
      Associates(b[..i] + [NL], WithBreaks(Lines(b[i + 1..])), tail);
    }
  }

  lemma {:induction false} LinesUnbroken(b: Bytes, k: nat)
    requires k < |Lines(b)|
    ensures NL !in Lines(b)[k]
    decreases |b|
  {
    if Break(b) < |b| {
      FirstLine(b);
      hide Lines;
      if k > 0 { LinesUnbroken(b[Break(b) + 1..], k - 1); }
    }
  }

  lemma NoLine(b: Bytes)
    requires Break(b) == |b|
    ensures Lines(b) == [] && WithBreaks(Lines(b)) == []
  {}

  lemma FirstLine(b: Bytes)
    requires Break(b) < |b|
    ensures var i, ls := Break(b), Lines(b);
            ls != [] && ls[0] == b[..i] && ls[1..] == Lines(b[i + 1..])
            && WithBreaks(ls) == (b[..i] + [NL]) + WithBreaks(Lines(b[i + 1..]))
  {
    hide Break;
  }

  // ---- Following a growing file (aiTrainReadLines) ----

  /** bytes.Split on the line break. */
  function Split(b: Bytes): seq<Bytes> {
    var i := Break(b);
    if i == |b| then [b] else [b[..i]] + Split(b[i + 1..])
  }

  lemma {:induction false} SplitIsLines(b: Bytes)
    ensures Split(b) == Lines(b + [NL])
    decreases |b|
  {
    var i := Break(b);
    assert (b + [NL])[..i] == b[..i];
    BreakIs(b + [NL], i);
    if i < |b| {
      assert (b + [NL])[i + 1..] == b[i + 1..] + [NL];
      SplitIsLines(b[i + 1..]);
    } else {
      assert (b + [NL])[i + 1..] == [];
    }
  }

  /** strings.TrimSpace on each line, and empty ones left out. */
  function Kept(ls: seq<Bytes>, trim: Bytes -> Bytes): seq<Bytes> {
    if ls == [] then [] else
    var rest, s := Kept(ls[..|ls| - 1], trim), trim(ls[|ls| - 1]);
    if s == [] then rest else rest + [s]
  }

  lemma {:induction false} KeptConcat(a: seq<Bytes>, b: seq<Bytes>, trim: Bytes -> Bytes)
    ensures Kept(a + b, trim) == Kept(a, trim) + Kept(b, trim)
    decreases |b|
  {
    if b == [] {
      assert a + b == a;
    } else {
      assert (a + b)[..|a + b| - 1] == a + b[..|b| - 1];
      KeptConcat(a, b[..|b| - 1], trim);
    }
  }

  lemma KeptOne(line: Bytes, trim: Bytes -> Bytes)
    ensures Kept([], trim) == [] && Kept([line], trim) == if trim(line) == [] then [] else [trim(line)]
  {
    assert [line][..0] == [];
  }

  /** The last line break of b, or -1. */
  function LastBreak(b: Bytes): (i: int)
    ensures -1 <= i < |b| && (i >= 0 ==> b[i] == NL) && forall k :: i < k < |b| ==> b[k] != NL
  {
    if b == [] then -1 else if b[|b| - 1] == NL then |b| - 1 else
    var front := b[..|b| - 1];
    assert forall k :: 0 <= k < |front| ==> front[k] == b[k];
    LastBreak(front)
  }

  predicate BreakIn(file: Bytes, from: nat, to: nat) { exists i :: from <= i < to && i < |file| && file[i] == NL }

  function Window(file: Bytes, offset: nat, limit: nat): (w: Bytes)
    ensures |w| <= limit
  {
    if offset >= |file| then [] else file[offset..Min(offset + limit, |file|)]
  }

  /** What one read returns: the lines, and where the next read starts. */
  method ReadLines(file: Bytes, offset: nat, limit: nat, trim: Bytes -> Bytes) returns (lines: seq<Bytes>, next: nat)
    ensures next == NextOffset(file, offset, limit)
    ensures lines == Kept(Lines(Window(file, offset, limit)[..next - offset]), trim)
  {
    hide Lines, Kept, Split, Window;
    var buf := Window(file, offset, limit);
    var end := LastBreak(buf);
    if end < 0 {
      NoLines(buf, trim);
      return [], offset;
    }
    SplitIsLines(buf[..end]);
    assert buf[..end + 1] == buf[..end] + [NL];
    var ls := Split(buf[..end]);
    lines := KeepLines(ls, trim);
    next := offset + end + 1;
  }

  lemma NoLines(b: Bytes, trim: Bytes -> Bytes)
    ensures Kept(Lines(b[..0]), trim) == []
  {}

  method KeepLines(ls: seq<Bytes>, trim: Bytes -> Bytes) returns (lines: seq<Bytes>)
    ensures lines == Kept(ls, trim)
  {
    lines := [];
    for k := 0 to |ls|
      invariant lines == Kept(ls[..k], trim)
    {
      assert ls[..k + 1][..k] == ls[..k];
      var s := trim(ls[k]);
      if s != [] { lines := lines + [s]; }
    }
    assert ls[..|ls|] == ls;
  }

  function NextOffset(file: Bytes, offset: nat, limit: nat): (next: nat)
    ensures offset <= next <= offset + |Window(file, offset, limit)|
  {
    offset + LastBreak(Window(file, offset, limit)) + 1
  }

  /** A read advances exactly when a line break is within its limit: a line longer than the limit stops it for good. */
  lemma Advances(file: Bytes, offset: nat, limit: nat)
    ensures NextOffset(file, offset, limit) > offset <==> BreakIn(file, offset, offset + limit)
  {
    var w := Window(file, offset, limit);
    var end := LastBreak(w);
    assert forall k :: 0 <= k < |w| ==> w[k] == file[offset + k];
    if end >= 0 {
      assert file[offset + end] == NL;
    } else {
      forall i | offset <= i < offset + limit && i < |file| ensures file[i] != NL { assert w[i - offset] == file[i]; }
    }
  }

  // ---- Whole runs of appends and reads ----

  datatype Step = Append(b: Bytes) | Read(limit: nat)
  datatype State = State(file: Bytes, offset: nat, delivered: seq<Bytes>)

  function Next(s: State, step: Step, trim: Bytes -> Bytes): State {
    match step
    case Append(b) => s.(file := s.file + b)
    case Read(limit) =>
      var next := NextOffset(s.file, s.offset, limit);
      State(s.file, next, s.delivered + Kept(Lines(Window(s.file, s.offset, limit)[..next - s.offset]), trim))
  }

  function After(s: State, steps: seq<Step>, trim: Bytes -> Bytes): State {
    if steps == [] then s else Next(After(s, steps[..|steps| - 1], trim), steps[|steps| - 1], trim)
  }

  /** The reads so far delivered each complete line before the offset, once and in order, and the offset is at a line's start. */
  predicate Delivered(s: State, trim: Bytes -> Bytes) {
    s.offset <= |s.file| && Whole(s.file[..s.offset]) && s.delivered == Kept(Lines(s.file[..s.offset]), trim)
  }

  lemma NextDelivered(s: State, step: Step, trim: Bytes -> Bytes)
    requires Delivered(s, trim)
    ensures Delivered(Next(s, step, trim), trim)
  {
    match step
    case Append(b) =>
      assert (s.file + b)[..s.offset] == s.file[..s.offset];
    case Read(limit) => ReadDelivered(s, limit, trim);
  }

  lemma ReadDelivered(s: State, limit: nat, trim: Bytes -> Bytes)
    requires Delivered(s, trim)
    ensures Delivered(Next(s, Read(limit), trim), trim)
  {
    hide Lines, Kept;
    var next := NextOffset(s.file, s.offset, limit);
    var seen := Window(s.file, s.offset, limit)[..next - s.offset];
    assert s.file[..next] == s.file[..s.offset] + seen;
    LinesConcat(s.file[..s.offset], seen);
    KeptConcat(Lines(s.file[..s.offset]), Lines(seen), trim);
  }

  /** However the writer's appends, torn lines included, and the reads interleave. */
  lemma {:induction false} ExactlyOnce(steps: seq<Step>, trim: Bytes -> Bytes)
    ensures Delivered(After(State([], 0, []), steps, trim), trim)
  {
    hide Next;
    if steps == [] {
      assert Lines([]) == [];
    } else {
      ExactlyOnce(steps[..|steps| - 1], trim);
      NextDelivered(After(State([], 0, []), steps[..|steps| - 1], trim), steps[|steps| - 1], trim);
    }
  }

  /** From an offset on, no stretch of `limit` bytes is without a line break, as far as the last break. */
  predicate ShortLines(file: Bytes, from: nat, limit: nat) { forall i :: from <= i <= |file| ==> !LongAt(file, i, limit) }

  predicate LongAt(file: Bytes, i: nat, limit: nat) {
    i + limit <= |file| && BreakIn(file, i, |file|) && !BreakIn(file, i, i + limit)
  }

  /** When no line exceeds the limit, reading until a read does not advance delivers every complete line. */
  method CatchUp(file: Bytes, offset: nat, limit: nat, trim: Bytes -> Bytes) returns (lines: seq<Bytes>, next: nat)
    requires offset <= |file| && Whole(file[..offset]) && ShortLines(file, offset, limit)
    ensures offset <= next <= |file| && !BreakIn(file, next, |file|)
    ensures lines == Kept(Lines(file[offset..]), trim)
  {
    hide Lines, Kept, ShortLines;
    lines, next := [], offset;
    ghost var s := State(file, offset, Kept(Lines(file[..offset]), trim));
    assert file[offset..offset] == [];
    LinesOfNone();
    while true
      invariant offset <= next <= |file| && Whole(file[offset..next])
      invariant lines == Kept(Lines(file[offset..next]), trim)
      decreases |file| - next
    {
      var more, at := ReadLines(file, next, limit, trim);
      if at == next { break; }
      Extends(file, offset, next, at, limit, trim);
      lines, next := lines + more, at;
    }
    Stopped(file, offset, next, limit);
    Rest(file, offset, next, trim);
  }

  lemma LinesOfNone()
    ensures Lines([]) == [] && forall trim: Bytes -> Bytes :: Kept([], trim) == []
  {}

  lemma Extends(file: Bytes, offset: nat, next: nat, at: nat, limit: nat, trim: Bytes -> Bytes)
    requires offset <= next <= |file| && Whole(file[offset..next]) && at == NextOffset(file, next, limit) && at > next
    ensures at <= |file| && Whole(file[offset..at])
    ensures Kept(Lines(file[offset..at]), trim)
         == Kept(Lines(file[offset..next]), trim) + Kept(Lines(Window(file, next, limit)[..at - next]), trim)
  {
    hide Lines, Kept, Window, NextOffset, Whole;
    SeenEnds(file, next, limit);
    WholeTo(file, offset, at);
    LinesJoin(file, offset, next, at, trim);
  }

  lemma WholeTo(file: Bytes, from: nat, to: nat)
    requires from < to <= |file| && file[to - 1] == NL
    ensures Whole(file[from..to])
  {}

  lemma LinesJoin(file: Bytes, a: nat, b: nat, c: nat, trim: Bytes -> Bytes)
    requires a <= b <= c <= |file| && Whole(file[a..b])
    ensures Kept(Lines(file[a..c]), trim) == Kept(Lines(file[a..b]), trim) + Kept(Lines(file[b..c]), trim)
  {
    hide Lines, Kept, Whole;
    assert file[a..c] == file[a..b] + file[b..c];
    LinesConcat(file[a..b], file[b..c]);
    KeptConcat(Lines(file[a..b]), Lines(file[b..c]), trim);
  }

  /** What an advancing read saw is up to a line break. */
  lemma SeenEnds(file: Bytes, offset: nat, limit: nat)
    requires NextOffset(file, offset, limit) > offset
    ensures var at := NextOffset(file, offset, limit);
            at <= |file| && file[at - 1] == NL && Window(file, offset, limit)[..at - offset] == file[offset..at]
  {
    hide LastBreak;
    var w, at := Window(file, offset, limit), NextOffset(file, offset, limit);
    assert offset < |file| && w == file[offset..Min(offset + limit, |file|)];
    assert w[at - offset - 1] == file[at - 1];
    assert w[..at - offset] == file[offset..at];
  }

  lemma Stopped(file: Bytes, offset: nat, next: nat, limit: nat)
    requires offset <= next <= |file| && ShortLines(file, offset, limit) && NextOffset(file, next, limit) == next
    ensures !BreakIn(file, next, |file|)
  {
    assert !LongAt(file, next, limit);
    Advances(file, next, limit);
    if next + limit > |file| { PastTheEnd(file, next, next + limit); }
  }

  lemma PastTheEnd(file: Bytes, from: nat, to: nat)
    requires to >= |file|
    ensures BreakIn(file, from, |file|) ==> BreakIn(file, from, to)
  {}

  /** A line longer than the limit stops the reader for good, whatever is appended. */
  lemma Stuck(file: Bytes, offset: nat, limit: nat, more: Bytes)
    requires offset + limit <= |file| && !BreakIn(file, offset, offset + limit)
    ensures NextOffset(file + more, offset, limit) == offset
  {
    Advances(file + more, offset, limit);
    assert forall i :: 0 <= i < |file| ==> (file + more)[i] == file[i];
  }

  lemma Rest(file: Bytes, offset: nat, next: nat, trim: Bytes -> Bytes)
    requires offset <= next <= |file| && Whole(file[offset..next]) && !BreakIn(file, next, |file|)
    ensures Lines(file[offset..]) == Lines(file[offset..next])
  {
    var tail := file[next..];
    assert file[offset..] == file[offset..next] + tail;
    LinesConcat(file[offset..next], tail);
    assert forall k :: 0 <= k < |tail| ==> tail[k] == file[next + k];
    assert Break(tail) == |tail|;
    assert Lines(tail) == [];
  }

  // ---- Nothing is left behind ----

  function Reads(limit: nat, n: nat): seq<Step> { seq(n, _ => Read(limit)) }

  lemma OneMoreRead(s: State, limit: nat, n: nat, trim: Bytes -> Bytes)
    ensures After(s, Reads(limit, n + 1), trim) == Next(After(s, Reads(limit, n), trim), Read(limit), trim)
  {
    assert Reads(limit, n + 1)[..n] == Reads(limit, n);
  }

  /** Reads keep what ExactlyOnce promises, and each one advances until one does not; from there none does. */
  lemma {:induction false} ReadsGo(s: State, limit: nat, n: nat, trim: Bytes -> Bytes)
    requires Delivered(s, trim)
    ensures var e := After(s, Reads(limit, n), trim);
            Delivered(e, trim) && e.file == s.file && e.offset >= s.offset
            && (e.offset >= s.offset + n || NextOffset(e.file, e.offset, limit) == e.offset)
  {
    hide Delivered, Lines, Kept, Window;
    if n > 0 {
      ReadsGo(s, limit, n - 1, trim);
      OneMoreRead(s, limit, n - 1, trim);
      NextDelivered(After(s, Reads(limit, n - 1), trim), Read(limit), trim);
    }
  }

  lemma StopsBefore(file: Bytes, offset: nat, limit: nat, i: nat)
    requires offset <= i && LongAt(file, i, limit)
    ensures NextOffset(file, offset, limit) <= i
  {
    hide LastBreak, Window;
    if NextOffset(file, offset, limit) > i {
      SeenEnds(file, offset, limit);
    }
  }

  /** Reads never pass a line longer than their limit. */
  lemma {:induction false} NeverPasses(s: State, limit: nat, n: nat, i: nat, trim: Bytes -> Bytes)
    requires Delivered(s, trim) && s.offset <= i && LongAt(s.file, i, limit)
    ensures After(s, Reads(limit, n), trim).offset <= i
  {
    hide Delivered, NextOffset, LongAt, Lines, Kept, Window;
    if n == 0 {
      assert Reads(limit, 0) == [];
    } else {
      var e := After(s, Reads(limit, n - 1), trim);
      NeverPasses(s, limit, n - 1, i, trim);
      ReadsGo(s, limit, n - 1, trim);
      OneMoreRead(s, limit, n - 1, trim);
      StopsBefore(e.file, e.offset, limit, i);
    }
  }

  /** After any run, read the file, now still, once for each byte it still holds, or more often. Then no complete line
      is left unread if and only if none from the run's offset on is longer than the limit; and everything delivered,
      by the run and by these reads, is the file's complete lines, each once and in order. */
  lemma DeliversAll(steps: seq<Step>, limit: nat, n: nat, trim: Bytes -> Bytes)
    requires var s := After(State([], 0, []), steps, trim); s.offset + n >= |s.file|
    ensures var s := After(State([], 0, []), steps, trim);
            var e := After(s, Reads(limit, n), trim);
            e.file == s.file
            && (!BreakIn(s.file, e.offset, |s.file|) <==> ShortLines(s.file, s.offset, limit))
            && (ShortLines(s.file, s.offset, limit) ==> e.delivered == Kept(Lines(s.file), trim))
  {
    hide Lines, Kept, After, Reads, LongAt;
    var s := After(State([], 0, []), steps, trim);
    var e := After(s, Reads(limit, n), trim);
    ExactlyOnce(steps, trim);
    ReadsGo(s, limit, n, trim);
    if ShortLines(s.file, s.offset, limit) {
      if NextOffset(e.file, e.offset, limit) == e.offset { Stopped(e.file, s.offset, e.offset, limit); }
      assert e.file[0..] == e.file && e.file[0..e.offset] == e.file[..e.offset];
      Rest(e.file, 0, e.offset, trim);
    } else {
      var i :| s.offset <= i <= |s.file| && LongAt(s.file, i, limit);
      NeverPasses(s, limit, n, i, trim);
      BreakBefore(s.file, e.offset, i, limit);
    }
  }

  lemma BreakBefore(file: Bytes, from: nat, i: nat, limit: nat)
    requires from <= i && LongAt(file, i, limit)
    ensures BreakIn(file, from, |file|)
  {}

  // ---- Reading a dataset in pages (aiReadLines) ----

  const MAX_LINE := 0x100_0000

  /** Where the line that starts at pos ends: past its break, or at the end of the data. */
  function LineEnd(data: Bytes, pos: nat): (e: nat)
    requires pos <= |data|
    ensures pos <= e <= |data| && (pos < |data| ==> pos < e)
    ensures e < |data| ==> e > pos && data[e - 1] == NL
    decreases |data| - pos
  {
    if pos == |data| then pos else if data[pos] == NL then pos + 1 else LineEnd(data, pos + 1)
  }

  function LineAt(data: Bytes, pos: nat): Bytes
    requires pos <= |data|
  {
    data[pos..LineEnd(data, pos)]
  }

  /** strings.TrimRight(line, "\r\n"). */
  function TrimRight(b: Bytes): Bytes {
    if b != [] && (b[|b| - 1] == NL || b[|b| - 1] == CR) then TrimRight(b[..|b| - 1]) else b
  }

  /** A line ends at its first break. */
  lemma {:induction false} LineEndIs(data: Bytes, pos: nat)
    requires pos <= |data|
    ensures forall k :: pos <= k < LineEnd(data, pos) - 1 ==> data[k] != NL
    ensures LineEnd(data, pos) < |data| || (pos < |data| && data[|data| - 1] == NL) ==> data[LineEnd(data, pos) - 1] == NL
    decreases |data| - pos
  {
    if pos < |data| && data[pos] != NL { LineEndIs(data, pos + 1); }
  }

  /** TrimRight takes off the line endings behind, all of them and nothing else. */
  lemma {:induction false} TrimRightIs(b: Bytes)
    ensures var t := TrimRight(b);
            t <= b && (forall k :: |t| <= k < |b| ==> b[k] == NL || b[k] == CR)
            && (t != [] ==> t[|t| - 1] != NL && t[|t| - 1] != CR)
    decreases |b|
  {
    if b != [] && (b[|b| - 1] == NL || b[|b| - 1] == CR) { TrimRightIs(b[..|b| - 1]); }
  }

  /** bufio's ReadSlice through a buffer of `size` bytes: n bytes up to the line's end, or a full buffer before it. */
  method ReadSlice(data: Bytes, pos: nat, size: nat) returns (n: nat, full: bool)
    requires pos <= |data| && size > 0
    ensures pos + n <= LineEnd(data, pos) && (full ==> n == size && LineEnd(data, pos + n) == LineEnd(data, pos))
    ensures !full ==> pos + n == LineEnd(data, pos)
  {
    n := 0;
    while n < size && pos + n < |data|
      invariant 0 <= n <= size && pos + n <= |data| && LineEnd(data, pos + n) == LineEnd(data, pos)
    {
      if data[pos + n] == NL { return n + 1, false; }
      n := n + 1;
    }
    full := n == size;
  }

  datatype Result<T> = Ok(value: T) | TooLong

  /** aiReadLine: chunks are gathered until the line ends, unless it grows past the limit first. The buffer's size
      never shows. */
  method ReadLine(data: Bytes, pos: nat, size: nat) returns (r: Result<Bytes>)
    requires pos <= |data| && size > 0
    ensures var line := LineAt(data, pos); r == if |line| > MAX_LINE then TooLong else Ok(line)
  {
    hide LineEnd;
    var buf: Bytes := [];
    while true
      invariant pos + |buf| <= |data| && |buf| <= MAX_LINE && buf == data[pos..pos + |buf|]
      invariant LineEnd(data, pos + |buf|) == LineEnd(data, pos)
      decreases |data| - |buf|
    {
      var n, full := ReadSlice(data, pos + |buf|, size);
      Joined(data, pos, |buf|, n);
      buf := buf + data[pos + |buf|..pos + |buf| + n];
      if |buf| > MAX_LINE { return TooLong; }
      if !full { return Ok(buf); }
    }
  }

  lemma Joined(data: Bytes, pos: nat, a: nat, b: nat)
    requires pos + a + b <= |data|
    ensures data[pos..pos + a] + data[pos + a..pos + a + b] == data[pos..pos + a + b]
  {}

  /** Every line from pos on, without its ending. */
  function AllLines(data: Bytes, pos: nat): seq<Bytes>
    requires pos <= |data|
    decreases |data| - pos
  {
    if pos == |data| then [] else [TrimRight(LineAt(data, pos))] + AllLines(data, LineEnd(data, pos))
  }

  /** Where n lines from pos on end, or the data does. */
  function SkipLines(data: Bytes, pos: nat, n: nat): (e: nat)
    requires pos <= |data|
    ensures pos <= e <= |data|
    decreases n
  {
    if n == 0 || pos == |data| then pos else SkipLines(data, LineEnd(data, pos), n - 1)
  }

  /** None of the n lines from pos on is too long. */
  predicate Readable(data: Bytes, pos: nat, n: nat)
    requires pos <= |data|
    decreases n
  {
    n == 0 || pos == |data| || (|LineAt(data, pos)| <= MAX_LINE && Readable(data, LineEnd(data, pos), n - 1))
  }

  /** No line from pos on is too long. */
  predicate AllReadable(data: Bytes, pos: nat)
    requires pos <= |data|
    decreases |data| - pos
  {
    pos == |data| || (|LineAt(data, pos)| <= MAX_LINE && AllReadable(data, LineEnd(data, pos)))
  }

  lemma {:induction false} PageReadable(data: Bytes, pos: nat, n: nat)
    requires pos <= |data|
    ensures AllReadable(data, pos) <==> Readable(data, pos, n) && AllReadable(data, SkipLines(data, pos, n))
    decreases n
  {
    hide LineAt;
    if n > 0 && pos < |data| { PageReadable(data, LineEnd(data, pos), n - 1); }
  }

  datatype Page = Page(lines: seq<Bytes>, next: nat, eof: bool)

  function AtLeastOne(max: int): (n: nat)
    ensures n >= 1 && (max >= 1 ==> n == max) && (max < 1 ==> n == 1)
  {
    if max < 1 then 1 else max
  }

  /** aiReadLines, on a file of which offset is a place: a page holds the next `max` lines, whatever the buffer. */
  method ReadPage(data: Bytes, offset: nat, max: int, size: nat) returns (r: Result<Page>)
    requires offset <= |data| && size > 0
    ensures r.Ok? <==> Readable(data, offset, AtLeastOne(max))
    ensures r.Ok? ==> var p := r.value;
      p.next == SkipLines(data, offset, AtLeastOne(max)) && AllLines(data, offset) == p.lines + AllLines(data, p.next)
      && |p.lines| <= AtLeastOne(max) && (p.eof <==> p.next == |data|) && (p.eof || |p.lines| == AtLeastOne(max))
  {
    hide TrimRight, LineEnd, AllLines, SkipLines, Readable, LineAt;
    var n := AtLeastOne(max);
    var lines: seq<Bytes> := [];
    var pos := offset;
    while |lines| < n
      invariant 0 <= pos <= |data| && |lines| <= n
      invariant AllLines(data, offset) == lines + AllLines(data, pos)
      invariant SkipLines(data, offset, n) == SkipLines(data, pos, n - |lines|)
      invariant Readable(data, offset, n) == Readable(data, pos, n - |lines|)
      decreases n - |lines|
    {
      var line := ReadLine(data, pos, size);
      OneLine(data, pos, n - |lines|);
      if line.TooLong? { return TooLong; }
      if line.value == [] {
        NoneAfter(data, n - |lines|);
        return Ok(Page(lines, pos, true));
      }
      Associates(lines, [TrimRight(line.value)], AllLines(data, pos + |line.value|));
      pos := pos + |line.value|;
      lines := lines + [TrimRight(line.value)];
      if pos == |data| && line.value[|line.value| - 1] != NL {
        NoneAfter(data, n - |lines|);
        return Ok(Page(lines, pos, true));
      }
    }
    NoneLeft(data, pos);
    r := Ok(Page(lines, pos, pos == |data|));
  }

  /** One line off the front of what is to be read. */
  lemma OneLine(data: Bytes, pos: nat, n: nat)
    requires pos <= |data| && n > 0
    ensures var line := LineAt(data, pos); var next := pos + |line|;
      next <= |data| && (line == [] <==> pos == |data|)
      && (Readable(data, pos, n) <==> |line| <= MAX_LINE && Readable(data, next, n - 1))
      && SkipLines(data, pos, n) == SkipLines(data, next, n - 1)
      && (line != [] ==> AllLines(data, pos) == [TrimRight(line)] + AllLines(data, next))
  {
    LineLength(data, pos);
    if pos == |data| { NoneAfter(data, n - 1); }
  }

  lemma NoneAfter(data: Bytes, n: nat)
    ensures Readable(data, |data|, n) && SkipLines(data, |data|, n) == |data|
  {}

  lemma NoneLeft(data: Bytes, pos: nat)
    requires pos <= |data|
    ensures Readable(data, pos, 0) && SkipLines(data, pos, 0) == pos
  {}

  datatype PageResult = NegativeOffset | LineTooLong | Got(page: Page)

  /** The same at any offset: a negative one is refused, and one past the end reads as the end of the file. */
  method ReadLinesAt(data: Bytes, offset: int, max: int, size: nat) returns (r: PageResult)
    requires size > 0
    ensures r.NegativeOffset? <==> offset < 0
    ensures offset > |data| ==> r == Got(Page([], offset, true))
    ensures 0 <= offset <= |data| ==> (r.LineTooLong? <==> !Readable(data, offset, AtLeastOne(max)))
    ensures 0 <= offset <= |data| && r.Got? ==>
      r.page.next == SkipLines(data, offset, AtLeastOne(max)) && (r.page.eof <==> r.page.next == |data|)
      && AllLines(data, offset) == r.page.lines + AllLines(data, r.page.next)
  {
    if offset < 0 { return NegativeOffset; }
    if offset > |data| { return Got(Page([], offset, true)); }
    var page := ReadPage(data, offset, max, size);
    r := if page.TooLong? then LineTooLong else Got(page.value);
  }

  lemma LineLength(data: Bytes, pos: nat)
    requires pos <= |data|
    ensures pos + |LineAt(data, pos)| == LineEnd(data, pos)
  {}

  /** Pages of any sizes, read one after another with any buffers, are the file's lines: every one, once, in order. They
      fail exactly when some line is too long. */
  method ReadAllPages(data: Bytes, max: int -> int, size: nat) returns (r: Result<seq<Bytes>>)
    requires size > 0
    ensures r == if AllReadable(data, 0) then Ok(AllLines(data, 0)) else TooLong
  {
    hide AllLines, SkipLines, LineAt, Readable, AllReadable;
    var lines: seq<Bytes> := [];
    var pos, k := 0, 0;
    while true
      invariant 0 <= pos <= |data| && AllLines(data, 0) == lines + AllLines(data, pos)
      invariant AllReadable(data, 0) == AllReadable(data, pos)
      decreases |data| - pos
    {
      var page := ReadPage(data, pos, max(k), size);
      PageReadable(data, pos, AtLeastOne(max(k)));
      if page.TooLong? { return TooLong; }
      Associates(lines, page.value.lines, AllLines(data, page.value.next));
      lines := lines + page.value.lines;
      if page.value.eof {
        NoMore(data);
        assert lines + [] == lines;
        return Ok(lines);
      }
      Progress(data, pos, AtLeastOne(max(k)));
      pos, k := page.value.next, k + 1;
    }
  }

  lemma NoMore(data: Bytes)
    ensures AllLines(data, |data|) == [] && AllReadable(data, |data|)
  {}

  lemma Progress(data: Bytes, pos: nat, n: nat)
    requires pos <= |data| && n > 0 && SkipLines(data, pos, n) < |data|
    ensures SkipLines(data, pos, n) > pos
  {}
}
