/** The seen-key set: memory up to a limit and sorted run files, answering as one map from digest to first row. */
module Dedupe {
  import opened Basics

  /** A 32-byte digest, read as a big-endian number: bytes.Compare orders digests as these numbers. */
  type Digest = nat
  type Row = nat
  datatype Record = Record(digest: Digest, row: Row)
  type Run = seq<Record>
  type Rows = map<Digest, Row>

  const MAX_RUNS := 8

  // ---- The reference: one map ----

  /** The answer for a key seen before; never 0, which means new. */
  function SeenRow(row: Row): Row { if row == 0 then 1 else row }

  function RowAt(start: nat, i: nat): Row { if start > 0 then start + i else 0 }

  /** What recording ds from row start leaves seen, and what it answers. */
  function Recorded(seen: Rows, start: nat, ds: seq<Digest>): Rows {
    if ds == [] then seen else
    var before := Recorded(seen, start, ds[..|ds| - 1]);
    var d := ds[|ds| - 1];
    if d in before then before else before[d := RowAt(start, |ds| - 1)]
  }

  lemma RecordedNone(seen: Rows, start: nat, ds: seq<Digest>)
    ensures Recorded(seen, start, ds[..0]) == seen
  {}

  lemma RecordedNext(seen: Rows, start: nat, ds: seq<Digest>, i: nat)
    requires i < |ds|
    ensures var before := Recorded(seen, start, ds[..i]);
            Recorded(seen, start, ds[..i + 1]) == if ds[i] in before then before else before[ds[i] := RowAt(start, i)]
  {
    assert ds[..i + 1][..i] == ds[..i];
  }

  function AnswerAt(seen: Rows, start: nat, ds: seq<Digest>, i: nat): Row
    requires i < |ds|
  {
    var before := Recorded(seen, start, ds[..i]);
    if ds[i] in before then SeenRow(before[ds[i]]) else 0
  }

  function Answers(seen: Rows, start: nat, ds: seq<Digest>): (out: seq<Row>)
    ensures |out| == |ds|
    ensures forall i :: 0 <= i < |ds| ==> out[i] == AnswerAt(seen, start, ds, i)
  {
    seq(|ds|, i requires 0 <= i < |ds| => AnswerAt(seen, start, ds, i))
  }

  /** The first place of d in ds. */
  function FirstPlace(ds: seq<Digest>, d: Digest): (i: nat)
    requires d in ds
    ensures i < |ds| && ds[i] == d && d !in ds[..i]
  {
    if ds[0] == d then 0 else FirstPlace(ds[1..], d) + 1
  }

  /** What is recorded, without the recursion: the first row of everything, earlier calls first. */
  lemma {:induction false} RecordedIs(seen: Rows, start: nat, ds: seq<Digest>, d: Digest)
    ensures d in Recorded(seen, start, ds) <==> d in seen || d in ds
    ensures d in seen ==> Recorded(seen, start, ds)[d] == seen[d]
    ensures d !in seen && d in ds ==> Recorded(seen, start, ds)[d] == if start > 0 then start + FirstPlace(ds, d) else 0
    decreases |ds|
  {
    if ds != [] {
      var n := |ds| - 1;
      var before := ds[..n];
      assert ds == before + [ds[n]];
      RecordedIs(seen, start, before, d);
      if d !in seen && d in before { FirstPlaceExtends(before, ds[n], d); }
      if d !in seen && d !in before && d in ds { assert FirstPlace(ds, d) == n; }
    }
  }

  lemma {:induction false} FirstPlaceExtends(ds: seq<Digest>, x: Digest, d: Digest)
    requires d in ds
    ensures FirstPlace(ds + [x], d) == FirstPlace(ds, d)
  {
    if ds[0] != d {
      assert (ds + [x])[1..] == ds[1..] + [x];
      FirstPlaceExtends(ds[1..], x, d);
    }
  }

  /** Rows are recorded the same whether keys come in one call or two: with rows, the second call continues the
      count; without rows (start 0), it starts at 0 again. */
  lemma {:induction false} RecordedSplit(seen: Rows, start: nat, a: seq<Digest>, b: seq<Digest>)
    ensures var next := if start > 0 then start + |a| else 0;
            Recorded(seen, start, a + b) == Recorded(Recorded(seen, start, a), next, b)
    decreases |b|
  {
    var next := if start > 0 then start + |a| else 0;
    if b == [] {
      assert a + b == a;
    } else {
      var n := |b| - 1;
      assert (a + b)[..|a + b| - 1] == a + b[..n];
      RecordedSplit(seen, start, a, b[..n]);
    }
  }

  lemma AnswersSplit(seen: Rows, start: nat, a: seq<Digest>, b: seq<Digest>)
    ensures var next := if start > 0 then start + |a| else 0;
            Answers(seen, start, a + b) == Answers(seen, start, a) + Answers(Recorded(seen, start, a), next, b)
  {
    var next := if start > 0 then start + |a| else 0;
    var whole, parts := Answers(seen, start, a + b), Answers(seen, start, a) + Answers(Recorded(seen, start, a), next, b);
    forall i | 0 <= i < |a| + |b| ensures whole[i] == parts[i] {
      if i < |a| {
        assert (a + b)[..i] == a[..i];
      } else {
        assert (a + b)[..i] == a + b[..i - |a|];
        RecordedSplit(seen, start, a, b[..i - |a|]);
      }
    }
  }

  /** The answer for key i: the row of its first occurrence, in an earlier call or earlier in this one, and 0 when this is
      the first. An occurrence that was recorded without a row answers 1. */
  ghost predicate FirstSeen(seen: Rows, start: nat, ds: seq<Digest>, i: nat, answer: Row)
    requires i < |ds|
  {
    if ds[i] in seen then answer == if seen[ds[i]] > 0 then seen[ds[i]] else 1
    else if ds[i] in ds[..i] then answer == if start > 0 then start + FirstPlace(ds, ds[i]) else 1
    else answer == 0
  }

  lemma AnswersAre(seen: Rows, start: nat, ds: seq<Digest>)
    ensures forall i :: 0 <= i < |ds| ==> FirstSeen(seen, start, ds, i, Answers(seen, start, ds)[i])
  {
    forall i | 0 <= i < |ds| ensures FirstSeen(seen, start, ds, i, Answers(seen, start, ds)[i]) {
      RecordedIs(seen, start, ds[..i], ds[i]);
      if ds[i] in ds[..i] { FirstPlaceOfFront(ds, i); }
    }
  }

  lemma FirstPlaceOfFront(ds: seq<Digest>, i: nat)
    requires i < |ds| && ds[i] in ds[..i]
    ensures FirstPlace(ds, ds[i]) == FirstPlace(ds[..i], ds[i])
  {
    var q := FirstPlace(ds[..i], ds[i]);
    assert ds[..i][..q] == ds[..q];
    FirstPlaceUnique(ds, ds[i], q);
  }

  lemma {:induction false} FirstPlaceUnique(ds: seq<Digest>, d: Digest, q: nat)
    requires q < |ds| && ds[q] == d && d !in ds[..q]
    ensures FirstPlace(ds, d) == q
  {
    if q > 0 {
      assert ds[0] in ds[..q];
      assert ds[1..][..q - 1] == ds[..q][1..];
      FirstPlaceUnique(ds[1..], d, q - 1);
    }
  }

  /** `add` answers true exactly for a key not seen before, in an earlier call or earlier in this one. */
  lemma NewIsUnseen(seen: Rows, ds: seq<Digest>, i: nat)
    requires i < |ds|
    ensures Answers(seen, 0, ds)[i] == 0 <==> ds[i] !in seen && ds[i] !in ds[..i]
  {
    RecordedIs(seen, 0, ds[..i], ds[i]);
  }

  // ---- Runs ----

  ghost predicate Sorted(run: Run) {
    forall i, j :: 0 <= i < j < |run| ==> run[i].digest < run[j].digest
  }

  ghost predicate In(d: Digest, run: Run) { exists i :: 0 <= i < |run| && run[i].digest == d }

  /** The rows a run holds. */
  ghost function RowsOf(run: Run): Rows {
    if run == [] then map[] else RowsOf(run[..|run| - 1])[run[|run| - 1].digest := run[|run| - 1].row]
  }

  lemma InAt(run: Run, i: nat)
    requires i < |run|
    ensures In(run[i].digest, run)
  {}

  lemma {:induction false} RowsOfOnly(run: Run, d: Digest)
    ensures d in RowsOf(run) <==> In(d, run)
  {
    if run != [] {
      var n := |run| - 1;
      RowsOfOnly(run[..n], d);
      if In(d, run[..n]) {
        var i :| 0 <= i < n && run[..n][i].digest == d;
        assert run[i].digest == d;
      } else if In(d, run) {
        var i: nat :| i < |run| && run[i].digest == d;
        if i < n { InAt(run[..n], i); }
      }
      assert run[n].digest == d ==> In(d, run);
    }
  }

  lemma {:induction false} RowsOfHas(run: Run, i: nat)
    requires Sorted(run) && i < |run|
    ensures run[i].digest in RowsOf(run) && RowsOf(run)[run[i].digest] == run[i].row
  {
    var n := |run| - 1;
    if i < n { RowsOfHas(run[..n], i); }
  }

  lemma {:induction false} RowsOfSize(run: Run)
    requires Sorted(run)
    ensures |RowsOf(run)| == |run|
  {
    if run != [] {
      var n := |run| - 1;
      RowsOfSize(run[..n]);
      RowsOfOnly(run[..n], run[n].digest);
    }
  }

  /** Binary search, as sort.Search runs it: the first record not below d. */
  method Search(run: Run, d: Digest) returns (r: Option<Row>)
    requires Sorted(run)
    ensures r == if d in RowsOf(run) then Some(RowsOf(run)[d]) else None
  {
    var lo, hi := 0, |run|;
    while lo < hi
      invariant 0 <= lo <= hi <= |run|
      invariant forall i :: 0 <= i < lo ==> run[i].digest < d
      invariant forall i :: hi <= i < |run| ==> run[i].digest >= d
    {
      var mid := (lo + hi) / 2;
      if run[mid].digest >= d { hi := mid; } else { lo := mid + 1; }
    }
    if lo < |run| && run[lo].digest == d {
      RowsOfHas(run, lo);
      r := Some(run[lo].row);
    } else {
      RowsOfOnly(run, d);
      r := None;
    }
  }

  // ---- The merge ----

  ghost predicate Apart(a: Run, b: Run) { RowsOf(a).Keys !! RowsOf(b).Keys }

  ghost predicate AllSorted(rs: seq<Run>) { forall k :: 0 <= k < |rs| ==> Sorted(rs[k]) }

  ghost predicate AllApart(rs: seq<Run>) { forall k, m :: 0 <= k < |rs| && 0 <= m < |rs| && k != m ==> Apart(rs[k], rs[m]) }

  ghost function Union(rs: seq<Run>): Rows {
    if rs == [] then map[] else Union(rs[..|rs| - 1]) + RowsOf(rs[|rs| - 1])
  }

  ghost function Sizes(rs: seq<Run>): nat {
    if rs == [] then 0 else Sizes(rs[..|rs| - 1]) + |rs[|rs| - 1]|
  }

  /** A digest of one run only. */
  lemma {:induction false} UnionAt(rs: seq<Run>, k: nat, d: Digest)
    requires k < |rs| && d in RowsOf(rs[k])
    requires forall m :: k < m < |rs| ==> d !in RowsOf(rs[m])
    ensures d in Union(rs) && Union(rs)[d] == RowsOf(rs[k])[d]
  {
    var n := |rs| - 1;
    if k < n {
      assert d !in RowsOf(rs[n]);
      UnionAt(rs[..n], k, d);
    }
  }

  lemma PlusSet(u: Rows, mem: Rows, d: Digest, row: Row)
    ensures (u + mem)[d := row] == u + mem[d := row]
  {}

  lemma PlusUnder(u: Rows, mem: Rows, d: Digest, row: Row)
    requires d !in mem
    ensures (u + mem)[d := row] == u[d := row] + mem
  {}

  lemma RowsPush(run: Run, r: Record)
    ensures RowsOf(run + [r]) == RowsOf(run)[r.digest := r.row]
  {
    assert (run + [r])[..|run|] == run;
  }

  lemma UnionStep(rs: seq<Run>)
    requires rs != []
    ensures Union(rs) == Union(rs[..|rs| - 1]) + RowsOf(rs[|rs| - 1])
  {}

  lemma {:induction false} UnionPush(rs: seq<Run>, m: nat, r: Record)
    requires m < |rs| && forall k :: m < k < |rs| ==> r.digest !in RowsOf(rs[k])
    ensures Union(rs[m := rs[m] + [r]]) == Union(rs)[r.digest := r.row]
  {
    hide RowsOf, Union;
    var n := |rs| - 1;
    var rs' := rs[m := rs[m] + [r]];
    UnionStep(rs);
    UnionStep(rs');
    if m < n {
      UnionPush(rs[..n], m, r);
      assert rs'[..n] == rs[..n][m := rs[m] + [r]];
      PlusUnder(Union(rs[..n]), RowsOf(rs[n]), r.digest, r.row);
    } else {
      assert rs'[..n] == rs[..n];
      RowsPush(rs[m], r);
      PlusSet(Union(rs[..n]), RowsOf(rs[m]), r.digest, r.row);
    }
  }

  function Sum(pos: seq<nat>): nat {
    if pos == [] then 0 else Sum(pos[..|pos| - 1]) + pos[|pos| - 1]
  }

  lemma {:induction false} SumStep(pos: seq<nat>, m: nat)
    requires m < |pos|
    ensures Sum(pos[m := pos[m] + 1]) == Sum(pos) + 1
  {
    var n := |pos| - 1;
    if m < n {
      SumStep(pos[..n], m);
      assert pos[m := pos[m] + 1][..n] == pos[..n][m := pos[m] + 1];
    } else {
      assert pos[m := pos[m] + 1][..n] == pos[..n];
    }
  }

  lemma {:induction false} SumEnds(pos: seq<nat>, rs: seq<Run>)
    requires |pos| == |rs| && forall k :: 0 <= k < |rs| ==> pos[k] <= |rs[k]|
    ensures Sum(pos) <= Sizes(rs)
    ensures (forall k :: 0 <= k < |rs| ==> pos[k] == |rs[k]|) ==> Sum(pos) == Sizes(rs)
  {
    if rs != [] { SumEnds(pos[..|pos| - 1], rs[..|rs| - 1]); }
  }

  ghost predicate Within(rs: seq<Run>, pos: seq<nat>) {
    |pos| == |rs| && forall k :: 0 <= k < |rs| ==> pos[k] <= |rs[k]|
  }

  /** What the readers have read. */
  ghost function Read(rs: seq<Run>, pos: seq<nat>): (ps: seq<Run>)
    requires Within(rs, pos)
    ensures |ps| == |rs| && forall k :: 0 <= k < |rs| ==> ps[k] == rs[k][..pos[k]]
  {
    seq(|rs|, k requires 0 <= k < |rs| => rs[k][..pos[k]])
  }

  /** The state of the merge: out is what was read, in order, and below everything left. */
  ghost predicate Merging(rs: seq<Run>, pos: seq<nat>, out: Run) {
    Within(rs, pos) && Sorted(out) && Below(out, rs, pos) && RowsOf(out) == Union(Read(rs, pos)) && |out| == Sum(pos)
  }

  ghost predicate Below(out: Run, rs: seq<Run>, pos: seq<nat>)
    requires Within(rs, pos)
  {
    forall i, k :: 0 <= i < |out| && 0 <= k < |rs| && pos[k] < |rs[k]| ==> out[i].digest < rs[k][pos[k]].digest
  }

  /** m is the reader with the least record, the first such when digests tie. */
  ghost predicate IsLeast(rs: seq<Run>, pos: seq<nat>, m: nat)
    requires |pos| == |rs|
  {
    m < |rs| && pos[m] < |rs[m]|
    && forall k :: 0 <= k < |rs| && pos[k] < |rs[k]| ==> rs[m][pos[m]].digest <= rs[k][pos[k]].digest
  }

  method Least(rs: seq<Run>, pos: seq<nat>) returns (m: Option<nat>)
    requires |pos| == |rs|
    ensures m.None? ==> forall k :: 0 <= k < |rs| ==> pos[k] >= |rs[k]|
    ensures m.Some? ==> IsLeast(rs, pos, m.value)
  {
    m := None;
    for k := 0 to |rs|
      invariant m.None? ==> forall i :: 0 <= i < k ==> pos[i] >= |rs[i]|
      invariant m.Some? ==> m.value < k && pos[m.value] < |rs[m.value]|
      invariant m.Some? ==> forall i :: 0 <= i < k && pos[i] < |rs[i]| ==> rs[m.value][pos[m.value]].digest <= rs[i][pos[i]].digest
    {
      if pos[k] < |rs[k]| && (m.None? || rs[k][pos[k]].digest < rs[m.value][pos[m.value]].digest) {
        m := Some(k);
      }
    }
  }

  /** Taking the least record keeps the state, and the record is new: the skip of a repeated digest never happens. */
  lemma MergeStep(rs: seq<Run>, pos: seq<nat>, out: Run, m: nat)
    requires AllSorted(rs) && AllApart(rs) && Merging(rs, pos, out) && IsLeast(rs, pos, m)
    ensures out == [] || out[|out| - 1].digest != rs[m][pos[m]].digest
    ensures Merging(rs, pos[m := pos[m] + 1], out + [rs[m][pos[m]]])
  {
    hide AllSorted, AllApart, RowsOf, Union, Sum;
    var r := rs[m][pos[m]];
    SumStep(pos, m);
    StepBelow(rs, pos, out, m);
    StepRows(rs, pos, out, m);
  }

  lemma StepBelow(rs: seq<Run>, pos: seq<nat>, out: Run, m: nat)
    requires AllSorted(rs) && AllApart(rs) && Within(rs, pos) && Below(out, rs, pos) && IsLeast(rs, pos, m)
    ensures Within(rs, pos[m := pos[m] + 1]) && Below(out + [rs[m][pos[m]]], rs, pos[m := pos[m] + 1])
  {
    hide RowsOf;
    var pos' := pos[m := pos[m] + 1];
    forall k | 0 <= k < |rs| && pos'[k] < |rs[k]| ensures rs[m][pos[m]].digest < rs[k][pos'[k]].digest {
      if k == m { assert Sorted(rs[m]); } else { LeastBelow(rs, pos, m, k); }
    }
    forall i, k | 0 <= i < |out| && 0 <= k < |rs| && pos'[k] < |rs[k]| ensures out[i].digest < rs[k][pos'[k]].digest {
      assert Sorted(rs[k]);
      assert out[i].digest < rs[k][pos[k]].digest;
    }
  }

  lemma LeastBelow(rs: seq<Run>, pos: seq<nat>, m: nat, k: nat)
    requires AllSorted(rs) && AllApart(rs) && Within(rs, pos) && IsLeast(rs, pos, m)
    requires k < |rs| && k != m && pos[k] < |rs[k]|
    ensures rs[m][pos[m]].digest < rs[k][pos[k]].digest
  {
    hide RowsOf;
    assert Apart(rs[m], rs[k]);
    RowsOfHas(rs[m], pos[m]);
    RowsOfHas(rs[k], pos[k]);
  }

  lemma StepRows(rs: seq<Run>, pos: seq<nat>, out: Run, m: nat)
    requires AllSorted(rs) && AllApart(rs) && Within(rs, pos) && RowsOf(out) == Union(Read(rs, pos)) && IsLeast(rs, pos, m)
    ensures Within(rs, pos[m := pos[m] + 1])
    ensures RowsOf(out + [rs[m][pos[m]]]) == Union(Read(rs, pos[m := pos[m] + 1]))
  {
    hide Union;
    var r, pos' := rs[m][pos[m]], pos[m := pos[m] + 1];
    var ps := Read(rs, pos);
    forall k | m < k < |rs| ensures r.digest !in RowsOf(ps[k]) {
      assert Apart(rs[m], rs[k]);
      RowsOfHas(rs[m], pos[m]);
      PrefixRows(rs[k], pos[k], r.digest);
    }
    UnionPush(ps, m, r);
    assert rs[m][..pos[m] + 1] == ps[m] + [r];
    assert Read(rs, pos') == ps[m := ps[m] + [r]];
    assert (out + [r])[..|out|] == out;
  }

  lemma PrefixRows(run: Run, n: nat, d: Digest)
    requires n <= |run|
    ensures d in RowsOf(run[..n]) ==> d in RowsOf(run)
  {
    RowsOfOnly(run[..n], d);
    RowsOfOnly(run, d);
    if In(d, run[..n]) {
      var i :| 0 <= i < n && run[..n][i].digest == d;
      assert run[i].digest == d;
    }
  }

  lemma {:induction false} UnionNone(rs: seq<Run>)
    requires forall k :: 0 <= k < |rs| ==> rs[k] == []
    ensures Union(rs) == map[]
  {
    if rs != [] { UnionNone(rs[..|rs| - 1]); }
  }

  method MergeRuns(rs: seq<Run>) returns (out: Run)
    requires AllSorted(rs) && AllApart(rs)
    ensures Sorted(out) && RowsOf(out) == Union(rs) && |out| == Sizes(rs) == |Union(rs)|
  {
    hide AllSorted, AllApart, Union, Sum, Sizes, Below, IsLeast, RowsOf;
    var pos := seq(|rs|, _ => 0);
    out := [];
    MergeStart(rs, pos);
    while true
      invariant Merging(rs, pos, out)
      decreases Sizes(rs) - Sum(pos)
    {
      var m := Least(rs, pos);
      if m.None? { break; }
      assert IsLeast(rs, pos, m.value);
      var r := TakeLeast(rs, pos, out, m.value);
      if out == [] || r.digest != out[|out| - 1].digest {
        out := out + [r];
      }
      SumStep(pos, m.value);
      pos := pos[m.value := pos[m.value] + 1];
      SumEnds(pos, rs);
    }
    SumEnds(pos, rs);
    RowsOfSize(out);
    forall k | 0 <= k < |rs| ensures rs[k][..pos[k]] == rs[k] { assert pos[k] == |rs[k]|; }
    assert Read(rs, pos) == rs;
  }

  /** The record at the head of reader m, with what taking it keeps. */
  method TakeLeast(rs: seq<Run>, pos: seq<nat>, ghost out: Run, m: nat) returns (r: Record)
    requires AllSorted(rs) && AllApart(rs) && Merging(rs, pos, out) && IsLeast(rs, pos, m)
    ensures m < |pos| == |rs| && pos[m] < |rs[m]| && r == rs[m][pos[m]]
    ensures out == [] || out[|out| - 1].digest != r.digest
    ensures Merging(rs, pos[m := pos[m] + 1], out + [r])
  {
    MergeStep(rs, pos, out, m);
    r := rs[m][pos[m]];
  }

  lemma MergeStart(rs: seq<Run>, pos: seq<nat>)
    requires |pos| == |rs| && forall k :: 0 <= k < |rs| ==> pos[k] == 0
    ensures Merging(rs, pos, [])
  {
    SumZero(pos);
    UnionNone(Read(rs, pos));
  }

  lemma {:induction false} SumZero(pos: seq<nat>)
    requires forall k :: 0 <= k < |pos| ==> pos[k] == 0
    ensures Sum(pos) == 0
  {
    if pos != [] { SumZero(pos[..|pos| - 1]); }
  }

  // ---- The set ----

  type File = nat

  ghost function Contents(files: map<File, Run>, runs: seq<File>): (rs: seq<Run>)
    requires forall k :: 0 <= k < |runs| ==> runs[k] in files
    ensures |rs| == |runs| && forall k :: 0 <= k < |runs| ==> rs[k] == files[runs[k]]
  {
    seq(|runs|, k requires 0 <= k < |runs| => files[runs[k]])
  }

  /** The run files: all there, in order, and no digest in two of them. */
  ghost predicate Stored(files: map<File, Run>, runs: seq<File>, nextFile: nat)
    ensures Stored(files, runs, nextFile) ==> forall k :: 0 <= k < |runs| ==> runs[k] in files
  {
    (forall k :: 0 <= k < |runs| ==> runs[k] in files) && (forall f <- files :: f < nextFile)
    && AllSorted(Contents(files, runs)) && AllApart(Contents(files, runs))
  }

  ghost function OnDisk(files: map<File, Run>, runs: seq<File>): Rows
    requires forall k :: 0 <= k < |runs| ==> runs[k] in files
  {
    Union(Contents(files, runs))
  }

  /** The digests of s in order, as sort.Slice leaves them. */
  method SortedDigests(s: set<Digest>) returns (ds: seq<Digest>)
    ensures (forall i, j :: 0 <= i < j < |ds| ==> ds[i] < ds[j]) && (forall d :: d in s <==> d in ds) && |ds| == |s|
  {
    ds := [];
    var left := s;
    while left != {}
      invariant left <= s && |ds| + |left| == |s|
      invariant forall i, j :: 0 <= i < j < |ds| ==> ds[i] < ds[j]
      invariant forall d :: d in s <==> d in ds || d in left
      invariant forall i, d :: 0 <= i < |ds| && d in left ==> ds[i] < d
      decreases |left|
    {
      var d := LeastOf(left);
      left := left - {d};
      ds := ds + [d];
    }
  }

  method LeastOf(s: set<Digest>) returns (d: Digest)
    requires s != {}
    ensures d in s && forall e <- s :: d <= e
  {
    d :| d in s;
    var left := s - {d};
    while left != {}
      invariant left <= s && d in s
      invariant forall e <- s :: e in left || d <= e
      decreases |left|
    {
      var e :| e in left;
      if e < d { d := e; }
      left := left - {e};
    }
  }

  class DedupeSet {
    const limit: nat
    var mem: Rows
    var runs: seq<File>
    var files: map<File, Run>
    var count: nat
    var nextFile: nat
    var peak: nat

    /** Every key seen, with its row: memory and every run. */
    ghost function Seen(): Rows
      requires Stored(files, runs, nextFile)
      reads this
    {
      OnDisk(files, runs) + mem
    }

    /** What holds even while a call is underway. */
    ghost predicate Valid()
      reads this
      ensures Valid() ==> Stored(files, runs, nextFile)
    {
      limit >= 1 && Stored(files, runs, nextFile) && OnDisk(files, runs).Keys !! mem.Keys
      && count == |OnDisk(files, runs)| + |mem| && |mem| <= limit && peak <= limit
    }

    /** What also holds between keys: memory is below its limit and there are at most eight runs. */
    ghost predicate Settled()
      reads this
    {
      |mem| < limit && |runs| <= MAX_RUNS
    }

    constructor (limit0: int)
      ensures Valid() && Settled() && Seen() == map[] && limit == if limit0 < 1 then 1 else limit0
    {
      limit := if limit0 < 1 then 1 else limit0;
      mem, runs, files, count, nextFile, peak := map[], [], map[], 0, 0, 0;
    }

    /** inRuns: the runs are searched in turn, and the first that holds d answers. */
    method InRuns(d: Digest) returns (r: Option<Row>)
      requires Valid()
      ensures var u := OnDisk(files, runs); r == if d in u then Some(u[d]) else None
    {
      ghost var rs := Contents(files, runs);
      for k := 0 to |runs|
        invariant forall m :: 0 <= m < k ==> d !in RowsOf(rs[m])
      {
        r := Search(files[runs[k]], d);
        if r.Some? {
          FoundIn(rs, k, d);
          return;
        }
      }
      NotFound(rs, d);
      r := None;
    }

    /** spill: memory becomes a sorted run; more than eight runs are merged into one. */
    method Spill()
      requires Valid() && |runs| <= MAX_RUNS
      modifies this
      ensures Valid() && mem == map[] && |runs| <= MAX_RUNS
      ensures Seen() == old(Seen()) && count == old(count) && peak == old(peak)
      ensures |runs| == if old(|runs|) == MAX_RUNS then 1 else old(|runs|) + 1
    {
      var ds := SortedDigests(mem.Keys);
      var run := WriteRun(mem, ds);
      AddRun(run);
      if |runs| > MAX_RUNS {
        Merge();
      }
    }

    /** The run is on disk: memory starts again, empty. */
    method AddRun(run: Run)
      requires Valid() && Sorted(run) && RowsOf(run) == mem
      modifies this
      ensures Valid() && mem == map[] && |runs| == old(|runs|) + 1
      ensures Seen() == old(Seen()) && count == old(count) && peak == old(peak)
    {
      hide OnDisk, RowsOf, Stored, Sorted;
      StoredAdd(files, runs, nextFile, mem, run);
      UnionSize(OnDisk(files, runs), mem);
      PlusNothing(OnDisk(files, runs) + mem);
      files := files[nextFile := run];
      runs := runs + [nextFile];
      nextFile := nextFile + 1;
      mem := map[];
    }

    /** merge: every run into one, streaming; the old files are removed. */
    method Merge()
      requires Valid() && |mem| == 0
      modifies this
      ensures Valid() && mem == map[] && |runs| == 1
      ensures Seen() == old(Seen()) && count == old(count) && peak == old(peak)
    {
      hide Union, RowsOf, Sorted;
      var rs := seq(|runs|, k requires 0 <= k < |runs| && runs[k] in files reads this => files[runs[k]]);
      assert rs == Contents(files, runs);
      var out := MergeRuns(rs);
      files := map[];
      files := files[nextFile := out];
      runs := [nextFile];
      nextFile := nextFile + 1;
      assert Contents(files, runs) == [out];
      UnionOne(out);
    }

    /** first: each key's answer, and what is seen after, are those of the one map. */
    method First(start: nat, ds: seq<Digest>) returns (out: seq<Row>)
      requires Valid() && Settled()
      modifies this
      ensures Valid() && Settled()
      ensures out == Answers(old(Seen()), start, ds)
      ensures |out| == |ds| && forall i :: 0 <= i < |ds| ==> FirstSeen(old(Seen()), start, ds, i, out[i])
      ensures Seen() == Recorded(old(Seen()), start, ds)
    {
      hide Valid, Seen, Recorded, Settled, FirstSeen;
      out := [];
      AnswersAre(Seen(), start, ds);
      RecordedNone(Seen(), start, ds);
      for i := 0 to |ds|
        invariant Valid() && Settled() && |out| == i
        invariant Seen() == Recorded(old(Seen()), start, ds[..i])
        invariant forall j :: 0 <= j < i ==> out[j] == AnswerAt(old(Seen()), start, ds, j)
      {
        RecordedNext(old(Seen()), start, ds, i);
        var answer := FirstOne(ds[i], RowAt(start, i));
        out := out + [answer];
      }
      assert ds[..|ds|] == ds;
    }

    method FirstOne(d: Digest, row: Row) returns (answer: Row)
      requires Valid() && Settled()
      modifies this
      ensures Valid() && Settled()
      ensures answer == if d !in old(Seen()) then 0 else if old(Seen())[d] == 0 then 1 else old(Seen())[d]
      ensures Seen() == if d in old(Seen()) then old(Seen()) else old(Seen())[d := row]
    {
      hide Stored, OnDisk;
      if d in mem {
        return SeenRow(mem[d]);
      }
      var found := InRuns(d);
      if found.Some? {
        return SeenRow(found.value);
      }
      Remember(d, row);
      answer := 0;
    }

    method Remember(d: Digest, row: Row)
      requires Valid() && Settled() && d !in Seen()
      modifies this
      ensures Valid() && Settled() && Seen() == old(Seen())[d := row]
    {
      hide Valid, Seen;
      Insert(d, row);
      if |mem| >= limit { Spill(); }
    }

    method Insert(d: Digest, row: Row)
      requires Valid() && Settled() && d !in Seen()
      modifies this
      ensures Valid() && Seen() == old(Seen())[d := row] && runs == old(runs)
    {
      hide Stored, OnDisk;
      NewRow(OnDisk(files, runs), mem, d, row);
      mem := mem[d := row];
      count := count + 1;
      if |mem| > peak { peak := |mem|; }
    }

    /** add: true for a key not seen before. */
    method Add(ds: seq<Digest>) returns (out: seq<bool>)
      requires Valid() && Settled()
      modifies this
      ensures Valid() && Settled() && Seen() == Recorded(old(Seen()), 0, ds)
      ensures |out| == |ds| && forall i :: 0 <= i < |ds| ==> (out[i] <==> ds[i] !in old(Seen()) && ds[i] !in ds[..i])
    {
      var rows := First(0, ds);
      out := seq(|ds|, i requires 0 <= i < |rows| => rows[i] == 0);
      forall i | 0 <= i < |ds| ensures out[i] <==> ds[i] !in old(Seen()) && ds[i] !in ds[..i] {
        NewIsUnseen(old(Seen()), ds, i);
      }
    }

    /** close reports how many distinct keys were seen. */
    method Close() returns (n: nat)
      requires Valid() && Settled()
      modifies this
      ensures n == |old(Seen())|
    {
      n := count;
      UnionSize(OnDisk(files, runs), mem);
      files, mem, runs := map[], map[], [];
    }
  }

  lemma NewRow(u: Rows, mem: Rows, d: Digest, row: Row)
    requires u.Keys !! mem.Keys && d !in u + mem
    ensures (u + mem)[d := row] == u + mem[d := row]
    ensures u.Keys !! mem[d := row].Keys
    ensures |mem[d := row]| == |mem| + 1
  {
    PlusSet(u, mem, d, row);
    Grows(mem, d, row);
  }

  lemma UnionSize(u: Rows, mem: Rows)
    requires u.Keys !! mem.Keys
    ensures |u + mem| == |u| + |mem|
  {
    assert (u + mem).Keys == u.Keys + mem.Keys;
    assert |u.Keys + mem.Keys| == |u.Keys| + |mem.Keys|;
  }

  lemma Grows(m: Rows, d: Digest, row: Row)
    requires d !in m
    ensures |m[d := row]| == |m| + 1
  {
    assert m[d := row].Keys == m.Keys + {d};
  }

  lemma PlusNothing(u: Rows)
    ensures u + map[] == u && var none: Rows := map[]; u.Keys !! none.Keys
  {}

  lemma ContentsAdd(files: map<File, Run>, runs: seq<File>, f: File, run: Run)
    requires f !in files && forall k :: 0 <= k < |runs| ==> runs[k] in files
    ensures (forall k :: 0 <= k < |runs| + 1 ==> (runs + [f])[k] in files[f := run])
    ensures Contents(files[f := run], runs + [f]) == Contents(files, runs) + [run]
  {}

  method WriteRun(mem: Rows, ds: seq<Digest>) returns (run: Run)
    requires forall i, j :: 0 <= i < j < |ds| ==> ds[i] < ds[j]
    requires forall d :: d in mem <==> d in ds
    ensures Sorted(run) && RowsOf(run) == mem
  {
    run := [];
    for i := 0 to |ds|
      invariant |run| == i && forall j :: 0 <= j < i ==> run[j] == Record(ds[j], mem[ds[j]])
    {
      run := run + [Record(ds[i], mem[ds[i]])];
    }
    WrittenRows(mem, ds, run);
  }

  lemma WrittenRows(mem: Rows, ds: seq<Digest>, run: Run)
    requires Sorted(run) && forall d :: d in mem <==> d in ds
    requires |run| == |ds| && forall j :: 0 <= j < |ds| ==> ds[j] in mem && run[j] == Record(ds[j], mem[ds[j]])
    ensures RowsOf(run) == mem
  {
    hide RowsOf;
    forall d ensures d in RowsOf(run) <==> d in mem {
      RowsOfOnly(run, d);
      if d in mem {
        var i :| 0 <= i < |ds| && ds[i] == d;
        InAt(run, i);
      }
    }
    forall d | d in mem ensures RowsOf(run)[d] == mem[d] {
      var i :| 0 <= i < |ds| && ds[i] == d;
      RowsOfHas(run, i);
    }
  }

  lemma FoundIn(rs: seq<Run>, k: nat, d: Digest)
    requires AllApart(rs) && k < |rs| && d in RowsOf(rs[k])
    ensures d in Union(rs) && Union(rs)[d] == RowsOf(rs[k])[d]
  {
    hide RowsOf;
    forall m | k < m < |rs| ensures d !in RowsOf(rs[m]) { assert Apart(rs[k], rs[m]); }
    UnionAt(rs, k, d);
  }

  lemma {:induction false} NotFound(rs: seq<Run>, d: Digest)
    requires forall m :: 0 <= m < |rs| ==> d !in RowsOf(rs[m])
    ensures d !in Union(rs)
  {
    hide RowsOf;
    if rs != [] { NotFound(rs[..|rs| - 1], d); }
  }

  lemma SpillKeeps(rs: seq<Run>, mem: Rows, run: Run)
    requires AllSorted(rs) && AllApart(rs) && Union(rs).Keys !! mem.Keys && Sorted(run) && RowsOf(run) == mem
    ensures AllSorted(rs + [run]) && AllApart(rs + [run]) && Union(rs + [run]) == Union(rs) + mem
  {
    hide RowsOf;
    assert (rs + [run])[..|rs|] == rs;
    forall k | 0 <= k < |rs| ensures Apart(rs[k], run) {
      forall d | d in RowsOf(rs[k]) ensures d !in mem { FoundIn(rs, k, d); }
    }
  }

  lemma StoredAdd(files: map<File, Run>, runs: seq<File>, nextFile: File, mem: Rows, run: Run)
    requires Stored(files, runs, nextFile) && OnDisk(files, runs).Keys !! mem.Keys && Sorted(run) && RowsOf(run) == mem
    ensures Stored(files[nextFile := run], runs + [nextFile], nextFile + 1)
    ensures OnDisk(files[nextFile := run], runs + [nextFile]) == OnDisk(files, runs) + mem
  {
    hide Union, RowsOf, AllSorted, AllApart, Sorted, Contents;
    SpillKeeps(Contents(files, runs), mem, run);
    ContentsAdd(files, runs, nextFile, run);
  }

  lemma UnionOne(out: Run)
    ensures Union([out]) == RowsOf(out)
  {
    assert [out][..0] == [];
    assert map[] + RowsOf(out) == RowsOf(out);
  }
}
