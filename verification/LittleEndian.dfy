/** Little-endian numbers in files, written and read.

    LE writes a number in a given width and Number reads it back; the parsers of Gguf and TokRows read at a place of
    the data and say where they stopped. At says that bytes stand at a place, and the lemmas about it take a file
    that was written apart again.
    */
module LittleEndian {
  import opened Arithmetic
  import opened Basics

  function Pow256(n: nat): (p: nat)
    ensures p > 0
  {
    if n == 0 then 1 else Pow256(n - 1) * 256
  }

  function LE(v: nat, n: nat): (b: Bytes)
    ensures |b| == n
  {
    if n == 0 then [] else [v % 256] + LE(v / 256, n - 1)
  }

  /** Byte i has the digit of 256^i: the low byte comes first. */
  lemma {:induction false} LEAt(v: nat, n: nat, i: nat)
    requires i < n
    ensures LE(v, n)[i] == v / Pow256(i) % 256
    decreases n
  {
    if i > 0 {
      LEAt(v / 256, n - 1, i - 1);
      DivDiv(v, Pow256(i - 1), 256);
    }
  }

  function Number(b: Bytes): nat {
    if b == [] then 0 else b[0] + 256 * Number(b[1..])
  }

  lemma {:induction false} NumberOfLE(v: nat, n: nat)
    ensures v < Pow256(n) ==> Number(LE(v, n)) == v
  {
    if n > 0 {
      NumberOfLE(v / 256, n - 1);
      assert LE(v, n)[1..] == LE(v / 256, n - 1);
    }
  }

  lemma Widths()
    ensures Pow256(1) == 0x100 && Pow256(2) == 0x1_0000 && Pow256(4) == 0x1_0000_0000
    ensures Pow256(8) == 0x1_0000_0000_0000_0000
  {
    assert Pow256(4) == Pow256(2) * 256 * 256;
    assert Pow256(6) == Pow256(4) * 256 * 256;
    assert Pow256(8) == Pow256(6) * 256 * 256;
  }

  function Words(ws: seq<nat>, n: nat): (b: Bytes)
    ensures |b| == n * |ws|
  {
    if ws == [] then [] else LE(ws[0], n) + Words(ws[1..], n)
  }

  /** Word i stands at n * i. */
  lemma {:induction false} WordsAt(ws: seq<nat>, n: nat, i: nat)
    requires i < |ws|
    ensures n * i + n <= n * |ws| && Words(ws, n)[n * i..n * i + n] == LE(ws[i], n)
    decreases i
  {
    hide LE;
    MulLe(i + 1, |ws|, n);
    MulNext(i, n);
    if i > 0 {
      MulNext(i - 1, n);
      WordsAt(ws[1..], n, i - 1);
      var rest, at := Words(ws[1..], n), n * (i - 1);
      assert Words(ws, n)[n + at..n + at + n] == rest[at..at + n];
    }
  }

  // ---- Reading ----

  datatype Parse<T> = Ok(value: T, pos: nat) | Fail

  function ReadNumber(data: Bytes, pos: nat, n: nat): (r: Parse<nat>)
    ensures r.Ok? ==> pos + n == r.pos <= |data|
  {
    if pos + n <= |data| then Ok(Number(data[pos..pos + n]), pos + n) else Fail
  }

  function ReadNumbers(data: Bytes, pos: nat, n: nat, width: nat): (r: Parse<seq<nat>>)
    ensures r.Ok? ==> |r.value| == n && pos <= r.pos
    decreases n
  {
    if n == 0 then Ok([], pos) else
    match ReadNumber(data, pos, width)
    case Fail => Fail
    case Ok(v, p) =>
      match ReadNumbers(data, p, n - 1, width)
      case Fail => Fail
      case Ok(vs, e) => Ok([v] + vs, e)
  }

  ghost function Prepend<T>(xs: seq<T>, r: Parse<seq<T>>): Parse<seq<T>> {
    match r case Fail => Fail case Ok(ys, p) => Ok(xs + ys, p)
  }

  lemma PrependNone<T>(r: Parse<seq<T>>)
    ensures Prepend([], r) == r
  {
    if r.Ok? { assert [] + r.value == r.value; }
  }

  lemma PrependMore<T>(xs: seq<T>, x: T, r: Parse<seq<T>>)
    ensures Prepend(xs, Prepend([x], r)) == Prepend(xs + [x], r)
  {
    if r.Ok? { assert xs + ([x] + r.value) == (xs + [x]) + r.value; }
  }

  // ---- Reading back what was written ----

  /** b stands at pos. */
  predicate At(data: Bytes, pos: nat, b: Bytes) {
    pos + |b| <= |data| && data[pos..pos + |b|] == b
  }

  lemma AtSplit(data: Bytes, pos: nat, a: Bytes, b: Bytes)
    requires At(data, pos, a + b)
    ensures At(data, pos, a) && At(data, pos + |a|, b)
  {
    var c := data[pos..pos + |a| + |b|];
    assert c[..|a|] == a && c[|a|..] == b;
  }

  lemma NumberAt(data: Bytes, pos: nat, v: nat, n: nat)
    requires At(data, pos, LE(v, n)) && v < Pow256(n)
    ensures ReadNumber(data, pos, n) == Ok(v, pos + n)
  {
    NumberOfLE(v, n);
  }

  lemma {:induction false} NumbersAt(data: Bytes, pos: nat, ws: seq<nat>, n: nat)
    requires (forall i :: 0 <= i < |ws| ==> ws[i] < Pow256(n)) && At(data, pos, Words(ws, n))
    ensures ReadNumbers(data, pos, |ws|, n) == Ok(ws, pos + |Words(ws, n)|)
    decreases |ws|
  {
    hide LE, ReadNumber, Pow256, Number;
    if ws == [] {
      assert |Words(ws, n)| == 0;
    } else {
      assert |Words(ws, n)| == n + |Words(ws[1..], n)|;
      AtSplit(data, pos, LE(ws[0], n), Words(ws[1..], n));
      NumberAt(data, pos, ws[0], n);
      NumbersAt(data, pos + n, ws[1..], n);
      assert ws == [ws[0]] + ws[1..];
    }
  }

  lemma AtFront(a: Bytes, b: Bytes)
    ensures At(a + b, 0, a)
  {}

  lemma AtShift(a: Bytes, b: Bytes, pos: nat, x: Bytes)
    requires At(b, pos, x)
    ensures At(a + b, |a| + pos, x)
  {
    assert (a + b)[|a| + pos..|a| + pos + |x|] == b[pos..pos + |x|];
  }
}
