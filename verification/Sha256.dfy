/** SHA-256 over a stream of chunks, against FIPS 180-4.

    The standard's side: the functions of section 4.1.2, padding (5.1.1), parsing into blocks (5.2.1), the initial
    hash value (5.3.3) and the computation (6.2.2).
    */
module Sha256 {
  import opened Arithmetic
  import LE = LittleEndian

  type Byte = bv8
  type Word = bv32

  // ---- FIPS 180-4 ----

  function K(): (k: seq<Word>)
    ensures |k| == 64
  {
    ([0x428a2f98, 0x71374491, 0xb5c0fbcf, 0xe9b5dba5, 0x3956c25b, 0x59f111f1, 0x923f82a4, 0xab1c5ed5]
     + [0xd807aa98, 0x12835b01, 0x243185be, 0x550c7dc3, 0x72be5d74, 0x80deb1fe, 0x9bdc06a7, 0xc19bf174]
     + [0xe49b69c1, 0xefbe4786, 0x0fc19dc6, 0x240ca1cc, 0x2de92c6f, 0x4a7484aa, 0x5cb0a9dc, 0x76f988da]
     + [0x983e5152, 0xa831c66d, 0xb00327c8, 0xbf597fc7, 0xc6e00bf3, 0xd5a79147, 0x06ca6351, 0x14292967])
    + ([0x27b70a85, 0x2e1b2138, 0x4d2c6dfc, 0x53380d13, 0x650a7354, 0x766a0abb, 0x81c2c92e, 0x92722c85]
       + [0xa2bfe8a1, 0xa81a664b, 0xc24b8b70, 0xc76c51a3, 0xd192e819, 0xd6990624, 0xf40e3585, 0x106aa070]
       + [0x19a4c116, 0x1e376c08, 0x2748774c, 0x34b0bcb5, 0x391c0cb3, 0x4ed8aa4a, 0x5b9cca4f, 0x682e6ff3]
       + [0x748f82ee, 0x78a5636f, 0x84c87814, 0x8cc70208, 0x90befffa, 0xa4506ceb, 0xbef9a3f7, 0xc67178f2])
  }

  function H0(): (h: seq<Word>)
    ensures |h| == 8
  {
    [0x6a09e667, 0xbb67ae85, 0x3c6ef372, 0xa54ff53a, 0x510e527f, 0x9b05688c, 0x1f83d9ab, 0x5be0cd19]
  }

  function Ch(x: Word, y: Word, z: Word): Word { (x & y) ^ (!x & z) }
  function Maj(x: Word, y: Word, z: Word): Word { (x & y) ^ (x & z) ^ (y & z) }
  function BigSigma0(x: Word): Word { x.RotateRight(2) ^ x.RotateRight(13) ^ x.RotateRight(22) }
  function BigSigma1(x: Word): Word { x.RotateRight(6) ^ x.RotateRight(11) ^ x.RotateRight(25) }
  function Sigma0(x: Word): Word { x.RotateRight(7) ^ x.RotateRight(18) ^ (x >> 3) }
  function Sigma1(x: Word): Word { x.RotateRight(17) ^ x.RotateRight(19) ^ (x >> 10) }

  /** Addition modulo 2^32. */
  function Add(a: Word, b: Word): Word { a + b }
  function Sum4(a: Word, b: Word, c: Word, d: Word): Word { a + b + c + d }
  function Sum5(a: Word, b: Word, c: Word, d: Word, e: Word): Word { a + b + c + d + e }

  function BigEndian(b0: Byte, b1: Byte, b2: Byte, b3: Byte): Word {
    ((b0 as Word) << 24) | ((b1 as Word) << 16) | ((b2 as Word) << 8) | (b3 as Word)
  }

  /** The message schedule. */
  function Schedule(block: seq<Byte>, t: nat): Word
    requires |block| == 64 && t < 64
  {
    if t < 16 then BigEndian(block[4 * t], block[4 * t + 1], block[4 * t + 2], block[4 * t + 3])
    else Sum4(Sigma1(Schedule(block, t - 2)), Schedule(block, t - 7), Sigma0(Schedule(block, t - 15)), Schedule(block, t - 16))
  }

  datatype State = State(a: Word, b: Word, c: Word, d: Word, e: Word, f: Word, g: Word, h: Word)

  function Round(s: State, k: Word, w: Word): State {
    var t1 := Sum5(s.h, BigSigma1(s.e), Ch(s.e, s.f, s.g), k, w);
    var t2 := Add(BigSigma0(s.a), Maj(s.a, s.b, s.c));
    State(Add(t1, t2), s.a, s.b, s.c, Add(s.d, t1), s.e, s.f, s.g)
  }

  function Rounds(s: State, block: seq<Byte>, t: nat): State
    requires |block| == 64 && t <= 64
  {
    if t == 0 then s else Round(Rounds(s, block, t - 1), K()[t - 1], Schedule(block, t - 1))
  }

  function FromWords(h: seq<Word>): State
    requires |h| == 8
  {
    State(h[0], h[1], h[2], h[3], h[4], h[5], h[6], h[7])
  }

  function Compress(h: seq<Word>, block: seq<Byte>): (r: seq<Word>)
    requires |h| == 8 && |block| == 64
    ensures |r| == 8
  {
    Added(h, Rounds(FromWords(h), block, |block|))
  }

  function Added(h: seq<Word>, s: State): (r: seq<Word>)
    requires |h| == 8
    ensures |r| == 8
  {
    [Add(h[0], s.a), Add(h[1], s.b), Add(h[2], s.c), Add(h[3], s.d), Add(h[4], s.e), Add(h[5], s.f), Add(h[6], s.g), Add(h[7], s.h)]
  }

  /** The blocks of msg, in order. */
  function Absorb(h: seq<Word>, msg: seq<Byte>): (r: seq<Word>)
    requires |h| == 8 && |msg| % 64 == 0
    ensures |r| == 8
    decreases |msg|
  {
    if msg == [] then h else Absorb(Compress(h, msg[..64]), msg[64..])
  }

  function Octet(v: nat, i: nat): Byte { (v / LE.Pow256(i) % 256) as Byte }

  /** The length in bits, as 64 bits. */
  function Length64(bits: nat): (l: seq<Byte>)
    ensures |l| == 8
  {
    seq(8, i requires 0 <= i < 8 => Octet(bits, 7 - i))
  }

  /** The least number of zero bytes after the 1 bit that leaves 64 bits in the last block. */
  function ZeroBytes(len: nat): (z: nat)
    ensures (len + 1 + z) % 64 == 56 && z < 64
  {
    (55 - len) % 64
  }

  function Padding(len: nat): (p: seq<Byte>)
    ensures (len + |p|) % 64 == 0
  {
    [0x80] + seq(ZeroBytes(len), _ => 0) + Length64(8 * len)
  }

  function Digest(msg: seq<Byte>): (r: seq<Word>)
    ensures |r| == 8
  {
    Absorb(H0(), msg + Padding(|msg|))
  }

  const HEX := "0123456789abcdef"

  function Pow16(n: nat): (p: nat)
    ensures p > 0
  {
    if n == 0 then 1 else 16 * Pow16(n - 1)
  }

  /** The low n hexadecimal digits of v, most significant first. */
  function Nibbles(v: nat, n: nat): (s: string)
    ensures |s| == n
  {
    if n == 0 then "" else Nibbles(v / 16, n - 1) + [HEX[v % 16]]
  }

  function HexDigits(h: seq<Word>): string {
    if h == [] then "" else HexDigits(h[..|h| - 1]) + Nibbles(h[|h| - 1] as nat, 8)
  }

  /** Digit k of n is that of 16^(n - 1 - k). */
  lemma {:induction false} NibblesAt(v: nat, n: nat, k: nat)
    requires k < n
    ensures Nibbles(v, n)[k] == HEX[v / Pow16(n - 1 - k) % 16]
    decreases n
  {
    if k < n - 1 {
      NibblesAt(v / 16, n - 1, k);
      DivDiv(v, Pow16(n - 2 - k), 16);
    } else {
      assert Pow16(0) == 1;
    }
  }

  /** Word j takes the eight digits from 8j on. */
  lemma {:induction false} HexDigitsAt(h: seq<Word>, j: nat, k: nat)
    requires j < |h| && k < 8
    ensures |HexDigits(h)| == 8 * |h| && HexDigits(h)[8 * j + k] == HEX[h[j] as nat / Pow16(7 - k) % 16]
    decreases |h|
  {
    hide Nibbles, Pow16;
    var n := |h| - 1;
    HexSize(h);
    HexSize(h[..n]);
    NibblesAt(h[j] as nat, 8, k);
    if j < n { HexDigitsAt(h[..n], j, k); }
  }

  lemma {:induction false} HexSize(h: seq<Word>)
    ensures |HexDigits(h)| == 8 * |h|
  {
    hide Nibbles;
    if h != [] { HexSize(h[..|h| - 1]); }
  }

  // ---- Absorbing in pieces ----

  lemma {:induction false} AbsorbAppend(h: seq<Word>, a: seq<Byte>, b: seq<Byte>)
    requires |h| == 8 && |a| % 64 == 0 && |b| % 64 == 0
    ensures Absorb(h, a + b) == Absorb(Absorb(h, a), b)
    decreases |a|
  {
    if a == [] {
      assert a + b == b;
    } else {
      assert (a + b)[..64] == a[..64] && (a + b)[64..] == a[64..] + b;
      AbsorbAppend(Compress(h, a[..64]), a[64..], b);
    }
  }

  lemma AbsorbNothing()
    ensures Absorb(H0(), []) == H0()
  {}

  lemma AbsorbBlock(h: seq<Word>, a: seq<Byte>, block: seq<Byte>)
    requires |h| == 8 && |a| % 64 == 0 && |block| == 64
    ensures Absorb(h, a + block) == Compress(Absorb(h, a), block)
  {
    hide Compress;
    AbsorbAppend(h, a, block);
    assert block[..64] == block && block[64..] == [];
  }

  // ---- The words of the code, against those of the standard ----

  function S0(x: Word): Word { ((x >> 2) | (x << 30)) ^ ((x >> 13) | (x << 19)) ^ ((x >> 22) | (x << 10)) }
  function S1(x: Word): Word { ((x >> 6) | (x << 26)) ^ ((x >> 11) | (x << 21)) ^ ((x >> 25) | (x << 7)) }
  function LowS0(x: Word): Word { ((x >> 7) | (x << 25)) ^ ((x >> 18) | (x << 14)) ^ (x >> 3) }
  function LowS1(x: Word): Word { ((x >> 17) | (x << 15)) ^ ((x >> 19) | (x << 13)) ^ (x >> 10) }

  /** Rotations written as pairs of shifts. */
  lemma RotateByShifts(x: Word)
    ensures LowS0(x) == Sigma0(x) && LowS1(x) == Sigma1(x) && S0(x) == BigSigma0(x) && S1(x) == BigSigma1(x)
  {}

  lemma SumOrder(a: Word, b: Word, c: Word, d: Word)
    ensures Sum4(a, b, c, d) == Sum4(d, c, b, a)
  {}

  method NextWord(w0: Word, w1: Word, w9: Word, w14: Word) returns (w: Word)
    ensures w == Sum4(Sigma1(w14), w9, Sigma0(w1), w0)
  {
    hide Sigma0, Sigma1, LowS0, LowS1, Sum4;
    var s0, s1 := LowS0(w1), LowS1(w14);
    RotateByShifts(w1);
    RotateByShifts(w14);
    SumOrder(w0, s0, w9, s1);
    w := Sum4(w0, s0, w9, s1);
  }

  method OneRound(s: State, k: Word, w: Word) returns (r: State)
    ensures r == Round(s, k, w)
  {
    hide BigSigma0, BigSigma1, S0, S1, Sum5, Add, Ch, Maj;
    RotateByShifts(s.e);
    RotateByShifts(s.a);
    var ch := Ch(s.e, s.f, s.g);
    var t1 := Sum5(s.h, S1(s.e), ch, k, w);
    var mj := Maj(s.a, s.b, s.c);
    var t2 := Add(S0(s.a), mj);
    r := State(Add(t1, t2), s.a, s.b, s.c, Add(s.d, t1), s.e, s.f, s.g);
  }

  // ---- The class ----

  /** JavaScript counts exactly to here; a length below it times eight is exact too. */
  const SAFE := 0x20_0000_0000_0000

  class Sha256 {
    const h: array<Word>
    const buf: array<Byte>
    const w: array<Word>
    var n: nat
    var len: nat
    /** Everything given to update. */
    ghost var msg: seq<Byte>

    ghost predicate Shaped()
      reads this
    {
      h.Length == 8 && buf.Length == 64 && w.Length == 64 && h != w
    }

    /** The first whole blocks of total, done bytes, are in h, and the next n bytes wait in buf. */
    ghost predicate Fed(total: seq<Byte>, done: int)
      requires Shaped()
      reads this, h, buf
    {
      0 <= done && done % 64 == 0 && n <= 64 && done + n <= |total|
      && h[..] == Absorb(H0(), total[..done]) && buf[..n] == total[done..done + n]
    }

    ghost predicate Valid()
      reads this, h, buf
    {
      Shaped() && len == |msg| && n == |msg| % 64 && Fed(msg, |msg| - n)
    }

    constructor ()
      ensures Valid() && msg == [] && fresh(h) && fresh(buf) && fresh(w)
    {
      hide Absorb, H0;
      h := new Word[8](i requires 0 <= i < 8 => H0()[i]);
      buf := new Byte[64](_ => 0);
      w := new Word[64](_ => 0);
      n, len, msg := 0, 0, [];
      new;
      assert h[..] == H0();
      AbsorbNothing();
    }

    method FillSchedule(b: seq<Byte>)
      requires |b| == 64 && w.Length == 64
      modifies w
      ensures forall t :: 0 <= t < 64 ==> w[t] == Schedule(b, t)
    {
      hide BigEndian, Sigma0, Sigma1, Sum4;
      for i := 0 to 16
        invariant forall t :: 0 <= t < i ==> w[t] == Schedule(b, t)
      {
        w[i] := BigEndian(b[4 * i], b[4 * i + 1], b[4 * i + 2], b[4 * i + 3]);
      }
      for i := 16 to 64
        invariant forall t :: 0 <= t < i ==> w[t] == Schedule(b, t)
      {
        var x := NextWord(w[i - 16], w[i - 15], w[i - 7], w[i - 2]);
        w[i] := x;
      }
    }

    method Block(b: seq<Byte>)
      requires |b| == 64 && h.Length == 8 && w.Length == 64 && h != w
      modifies h, w
      ensures h[..] == Compress(old(h[..]), b)
    {
      hide Schedule, Add, Rounds, Added;
      FillSchedule(b);
      var s := RunRounds(b);
      AddState(s);
    }

    method AddState(s: State)
      requires h.Length == 8
      modifies h
      ensures h[..] == Added(old(h[..]), s)
    {
      hide Add;
      var v := [s.a, s.b, s.c, s.d, s.e, s.f, s.g, s.h];
      forall i | 0 <= i < 8 { h[i] := Add(h[i], v[i]); }
    }

    method RunRounds(b: seq<Byte>) returns (s: State)
      requires |b| == 64 && h.Length == 8 && w.Length == 64 && forall t :: 0 <= t < 64 ==> w[t] == Schedule(b, t)
      ensures s == Rounds(FromWords(h[..]), b, |b|)
    {
      hide Schedule, Round, K;
      s := State(h[0], h[1], h[2], h[3], h[4], h[5], h[6], h[7]);
      for i := 0 to 64
        invariant s == Rounds(FromWords(h[..]), b, i)
      {
        s := OneRound(s, K()[i], w[i]);
      }
    }

    /** One more block of total. */
    method Consume(b: seq<Byte>, ghost total: seq<Byte>, ghost done: int)
      requires Shaped() && n == 0 && Fed(total, done) && done + 64 <= |total| && b == total[done..done + 64]
      modifies h, w
      ensures Fed(total, done + 64)
    {
      hide Absorb, Compress;
      AbsorbBlock(H0(), total[..done], b);
      assert total[..done + 64] == total[..done] + b;
      Block(b);
    }

    method BufferByte(x: Byte, ghost total: seq<Byte>, ghost done: int)
      requires Shaped() && Fed(total, done) && n < 64 && done + n < |total| && x == total[done + n]
      modifies this`n, buf
      ensures Fed(total, done) && n == old(n) + 1
    {
      hide Absorb;
      buf[n] := x;
      n := n + 1;
    }

    /** Of data, which ends the message, the first i bytes are in h or in buf. */
    ghost predicate Taken(data: seq<Byte>, i: int)
      requires Shaped()
      reads this, h, buf
    {
      |data| <= |msg| && msg[|msg| - |data|..] == data && Fed(msg, |msg| - |data| + i - n)
    }

    /** Fills the buffer that an earlier call left part full, and absorbs it when it is full. */
    method TopUp(data: seq<Byte>) returns (i: nat)
      requires Shaped() && n < 64 && Taken(data, 0)
      modifies this`n, h, buf, w
      ensures i <= |data| && n < 64 && Taken(data, i) && (n == 0 || i == |data|)
    {
      hide Absorb, Fed;
      i := 0;
      if n > 0 {
        ghost var done := |msg| - |data| - n;
        while n < 64 && i < |data|
          invariant 0 <= i <= |data| && n <= 64 && n == |msg| - |data| + i - done
          invariant Fed(msg, done)
        {
          BufferByte(data[i], msg, done);
          i := i + 1;
        }
        if n == 64 { EmptyBuffer(done); }
      }
    }

    /** The buffer is full: it is the next block. */
    method EmptyBuffer(ghost done: int)
      requires Shaped() && Fed(msg, done) && n == 64
      modifies this`n, h, w
      ensures Fed(msg, done + 64) && n == 0
    {
      hide Absorb, H0;
      n := 0;
      Consume(buf[..], msg, done);
    }

    method WholeBlocks(data: seq<Byte>, i0: nat) returns (i: nat)
      requires Shaped() && i0 <= |data| && n < 64 && Taken(data, i0) && (n == 0 || i0 == |data|)
      modifies h, w
      ensures i0 <= i <= |data| && |data| - i < 64 && Taken(data, i) && (n == 0 || i == |data|)
    {
      hide Absorb, H0, Fed;
      i := i0;
      while i + 64 <= |data|
        invariant i0 <= i <= |data| && (n == 0 || i == |data|)
        invariant Taken(data, i)
      {
        ghost var at := |msg| - |data| + i;
        assert msg[at..at + 64] == data[i..i + 64];
        Consume(data[i..i + 64], msg, at);
        i := i + 64;
      }
    }

    /** The message is longer, and none of data is taken yet. */
    method Receive(data: seq<Byte>)
      requires Valid()
      modifies this`len, this`msg
      ensures msg == old(msg) + data && len == |msg| && n < 64 && Taken(data, 0)
    {
      hide Absorb, H0;
      FedMore(data);
      len := len + |data|;
      msg := msg + data;
    }

    method Update(data: seq<Byte>)
      requires Valid() && |msg| + |data| <= SAFE
      modifies this`n, this`len, this`msg, h, buf, w
      ensures Valid() && msg == old(msg) + data
    {
      hide Absorb, H0, Fed;
      Receive(data);
      var i := TopUp(data);
      i := WholeBlocks(data, i);
      KeepRest(data, i);
      FedShape(msg, |msg| - n);
      Remainder(|msg|, |msg| - n, n);
    }

    /** What is left of data, less than a block with what the buffer holds, waits in the buffer. */
    method KeepRest(data: seq<Byte>, i0: nat)
      requires Shaped() && i0 <= |data| && |data| - i0 + n < 64 && Taken(data, i0)
      modifies this`n, buf
      ensures n == old(n) + |data| - i0 && Fed(msg, |msg| - n)
    {
      hide Absorb, H0, Fed;
      ghost var done := |msg| - |data| + i0 - n;
      FedShape(msg, done);
      var i := i0;
      while i < |data|
        invariant i <= |data| && n == old(n) + i - i0 && Fed(msg, done)
      {
        BufferByte(data[i], msg, done);
        i := i + 1;
      }
    }

    lemma FedShape(total: seq<Byte>, done: int)
      requires Shaped() && Fed(total, done)
      ensures 0 <= done && done % 64 == 0
    {}

    lemma FedMore(data: seq<Byte>)
      requires Valid()
      ensures Fed(msg + data, |msg| - n)
    {
      hide Absorb;
      var done := |msg| - n;
      assert (msg + data)[..done] == msg[..done];
      assert (msg + data)[done..done + n] == msg[done..done + n];
    }

    /** hex pads as section 5.1.1 asks and reads the digest off; the buffer is empty after it. */
    method Hex() returns (out: string)
      requires Valid() && |msg| <= SAFE - 128
      modifies this`n, this`len, this`msg, h, buf, w
      ensures out == HexDigits(Digest(old(msg)))
      ensures Valid() && n == 0
    {
      hide Absorb, H0;
      var pad := MakePad(n, len);
      ghost var m := msg;
      Update(pad);
      assert |msg| % 64 == 0;
      assert msg[..|msg|] == msg;
      assert h[..] == Digest(m);
      out := HexOf(h);
    }
  }

  method HexOf(h: array<Word>) returns (out: string)
    requires h.Length == 8
    ensures out == HexDigits(h[..])
  {
    hide Nibbles;
    out := "";
    for k := 0 to 8
      invariant out == HexDigits(h[..k])
    {
      var s := Padded(h[k] as nat);
      assert h[..k + 1][..k] == h[..k];
      out := out + s;
    }
    assert h[..8] == h[..];
  }

  lemma Remainder(total: nat, done: int, n: nat)
    requires 0 <= done && done % 64 == 0 && n < 64 && total == done + n
    ensures total % 64 == n
  {}

  /** The padding as the code lays it out: bits as a high and a low half. */
  method MakePad(n: nat, len: nat) returns (pad: seq<Byte>)
    requires n == len % 64 && len <= SAFE
    ensures pad == Padding(len)
  {
    hide Length64, FourOctets, ZeroBytes;
    var bits := len * 8;
    var size := (if n < 56 then 56 else 120) - n + 8;
    var hi, lo := bits / 0x1_0000_0000, bits % 0x1_0000_0000;
    var zeros := seq(size - 9, _ => 0 as Byte);
    pad := [0x80] + zeros + (FourOctets(hi) + FourOctets(lo));
    Halves(bits);
    PadSize(n, len);
    assert zeros == seq(ZeroBytes(len), _ => 0);
  }

  lemma PadSize(n: nat, len: nat)
    requires n == len % 64
    ensures (if n < 56 then 56 else 120) - n + 8 == ZeroBytes(len) + 9
  {}

  /** x >>> 24, x >>> 16, x >>> 8 and x, as bytes. */
  function FourOctets(x: nat): (b: seq<Byte>)
    ensures |b| == 4
  {
    [(x / 0x100_0000 % 256) as Byte, (x / 0x1_0000 % 256) as Byte, (x / 0x100 % 256) as Byte, (x % 256) as Byte]
  }

  lemma Powers()
    ensures LE.Pow256(0) == 1 && LE.Pow256(1) == 0x100 && LE.Pow256(2) == 0x1_0000 && LE.Pow256(3) == 0x100_0000
    ensures LE.Pow256(4) == 0x1_0000_0000 && LE.Pow256(5) == 0x100_0000_0000
    ensures LE.Pow256(6) == 0x1_0000_0000_0000 && LE.Pow256(7) == 0x100_0000_0000_0000
  {}

  lemma HighOctet(bits: nat, i: nat, p: nat)
    requires p > 0 && LE.Pow256(i + 4) == p * 0x1_0000_0000
    ensures Octet(bits, i + 4) == (bits / 0x1_0000_0000 / p % 256) as Byte
  {
    DivDiv(bits, p, 0x1_0000_0000);
  }

  lemma SameLowByte(k: nat, x: nat)
    ensures (k * 256 + x) % 256 == x % 256
  {
    DivUnique(k * 256 + x, 256, k + x / 256, x % 256);
  }

  /** A low byte of bits is a byte of its low half. */
  lemma LowByte(bits: nat, p: nat, q: nat)
    requires 0 < p && p * q * 256 == 0x1_0000_0000
    ensures bits / p % 256 == bits % 0x1_0000_0000 / p % 256
  {
    var hi, lo := bits / 0x1_0000_0000, bits % 0x1_0000_0000;
    DivMod(lo, p);
    assert hi * 0x1_0000_0000 == hi * (p * q * 256) == hi * q * 256 * p by { Spread(hi, p, q); }
    MulAdd(hi * q * 256, lo / p, p);
    DivUnique(bits, p, hi * q * 256 + lo / p, lo % p);
    SameLowByte(hi * q, lo / p);
  }

  lemma Spread(hi: nat, p: nat, q: nat)
    ensures hi * (p * q * 256) == hi * q * 256 * p
  {}

  lemma MulAdd(a: nat, b: nat, p: nat)
    ensures (a + b) * p == a * p + b * p
  {}

  lemma LowOctets(bits: nat)
    ensures [Octet(bits, 3), Octet(bits, 2), Octet(bits, 1), Octet(bits, 0)] == FourOctets(bits % 0x1_0000_0000)
  {
    hide LE.Pow256;
    Powers();
    LowByte(bits, 0x100_0000, 1);
    LowByte(bits, 0x1_0000, 0x100);
    LowByte(bits, 0x100, 0x1_0000);
    LowByte(bits, 1, 0x100_0000);
  }

  /** The two halves the code writes are the eight octets of the bit count. */
  lemma Halves(bits: nat)
    ensures Length64(bits) == FourOctets(bits / 0x1_0000_0000) + FourOctets(bits % 0x1_0000_0000)
  {
    hide FourOctets, Octet;
    HighOctets(bits);
    LowOctets(bits);
  }

  lemma HighOctets(bits: nat)
    ensures [Octet(bits, 7), Octet(bits, 6), Octet(bits, 5), Octet(bits, 4)] == FourOctets(bits / 0x1_0000_0000)
  {
    hide Octet, LE.Pow256;
    Powers();
    HighOctet(bits, 3, 0x100_0000); HighOctet(bits, 2, 0x1_0000); HighOctet(bits, 1, 0x100); HighOctet(bits, 0, 1);
  }

  /** v.toString(16).padStart(8, '0') */
  method Padded(v: nat) returns (s: string)
    requires v < 0x1_0000_0000
    ensures s == Nibbles(v, 8)
  {
    s := "";
    var rest: nat := v;
    assert Pow16(8) == 0x1_0000_0000;
    while rest > 0 || s == ""
      invariant |s| <= 8
      invariant rest < Pow16(8 - |s|)
      invariant Nibbles(v, 8) == Nibbles(rest, 8 - |s|) + s
      decreases 8 - |s|
    {
      s := [HEX[rest % 16]] + s;
      rest := rest / 16;
    }
    while |s| < 8
      invariant |s| <= 8
      invariant Nibbles(v, 8) == Nibbles(0, 8 - |s|) + s
    {
      s := "0" + s;
    }
  }

  function Flat(chunks: seq<seq<Byte>>): seq<Byte> {
    if chunks == [] then [] else Flat(chunks[..|chunks| - 1]) + chunks[|chunks| - 1]
  }

  /** However a message is cut into chunks, the stream's digest is the message's. */
  method HashChunks(chunks: seq<seq<Byte>>) returns (out: string)
    requires |Flat(chunks)| <= SAFE - 128
    ensures out == HexDigits(Digest(Flat(chunks)))
  {
    hide Sha256.Valid, Flat, Digest, HexDigits;
    var sha := new Sha256();
    NoChunks(chunks);
    for i := 0 to |chunks|
      invariant sha.Valid() && fresh(sha) && fresh(sha.h) && fresh(sha.buf) && fresh(sha.w)
      invariant sha.msg == Flat(chunks[..i])
    {
      FlatGrows(chunks, i + 1);
      OneMore(chunks, i);
      sha.Update(chunks[i]);
    }
    assert chunks[..|chunks|] == chunks;
    out := sha.Hex();
  }

  lemma NoChunks(chunks: seq<seq<Byte>>)
    ensures Flat(chunks[..0]) == []
  {}

  lemma OneMore(chunks: seq<seq<Byte>>, i: nat)
    requires i < |chunks|
    ensures Flat(chunks[..i + 1]) == Flat(chunks[..i]) + chunks[i]
  {
    assert chunks[..i + 1][..i] == chunks[..i];
  }

  lemma {:induction false} FlatGrows(chunks: seq<seq<Byte>>, i: nat)
    requires i <= |chunks|
    ensures |Flat(chunks[..i])| <= |Flat(chunks)|
    decreases |chunks| - i
  {
    if i < |chunks| {
      FlatGrows(chunks, i + 1);
      assert chunks[..i + 1][..i] == chunks[..i];
    } else {
      assert chunks[..i] == chunks;
    }
  }
}
