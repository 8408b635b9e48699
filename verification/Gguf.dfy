/** GGUF v3 files: a writer of metadata and F32 tensors, and the bounded reader, written separately. */
module Gguf {
  import opened Basics
  import opened LittleEndian

  const MAGIC: Bytes := [0x47, 0x47, 0x55, 0x46]
  const MAX_STRING := 0x10_0000
  const MAX_ARRAY := 0x200_0000
  const MAX_KV := 0x1_0000
  const MAX_TENSORS := 0x10_0000
  const MAX_DIMS := 8
  const ALIGNMENT := 32

  // ---- What is written ----

  datatype OutValue = OutString(s: Bytes) | OutFloat(bits: nat) | OutUint(n: nat)
  datatype OutKV = OutKV(key: Bytes, val: OutValue)
  datatype OutTensor = OutTensor(name: Bytes, dims: seq<nat>, data: seq<nat>)

  /** The widths of Go's types, which the writer's arguments have. */
  predicate Representable(kvs: seq<OutKV>, tensors: seq<OutTensor>) {
    |kvs| < 0x8000_0000_0000_0000 && |tensors| < 0x8000_0000_0000_0000
    && (forall i :: 0 <= i < |kvs| ==> KVRepresentable(kvs[i]))
    && (forall i :: 0 <= i < |tensors| ==> TensorRepresentable(tensors[i]))
    && Offset(tensors) < 0x1_0000_0000_0000_0000
  }

  predicate KVRepresentable(kv: OutKV) {
    |kv.key| < 0x8000_0000_0000_0000
    && match kv.val
       case OutString(s) => |s| < 0x8000_0000_0000_0000
       case OutFloat(bits) => bits < 0x1_0000_0000
       case OutUint(n) => n < 0x1_0000_0000
  }

  predicate TensorRepresentable(t: OutTensor) {
    |t.name| < 0x8000_0000_0000_0000 && |t.dims| < 0x1_0000_0000
    && (forall i :: 0 <= i < |t.dims| ==> t.dims[i] < 0x1_0000_0000_0000_0000)
    && forall i :: 0 <= i < |t.data| ==> t.data[i] < 0x1_0000_0000
  }

  function StringBytes(s: Bytes): Bytes { LE(|s|, 8) + s }

  function TypeOf(v: OutValue): nat {
    match v
    case OutString(_) => 8
    case OutFloat(_) => 6
    case OutUint(_) => 4
  }

  function ValueBytes(v: OutValue): Bytes {
    match v
    case OutString(s) => StringBytes(s)
    case OutFloat(bits) => LE(bits, 4)
    case OutUint(n) => LE(n, 4)
  }

  function KVBytes(kv: OutKV): Bytes { StringBytes(kv.key) + (LE(TypeOf(kv.val), 4) + ValueBytes(kv.val)) }

  function KVsBytes(kvs: seq<OutKV>): Bytes {
    if kvs == [] then [] else KVBytes(kvs[0]) + KVsBytes(kvs[1..])
  }

  function Pad(n: nat): (p: nat)
    ensures p < ALIGNMENT && (n + p) % ALIGNMENT == 0
  {
    Padded(n);
    (ALIGNMENT - n % ALIGNMENT) % ALIGNMENT
  }

  lemma Padded(n: nat)
    ensures (n + (ALIGNMENT - n % ALIGNMENT) % ALIGNMENT) % ALIGNMENT == 0
  {
    var q, r := n / ALIGNMENT, n % ALIGNMENT;
    assert n == q * ALIGNMENT + r;
    if r > 0 { assert n + (ALIGNMENT - r) == (q + 1) * ALIGNMENT; }
  }

  lemma Aligned(a: nat, b: nat)
    requires a % ALIGNMENT == 0 && b % ALIGNMENT == 0
    ensures (a + b) % ALIGNMENT == 0
  {
    var q, r := a / ALIGNMENT, b / ALIGNMENT;
    assert a == q * ALIGNMENT && b == r * ALIGNMENT;
    assert a + b == (q + r) * ALIGNMENT;
  }

  function Zeros(n: nat): (z: Bytes)
    ensures |z| == n && forall i :: 0 <= i < n ==> z[i] == 0
  {
    seq(n, _ => 0)
  }

  /** What one tensor takes in the data section. */
  function Size(t: OutTensor): (n: nat)
    ensures n % ALIGNMENT == 0 && n >= 4 * |t.data|
  {
    4 * |t.data| + Pad(4 * |t.data|)
  }

  /** Where the data after these tensors starts, from the start of the data section. */
  function Offset(ts: seq<OutTensor>): (n: nat)
    ensures n % ALIGNMENT == 0
  {
    if ts == [] then 0 else
    Aligned(Offset(ts[..|ts| - 1]), Size(ts[|ts| - 1]));
    Offset(ts[..|ts| - 1]) + Size(ts[|ts| - 1])
  }

  function InfoBytes(t: OutTensor, offset: nat): Bytes {
    StringBytes(t.name) + (LE(|t.dims|, 4) + (Words(t.dims, 8) + (LE(0, 4) + LE(offset, 8))))
  }

  function InfosBytes(ts: seq<OutTensor>, offset: nat): Bytes {
    if ts == [] then [] else InfoBytes(ts[0], offset) + InfosBytes(ts[1..], offset + Size(ts[0]))
  }

  function TensorBytes(t: OutTensor): (b: Bytes)
    ensures |b| == Size(t)
  {
    Words(t.data, 4) + Zeros(Pad(4 * |t.data|))
  }

  function DataBytes(ts: seq<OutTensor>): Bytes {
    if ts == [] then [] else TensorBytes(ts[0]) + DataBytes(ts[1..])
  }

  function HeaderBytes(kvs: seq<OutKV>, ts: seq<OutTensor>): Bytes {
    MAGIC + (LE(3, 4) + (LE(|ts|, 8) + (LE(|kvs|, 8) + (KVsBytes(kvs) + InfosBytes(ts, 0)))))
  }

  function FileBytes(kvs: seq<OutKV>, ts: seq<OutTensor>): Bytes {
    var header := HeaderBytes(kvs, ts);
    header + Zeros(Pad(|header|)) + DataBytes(ts)
  }

  // ---- What is read ----

  datatype Value = Unsigned(u: nat) | Signed(i: int) | Float(bits: nat) | Text(s: Bytes) | Dropped
  datatype Info = Info(name: Bytes, dims: seq<nat>, typ: nat)
  datatype RawInfo = RawInfo(info: Info, offset: nat)
  function ReadString(data: Bytes, pos: nat): (r: Parse<Bytes>)
    ensures r.Ok? ==> pos + 8 <= r.pos <= |data| && |r.value| <= MAX_STRING
  {
    match ReadNumber(data, pos, 8)
    case Fail => Fail
    case Ok(n, p) => if n > MAX_STRING || p + n > |data| then Fail else Ok(data[p..p + n], p + n)
  }

  function FixedSize(t: nat): nat {
    if t == 0 || t == 1 || t == 7 then 1
    else if t == 2 || t == 3 then 2
    else if t == 4 || t == 5 || t == 6 then 4
    else if t == 10 || t == 11 || t == 12 then 8
    else 0
  }

  /** The numbers of the format: 8-bit and truth values 0, 1 and 7; 16-bit 2 and 3; 32-bit 4, 5 and the float 6; 64-bit 10,
      11 and the double 12. Strings (8), arrays (9) and anything else have no fixed size. */
  lemma FixedSizeIs(t: nat)
    ensures t in {0, 1, 7} ==> FixedSize(t) == 1
    ensures t in {2, 3} ==> FixedSize(t) == 2
    ensures t in {4, 5, 6} ==> FixedSize(t) == 4
    ensures t in {10, 11, 12} ==> FixedSize(t) == 8
    ensures t in {8, 9} || t > 12 ==> FixedSize(t) == 0
  {}

  function SignExtend(v: nat, n: nat): int { if 2 * v >= Pow256(n) then v - Pow256(n) else v }

  /** Two's complement in n bytes: the number in the signed range that has v's bytes. */
  lemma SignExtendIs(v: nat, n: nat)
    requires n > 0 && v < Pow256(n)
    ensures 0 <= 2 * SignExtend(v, n) + Pow256(n) < 2 * Pow256(n)
    ensures SignExtend(v, n) == v || SignExtend(v, n) == v - Pow256(n)
  {}

  /** One value; arrays are read past and dropped, at most three deep and of bounded length. */
  function ReadValue(data: Bytes, pos: nat, typ: nat, depth: nat): (r: Parse<Value>)
    requires depth <= 3
    ensures r.Ok? ==> pos <= r.pos <= |data|
    decreases 3 - depth, 0
  {
    if typ == 8 then
      match ReadString(data, pos) case Fail => Fail case Ok(s, p) => Ok(Text(s), p)
    else if typ == 9 then
      if depth > 2 then Fail else
      match ReadNumber(data, pos, 4) { case Fail => Fail case Ok(et, p) =>
        match ReadNumber(data, p, 8) { case Fail => Fail case Ok(n, q) =>
          if n > MAX_ARRAY then Fail
          else if FixedSize(et) > 0 then
            if q + n * FixedSize(et) > |data| then Fail else Ok(Dropped, q + n * FixedSize(et))
          else SkipValues(data, q, et, n, depth + 1) } }
    else
      match ReadNumber(data, pos, FixedSize(typ)) {
        case Fail => Fail
        case Ok(v, p) =>
          if typ == 0 || typ == 2 || typ == 4 || typ == 7 || typ == 10 then Ok(Unsigned(v), p)
          else if typ == 1 || typ == 3 || typ == 5 || typ == 11 then Ok(Signed(SignExtend(v, FixedSize(typ))), p)
          else if typ == 6 then Ok(Float(v), p)
          else if typ == 12 then Ok(Dropped, p)
          else Fail }
  }

  function SkipValues(data: Bytes, pos: nat, typ: nat, n: nat, depth: nat): (r: Parse<Value>)
    requires depth <= 3 && pos <= |data|
    ensures r.Ok? ==> pos <= r.pos <= |data|
    decreases 3 - depth, n + 1
  {
    if n == 0 then Ok(Dropped, pos) else
    match ReadValue(data, pos, typ, depth)
    case Fail => Fail
    case Ok(_, p) => SkipValues(data, p, typ, n - 1, depth)
  }

  type Metadata = map<Bytes, Value>

  function ReadKV(data: Bytes, pos: nat, kv: Metadata): (r: Parse<Metadata>)
    ensures r.Ok? ==> pos <= r.pos <= |data|
  {
    match ReadString(data, pos)
    case Fail => Fail
    case Ok(key, p) =>
      match ReadNumber(data, p, 4)
      case Fail => Fail
      case Ok(typ, q) =>
        match ReadValue(data, q, typ, 0)
        case Fail => Fail
        case Ok(v, e) => Ok(if v == Dropped then kv else kv[key := v], e)
  }

  function ReadKVs(data: Bytes, pos: nat, n: nat, kv: Metadata): Parse<Metadata>
    decreases n
  {
    if n == 0 then Ok(kv, pos) else
    match ReadKV(data, pos, kv)
    case Fail => Fail
    case Ok(kv', p) => ReadKVs(data, p, n - 1, kv')
  }

  /** parseGGUFKV: magic, version, counts, entries. */
  function ReadMetadata(data: Bytes): Parse<Metadata> {
    match ReadNumber(data, 0, 8)
    case Fail => Fail
    case Ok(_, _) =>
      var version := Number(data[4..8]);
      if data[..4] != MAGIC || version < 2 || version > 3 then Fail else
      match ReadNumber(data, 8, 16)
      case Fail => Fail
      case Ok(_, p) =>
        var kvs := Number(data[16..24]);
        if kvs > MAX_KV then Fail else ReadKVs(data, p, kvs, map[])
  }

  /** One entry of the tensor table, with the data offset that the reader then lets go. */
  function ReadInfo(data: Bytes, pos: nat): Parse<RawInfo> {
    match ReadString(data, pos)
    case Fail => Fail
    case Ok(name, p) =>
      match ReadNumber(data, p, 4)
      case Fail => Fail
      case Ok(nd, q) =>
        if nd > MAX_DIMS then Fail else
        match ReadNumbers(data, q, nd, 8)
        case Fail => Fail
        case Ok(dims, r) =>
          match ReadNumber(data, r, 4)
          case Fail => Fail
          case Ok(typ, s) =>
            match ReadNumber(data, s, 8)
            case Fail => Fail
            case Ok(offset, e) => Ok(RawInfo(Info(name, dims, typ), offset), e)
  }

  function ReadInfos(data: Bytes, pos: nat, n: nat): Parse<seq<RawInfo>>
    decreases n
  {
    if n == 0 then Ok([], pos) else
    match ReadInfo(data, pos)
    case Fail => Fail
    case Ok(info, p) =>
      match ReadInfos(data, p, n - 1)
      case Fail => Fail
      case Ok(infos, e) => Ok([info] + infos, e)
  }

  datatype Header = Header(kv: Metadata, infos: seq<RawInfo>)

  /** readGGUFHeader: the counts are bounded before anything else is read. */
  function ReadHeader(data: Bytes): Parse<Header> {
    match ReadNumber(data, 0, 24)
    case Fail => Fail
    case Ok(_, _) =>
      var tensors, kvs := Number(data[8..16]), Number(data[16..24]);
      if data[..4] != MAGIC || tensors > MAX_TENSORS || kvs > MAX_KV then Fail else
      match ReadMetadata(data)
      case Fail => Fail
      case Ok(kv, p) =>
        match ReadInfos(data, p, tensors)
        case Fail => Fail
        case Ok(infos, e) => Ok(Header(kv, infos), e)
  }

  // ---- Reading back what was written ----

  lemma StringAt(data: Bytes, pos: nat, s: Bytes)
    requires At(data, pos, StringBytes(s)) && |s| < 0x8000_0000_0000_0000
    ensures ReadString(data, pos) == if |s| <= MAX_STRING then Ok(s, pos + |StringBytes(s)|) else Fail
  {
    hide LE, Pow256;
    Widths();
    AtSplit(data, pos, LE(|s|, 8), s);
    NumberAt(data, pos, |s|, 8);
  }

  /** The reader's limits. */
  predicate KVFits(kv: OutKV) {
    |kv.key| <= MAX_STRING && (kv.val.OutString? ==> |kv.val.s| <= MAX_STRING)
  }

  predicate TensorFits(t: OutTensor) { |t.name| <= MAX_STRING && |t.dims| <= MAX_DIMS }

  predicate Fits(kvs: seq<OutKV>, ts: seq<OutTensor>) {
    |kvs| <= MAX_KV && |ts| <= MAX_TENSORS
    && (forall i :: 0 <= i < |kvs| ==> KVFits(kvs[i])) && (forall i :: 0 <= i < |ts| ==> TensorFits(ts[i]))
  }

  function AsRead(v: OutValue): Value {
    match v
    case OutString(s) => Text(s)
    case OutFloat(bits) => Float(bits)
    case OutUint(n) => Unsigned(n)
  }

  lemma ValueAt(data: Bytes, pos: nat, kv: OutKV)
    requires KVRepresentable(kv) && At(data, pos, ValueBytes(kv.val))
    ensures ReadValue(data, pos, TypeOf(kv.val), 0) ==
            if kv.val.OutString? ==> |kv.val.s| <= MAX_STRING then Ok(AsRead(kv.val), pos + |ValueBytes(kv.val)|) else Fail
  {
    hide LE, Pow256, Number;
    Widths();
    match kv.val
    case OutString(s) => StringAt(data, pos, s);
    case OutFloat(bits) => NumberAt(data, pos, bits, 4);
    case OutUint(n) => NumberAt(data, pos, n, 4);
  }

  lemma KVAt(data: Bytes, pos: nat, kv: OutKV, m: Metadata)
    requires KVRepresentable(kv) && At(data, pos, KVBytes(kv))
    ensures ReadKV(data, pos, m) == if KVFits(kv) then Ok(m[kv.key := AsRead(kv.val)], pos + |KVBytes(kv)|) else Fail
  {
    hide LE, Pow256, Number, ReadValue, ReadString, ValueBytes, StringBytes;
    Widths();
    var k, t, v := StringBytes(kv.key), LE(TypeOf(kv.val), 4), ValueBytes(kv.val);
    AtSplit(data, pos, k, t + v);
    AtSplit(data, pos + |k|, t, v);
    StringAt(data, pos, kv.key);
    NumberAt(data, pos + |k|, TypeOf(kv.val), 4);
    ValueAt(data, pos + |k| + 4, kv);
  }

  // ---- Any value, whoever wrote it ----

  /** A value as the format lays it out: a number or a boolean of fixed size, a string, an array of one type. */
  datatype Wire = Scalar(typ: nat, n: nat) | Str(s: Bytes) | Arr(elem: nat, items: seq<Wire>)

  function WireType(w: Wire): nat {
    match w case Scalar(typ, _) => typ case Str(_) => 8 case Arr(_, _) => 9
  }

  function WireBytes(w: Wire): Bytes {
    match w
    case Scalar(typ, n) => LE(n, FixedSize(typ))
    case Str(s) => StringBytes(s)
    case Arr(elem, items) => LE(elem, 4) + (LE(|items|, 8) + ItemsBytes(items))
  }

  function ItemsBytes(items: seq<Wire>): Bytes {
    if items == [] then [] else WireBytes(items[0]) + ItemsBytes(items[1..])
  }

  predicate WellFormed(w: Wire) {
    match w
    case Scalar(typ, n) => FixedSize(typ) > 0 && n < Pow256(FixedSize(typ))
    case Str(s) => |s| < 0x8000_0000_0000_0000
    case Arr(elem, items) =>
      elem < 0x1_0000_0000 && |items| < 0x1_0000_0000_0000_0000
      && forall k :: 0 <= k < |items| ==> WireType(items[k]) == elem && WellFormed(items[k])
  }

  /** The reader's limits: 1 MiB of string, 2^25 elements, three arrays deep; elements of fixed size are not looked at. */
  predicate WireFits(w: Wire, depth: nat) {
    match w
    case Scalar(_, _) => true
    case Str(s) => |s| <= MAX_STRING
    case Arr(elem, items) =>
      depth <= 2 && |items| <= MAX_ARRAY && forall k :: 0 <= k < |items| ==> WireFits(items[k], depth + 1)
  }

  /** What the reader makes of it: arrays and doubles are read and dropped. */
  function Meaning(w: Wire): Value {
    match w
    case Str(s) => Text(s)
    case Arr(_, _) => Dropped
    case Scalar(typ, n) =>
      if typ == 6 then Float(n) else if typ == 12 then Dropped
      else if typ == 1 || typ == 3 || typ == 5 || typ == 11 then Signed(SignExtend(n, FixedSize(typ))) else Unsigned(n)
  }

  /** The reader takes every well-formed value within its limits for what it is, up to its last byte, and refuses every
      other. */
  lemma {:induction false} WireAt(data: Bytes, pos: nat, w: Wire, depth: nat)
    requires depth <= 3 && WellFormed(w) && At(data, pos, WireBytes(w))
    ensures ReadValue(data, pos, WireType(w), depth) ==
            if WireFits(w, depth) then Ok(Meaning(w), pos + |WireBytes(w)|) else Fail
    decreases w
  {
    hide LE, Pow256, Number, ReadString, StringBytes;
    match w
    case Scalar(typ, n) => ScalarAt(data, pos, typ, n, depth);
    case Str(s) => StringAt(data, pos, s);
    case Arr(elem, items) =>
      ArrayHead(data, pos, elem, items);
      if depth <= 2 && |items| <= MAX_ARRAY {
        if FixedSize(elem) > 0 {
          ItemsSize(items, elem, depth + 1);
        } else {
          ItemsAt(data, pos + 12, items, elem, depth + 1);
        }
      }
  }

  lemma ScalarAt(data: Bytes, pos: nat, typ: nat, n: nat, depth: nat)
    requires depth <= 3 && FixedSize(typ) > 0 && n < Pow256(FixedSize(typ)) && At(data, pos, LE(n, FixedSize(typ)))
    ensures ReadValue(data, pos, typ, depth) == Ok(Meaning(Scalar(typ, n)), pos + FixedSize(typ))
  {
    hide LE, Pow256, Number;
    NumberAt(data, pos, n, FixedSize(typ));
  }

  lemma ArrayHead(data: Bytes, pos: nat, elem: nat, items: seq<Wire>)
    requires elem < 0x1_0000_0000 && |items| < 0x1_0000_0000_0000_0000
    requires At(data, pos, LE(elem, 4) + (LE(|items|, 8) + ItemsBytes(items)))
    ensures ReadNumber(data, pos, 4) == Ok(elem, pos + 4) && ReadNumber(data, pos + 4, 8) == Ok(|items|, pos + 12)
    ensures At(data, pos + 12, ItemsBytes(items))
  {
    hide LE, Pow256, Number, ItemsBytes;
    Widths();
    AtSplit(data, pos, LE(elem, 4), LE(|items|, 8) + ItemsBytes(items));
    AtSplit(data, pos + 4, LE(|items|, 8), ItemsBytes(items));
    NumberAt(data, pos, elem, 4);
    NumberAt(data, pos + 4, |items|, 8);
  }

  lemma {:induction false} ItemsSize(items: seq<Wire>, elem: nat, depth: nat)
    requires FixedSize(elem) > 0 && forall k :: 0 <= k < |items| ==> WireType(items[k]) == elem
    ensures |ItemsBytes(items)| == |items| * FixedSize(elem)
    ensures forall k :: 0 <= k < |items| ==> WireFits(items[k], depth)
  {
    if items != [] {
      ItemsSize(items[1..], elem, depth);
      assert items[0].Scalar?;
      assert forall k :: 1 <= k < |items| ==> items[k] == items[1..][k - 1];
    }
  }

  lemma {:induction false} ItemsAt(data: Bytes, pos: nat, items: seq<Wire>, elem: nat, depth: nat)
    requires depth <= 3 && At(data, pos, ItemsBytes(items))
    requires forall k :: 0 <= k < |items| ==> WireType(items[k]) == elem && WellFormed(items[k])
    ensures SkipValues(data, pos, elem, |items|, depth) ==
            if forall k :: 0 <= k < |items| ==> WireFits(items[k], depth) then Ok(Dropped, pos + |ItemsBytes(items)|) else Fail
    decreases items
  {
    hide ReadValue, WireBytes, WireFits, WellFormed, WireType;
    if items != [] {
      AtSplit(data, pos, WireBytes(items[0]), ItemsBytes(items[1..]));
      WireAt(data, pos, items[0], depth);
      if WireFits(items[0], depth) {
        ItemsAt(data, pos + |WireBytes(items[0])|, items[1..], elem, depth);
        assert forall k :: 1 <= k < |items| ==> items[k] == items[1..][k - 1];
      }
    }
  }

  function Merged(m: Metadata, kvs: seq<OutKV>): Metadata
    decreases |kvs|
  {
    if kvs == [] then m else Merged(m[kvs[0].key := AsRead(kvs[0].val)], kvs[1..])
  }

  lemma {:induction false} KVsAt(data: Bytes, pos: nat, kvs: seq<OutKV>, m: Metadata)
    requires (forall i :: 0 <= i < |kvs| ==> KVRepresentable(kvs[i])) && At(data, pos, KVsBytes(kvs))
    ensures ReadKVs(data, pos, |kvs|, m) ==
            if forall i :: 0 <= i < |kvs| ==> KVFits(kvs[i]) then Ok(Merged(m, kvs), pos + |KVsBytes(kvs)|) else Fail
    decreases |kvs|
  {
    hide ReadKV, KVBytes, KVFits, KVRepresentable;
    if kvs != [] {
      AtSplit(data, pos, KVBytes(kvs[0]), KVsBytes(kvs[1..]));
      KVAt(data, pos, kvs[0], m);
      if KVFits(kvs[0]) {
        KVsAt(data, pos + |KVBytes(kvs[0])|, kvs[1..], m[kvs[0].key := AsRead(kvs[0].val)]);
        assert forall i :: 1 <= i < |kvs| ==> kvs[i] == kvs[1..][i - 1];
      }
    }
  }

  function RawOf(t: OutTensor, offset: nat): RawInfo { RawInfo(Info(t.name, t.dims, 0), offset) }

  lemma InfoAt(data: Bytes, pos: nat, t: OutTensor, offset: nat)
    requires TensorRepresentable(t) && offset < 0x1_0000_0000_0000_0000 && At(data, pos, InfoBytes(t, offset))
    ensures ReadInfo(data, pos) == if TensorFits(t) then Ok(RawOf(t, offset), pos + |InfoBytes(t, offset)|) else Fail
  {
    hide LE, Pow256, Number, ReadNumber, ReadNumbers, ReadString, StringBytes, Words, At, InfoBytes;
    InfoParts(data, pos, t, offset);
    Widths();
    var p := pos + |StringBytes(t.name)| + 4;
    var q := p + |Words(t.dims, 8)|;
    StringAt(data, pos, t.name);
    NumberAt(data, p - 4, |t.dims|, 4);
    NumbersAt(data, p, t.dims, 8);
    NumberAt(data, q, 0, 4);
    NumberAt(data, q + 4, offset, 8);
  }

  lemma InfoParts(data: Bytes, pos: nat, t: OutTensor, offset: nat)
    requires At(data, pos, InfoBytes(t, offset))
    ensures var p := pos + |StringBytes(t.name)|;
            var q := p + 4 + |Words(t.dims, 8)|;
            At(data, pos, StringBytes(t.name)) && At(data, p, LE(|t.dims|, 4)) && At(data, p + 4, Words(t.dims, 8))
            && At(data, q, LE(0, 4)) && At(data, q + 4, LE(offset, 8)) && |InfoBytes(t, offset)| == q + 12 - pos
  {
    hide LE, StringBytes, Words, At;
    var a, b, c, d, e := StringBytes(t.name), LE(|t.dims|, 4), Words(t.dims, 8), LE(0, 4), LE(offset, 8);
    AtSplit(data, pos, a, b + (c + (d + e)));
    AtSplit(data, pos + |a|, b, c + (d + e));
    AtSplit(data, pos + |a| + 4, c, d + e);
    AtSplit(data, pos + |a| + 4 + |c|, d, e);
  }

  /** An entry is its key, the number of its type (4 a 32-bit number, 6 a float, 8 a string) and its value. */
  lemma KVParts(data: Bytes, pos: nat, kv: OutKV)
    requires At(data, pos, KVBytes(kv))
    ensures var p := pos + 8 + |kv.key|;
            At(data, pos, LE(|kv.key|, 8)) && At(data, pos + 8, kv.key)
            && match kv.val
               case OutUint(n) => At(data, p, LE(4, 4)) && At(data, p + 4, LE(n, 4))
               case OutFloat(bits) => At(data, p, LE(6, 4)) && At(data, p + 4, LE(bits, 4))
               case OutString(s) => At(data, p, LE(8, 4)) && At(data, p + 4, LE(|s|, 8)) && At(data, p + 12, s)
  {
    hide LE, At;
    var typ, value := LE(TypeOf(kv.val), 4), ValueBytes(kv.val);
    AtSplit(data, pos, StringBytes(kv.key), typ + value);
    AtSplit(data, pos, LE(|kv.key|, 8), kv.key);
    var p := pos + 8 + |kv.key|;
    AtSplit(data, p, typ, value);
    match kv.val
    case OutUint(_) =>
    case OutFloat(_) =>
    case OutString(s) => AtSplit(data, p + 4, LE(|s|, 8), s);
  }

  function RawsOf(ts: seq<OutTensor>, offset: nat): (infos: seq<RawInfo>)
    ensures |infos| == |ts|
  {
    if ts == [] then [] else [RawOf(ts[0], offset)] + RawsOf(ts[1..], offset + Size(ts[0]))
  }

  lemma {:induction false} InfosAt(data: Bytes, pos: nat, ts: seq<OutTensor>, offset: nat)
    requires (forall i :: 0 <= i < |ts| ==> TensorRepresentable(ts[i])) && At(data, pos, InfosBytes(ts, offset))
    requires offset + Offset(ts) < 0x1_0000_0000_0000_0000
    ensures ReadInfos(data, pos, |ts|) ==
            if forall i :: 0 <= i < |ts| ==> TensorFits(ts[i]) then Ok(RawsOf(ts, offset), pos + |InfosBytes(ts, offset)|) else Fail
    decreases |ts|
  {
    hide ReadInfo, InfoBytes, TensorFits, TensorRepresentable;
    if ts != [] {
      OffsetFront(ts);
      AtSplit(data, pos, InfoBytes(ts[0], offset), InfosBytes(ts[1..], offset + Size(ts[0])));
      InfoAt(data, pos, ts[0], offset);
      if TensorFits(ts[0]) {
        InfosAt(data, pos + |InfoBytes(ts[0], offset)|, ts[1..], offset + Size(ts[0]));
        assert forall i :: 1 <= i < |ts| ==> ts[i] == ts[1..][i - 1];
      }
    }
  }

  lemma {:induction false} OffsetFront(ts: seq<OutTensor>)
    requires ts != []
    ensures Offset(ts) == Size(ts[0]) + Offset(ts[1..])
  {
    if |ts| > 1 {
      OffsetFront(ts[..|ts| - 1]);
      assert ts[1..][..|ts| - 2] == ts[..|ts| - 1][1..];
    }
  }

  /** Reading back a written file gives the metadata and the tensor table that went in, with each tensor's data
      offset, exactly when everything is within the reader's limits; otherwise the reader refuses the file. */
  lemma RoundTrip(kvs: seq<OutKV>, ts: seq<OutTensor>)
    requires Representable(kvs, ts)
    ensures ReadHeader(FileBytes(kvs, ts)) ==
            if Fits(kvs, ts) then Ok(Header(Merged(map[], kvs), RawsOf(ts, 0)), |HeaderBytes(kvs, ts)|) else Fail
  {
    hide LE, Pow256, Number, KVsBytes, InfosBytes, ReadKVs, ReadInfos, KVFits, TensorFits;
    var data := FileBytes(kvs, ts);
    HeaderAt(data, kvs, ts);
    KVsAt(data, 24, kvs, map[]);
    InfosAt(data, 24 + |KVsBytes(kvs)|, ts, 0);
  }

  /** The fixed part of the header, and what follows it. */
  lemma HeaderAt(data: Bytes, kvs: seq<OutKV>, ts: seq<OutTensor>)
    requires data == FileBytes(kvs, ts) && |kvs| < 0x8000_0000_0000_0000 && |ts| < 0x8000_0000_0000_0000
    ensures |data| >= 24 && data[..4] == MAGIC
    ensures Number(data[4..8]) == 3 && Number(data[8..16]) == |ts| && Number(data[16..24]) == |kvs|
    ensures At(data, 24, KVsBytes(kvs)) && At(data, 24 + |KVsBytes(kvs)|, InfosBytes(ts, 0))
    ensures |HeaderBytes(kvs, ts)| == 24 + |KVsBytes(kvs)| + |InfosBytes(ts, 0)|
  {
    hide LE, Pow256, Number, KVsBytes, InfosBytes, DataBytes;
    Widths();
    var h := HeaderBytes(kvs, ts);
    assert data == h + (Zeros(Pad(|h|)) + DataBytes(ts));
    assert data[0..|data|] == data;
    AtSplit(data, 0, h, Zeros(Pad(|h|)) + DataBytes(ts));
    var rest := KVsBytes(kvs) + InfosBytes(ts, 0);
    AtSplit(data, 0, MAGIC, LE(3, 4) + (LE(|ts|, 8) + (LE(|kvs|, 8) + rest)));
    AtSplit(data, 4, LE(3, 4), LE(|ts|, 8) + (LE(|kvs|, 8) + rest));
    AtSplit(data, 8, LE(|ts|, 8), LE(|kvs|, 8) + rest);
    AtSplit(data, 16, LE(|kvs|, 8), rest);
    AtSplit(data, 24, KVsBytes(kvs), InfosBytes(ts, 0));
    NumberAt(data, 4, 3, 4);
    NumberAt(data, 8, |ts|, 8);
    NumberAt(data, 16, |kvs|, 8);
  }

  ghost predicate IsLast(kvs: seq<OutKV>, k: Bytes, i: nat) {
    i < |kvs| && kvs[i].key == k && forall j :: i < j < |kvs| ==> kvs[j].key != k
  }

  /** The last entry with a key wins, so with distinct keys every entry reads back. */
  lemma {:induction false} MergedIs(m: Metadata, kvs: seq<OutKV>, k: Bytes)
    ensures k in Merged(m, kvs) <==> k in m || exists i :: 0 <= i < |kvs| && kvs[i].key == k
    ensures (forall i :: 0 <= i < |kvs| ==> kvs[i].key != k) && k in m ==> Merged(m, kvs)[k] == m[k]
    ensures forall i :: 0 <= i < |kvs| && IsLast(kvs, k, i) ==> k in Merged(m, kvs) && Merged(m, kvs)[k] == AsRead(kvs[i].val)
    decreases |kvs|
  {
    hide AsRead;
    if kvs != [] {
      MergedIs(m[kvs[0].key := AsRead(kvs[0].val)], kvs[1..], k);
      assert forall i :: 1 <= i < |kvs| ==> kvs[i] == kvs[1..][i - 1];
    }
  }

  // ---- The data section ----

  lemma NoOffset(ts: seq<OutTensor>)
    ensures Offset(ts[..0]) == 0
  {}

  lemma {:induction false} DataAt(ts: seq<OutTensor>, i: nat)
    requires i < |ts|
    ensures |DataBytes(ts)| == Offset(ts) && At(DataBytes(ts), Offset(ts[..i]), TensorBytes(ts[i]))
    decreases |ts|
  {
    hide TensorBytes, Offset, At;
    DataSize(ts);
    if i == 0 {
      NoOffset(ts);
      AtFront(TensorBytes(ts[0]), DataBytes(ts[1..]));
    } else {
      DataAt(ts[1..], i - 1);
      OffsetFront(ts[..i]);
      assert ts[..i][1..] == ts[1..][..i - 1];
      AtShift(TensorBytes(ts[0]), DataBytes(ts[1..]), Offset(ts[1..][..i - 1]), TensorBytes(ts[i]));
    }
  }

  lemma {:induction false} DataSize(ts: seq<OutTensor>)
    ensures |DataBytes(ts)| == Offset(ts)
  {
    if ts != [] {
      DataSize(ts[1..]);
      OffsetFront(ts);
    }
  }

  lemma {:induction false} RawsAt(ts: seq<OutTensor>, offset: nat, i: nat)
    requires i < |ts|
    ensures RawsOf(ts, offset)[i] == RawOf(ts[i], offset + Offset(ts[..i]))
  {
    if i > 0 {
      RawsAt(ts[1..], offset + Size(ts[0]), i - 1);
      OffsetFront(ts[..i]);
      assert ts[..i][1..] == ts[1..][..i - 1];
    }
  }

  lemma {:induction false} OffsetGrows(ts: seq<OutTensor>, i: nat, j: nat)
    requires i < j <= |ts|
    ensures Offset(ts[..i]) + Size(ts[i]) <= Offset(ts[..j])
    decreases j
  {
    assert ts[..j][..j - 1] == ts[..j - 1];
    if i < j - 1 { OffsetGrows(ts, i, j - 1); }
  }

  /** Where the data section starts, which a reader computes from where the tensor table ended. */
  function DataStart(kvs: seq<OutKV>, ts: seq<OutTensor>): (n: nat)
    ensures n % ALIGNMENT == 0
  {
    |HeaderBytes(kvs, ts)| + Pad(|HeaderBytes(kvs, ts)|)
  }

  /** Each tensor's data stands at its offset, aligned, and apart from every later tensor's. */
  lemma TensorData(kvs: seq<OutKV>, ts: seq<OutTensor>, i: nat)
    requires i < |ts|
    ensures RawsOf(ts, 0)[i].offset == Offset(ts[..i]) && Offset(ts[..i]) % ALIGNMENT == 0
    ensures At(FileBytes(kvs, ts), DataStart(kvs, ts) + Offset(ts[..i]), Words(ts[i].data, 4))
    ensures forall j :: i < j < |ts| ==> Offset(ts[..i]) + 4 * |ts[i].data| <= Offset(ts[..j])
    ensures |FileBytes(kvs, ts)| == DataStart(kvs, ts) + Offset(ts)
  {
    hide HeaderBytes, Words, Offset, DataBytes;
    RawsAt(ts, 0, i);
    DataAt(ts, i);
    var file, start, at := FileBytes(kvs, ts), DataStart(kvs, ts), Offset(ts[..i]);
    var front := HeaderBytes(kvs, ts) + Zeros(Pad(|HeaderBytes(kvs, ts)|));
    var b := TensorBytes(ts[i]);
    assert file == front + DataBytes(ts);
    assert file[start + at..start + at + |b|] == DataBytes(ts)[at..at + |b|];
    AtSplit(file, start + at, Words(ts[i].data, 4), Zeros(Pad(4 * |ts[i].data|)));
    forall j | i < j < |ts| ensures Offset(ts[..i]) + 4 * |ts[i].data| <= Offset(ts[..j]) { OffsetGrows(ts, i, j); }
  }

  // ---- The loops ----

  method WriteKVs(kvs: seq<OutKV>) returns (b: Bytes)
    ensures b == KVsBytes(kvs)
  {
    hide KVBytes;
    b := [];
    assert kvs[0..] == kvs;
    for i := 0 to |kvs|
      invariant b + KVsBytes(kvs[i..]) == KVsBytes(kvs)
    {
      assert kvs[i..][1..] == kvs[i + 1..];
      Associates(b, KVBytes(kvs[i]), KVsBytes(kvs[i + 1..]));
      b := b + KVBytes(kvs[i]);
    }
    assert b + [] == b;
  }

  method WriteInfos(ts: seq<OutTensor>) returns (b: Bytes)
    ensures b == InfosBytes(ts, 0)
  {
    hide InfoBytes;
    b := [];
    var offset := 0;
    assert ts[0..] == ts;
    for i := 0 to |ts|
      invariant offset >= 0 && b + InfosBytes(ts[i..], offset) == InfosBytes(ts, 0)
    {
      assert ts[i..][1..] == ts[i + 1..];
      Associates(b, InfoBytes(ts[i], offset), InfosBytes(ts[i + 1..], offset + Size(ts[i])));
      b := b + InfoBytes(ts[i], offset);
      offset := offset + 4 * |ts[i].data| + Pad(4 * |ts[i].data|);
    }
    assert b + [] == b;
  }

  lemma Regrouped(a: Bytes, b: Bytes, c: Bytes, d: Bytes, e: Bytes, f: Bytes)
    ensures ((((a + b) + c) + d) + e) + f == a + (b + (c + (d + (e + f))))
  {}

  method WriteFile(kvs: seq<OutKV>, ts: seq<OutTensor>) returns (b: Bytes)
    ensures b == FileBytes(kvs, ts)
  {
    hide KVsBytes, InfosBytes, TensorBytes, LE, Pad, Zeros;
    var entries := WriteKVs(kvs);
    var infos := WriteInfos(ts);
    b := MAGIC + LE(3, 4) + LE(|ts|, 8) + LE(|kvs|, 8) + entries + infos;
    Regrouped(MAGIC, LE(3, 4), LE(|ts|, 8), LE(|kvs|, 8), entries, infos);
    b := b + Zeros(Pad(|b|));
    ghost var front := b;
    assert ts[0..] == ts;
    for i := 0 to |ts|
      invariant b + DataBytes(ts[i..]) == front + DataBytes(ts)
    {
      assert ts[i..][1..] == ts[i + 1..];
      Associates(b, TensorBytes(ts[i]), DataBytes(ts[i + 1..]));
      b := b + TensorBytes(ts[i]);
    }
    assert b + [] == b;
  }

  method LoopKVs(data: Bytes, pos: nat, n: nat) returns (r: Parse<Metadata>)
    ensures r == ReadKVs(data, pos, n, map[])
  {
    hide ReadKV;
    var kv: Metadata := map[];
    var p := pos;
    for i := 0 to n
      invariant p >= 0 && ReadKVs(data, p, n - i, kv) == ReadKVs(data, pos, n, map[])
    {
      var entry := ReadKV(data, p, kv);
      if entry.Fail? { return Fail; }
      kv, p := entry.value, entry.pos;
    }
    r := Ok(kv, p);
  }

  method LoopInfos(data: Bytes, pos: nat, n: nat) returns (r: Parse<seq<RawInfo>>)
    ensures r == ReadInfos(data, pos, n)
  {
    hide ReadInfo;
    var infos: seq<RawInfo> := [];
    var p := pos;
    PrependNone(ReadInfos(data, pos, n));
    for i := 0 to n
      invariant p >= 0 && Prepend(infos, ReadInfos(data, p, n - i)) == ReadInfos(data, pos, n)
    {
      var info := ReadInfo(data, p);
      if info.Fail? { return Fail; }
      PrependMore(infos, info.value, ReadInfos(data, info.pos, n - i - 1));
      infos, p := infos + [info.value], info.pos;
    }
    assert infos + [] == infos;
    r := Ok(infos, p);
  }

  method LoadHeader(data: Bytes) returns (r: Parse<Header>)
    ensures r == ReadHeader(data)
  {
    hide ReadKVs, ReadInfos, Number;
    if |data| < 24 || data[..4] != MAGIC { return Fail; }
    var tensors, kvs := Number(data[8..16]), Number(data[16..24]);
    if tensors > MAX_TENSORS || kvs > MAX_KV { return Fail; }
    var version := Number(data[4..8]);
    if version < 2 || version > 3 { return Fail; }
    var kv := LoopKVs(data, 24, kvs);
    if kv.Fail? { return Fail; }
    var infos := LoopInfos(data, kv.pos, tensors);
    if infos.Fail? { return Fail; }
    r := Ok(Header(kv.value, infos.value), infos.pos);
  }
}
