/** Sky.Core.Array: a persistent vector, a 32-way trie of full blocks with a separate tail. */
module Trie {
  // Every array is shown equal to a canonical form that its contents alone determine.

  import opened Arithmetic
  import opened Basics

  /** One of the 32 slots of a node: nothing, an element (in a leaf) or a node below. */
  datatype Slot<T> = Nil | Elem(x: T) | Kid(node: Node<T>)
  datatype Node<T> = Node(kids: seq<Slot<T>>)
  datatype Vector<T> = Vector(cnt: nat, shift: nat, root: Option<Node<T>>, tail: seq<Slot<T>>)

  /** The empty array is no vector at all. */
  type Array<T> = Option<Vector<T>>

  const WIDTH := 32
  const BITS := 5

  function Pow2(n: nat): (p: nat)
    ensures p > 0
  {
    if n == 0 then 1 else 2 * Pow2(n - 1)
  }

  /** (i >> level) & 31 */
  function Digit(i: nat, level: nat): (d: nat)
    ensures d < WIDTH
  {
    (i / Pow2(level)) % WIDTH
  }

  /** Nodes are arrays of 32 slots. */
  predicate Wide<T>(n: Node<T>) {
    |n.kids| == WIDTH && forall k :: 0 <= k < WIDTH ==> n.kids[k].Kid? ==> Wide(n.kids[k].node)
  }

  function Blank<T>(): (n: Node<T>)
    ensures |n.kids| == WIDTH && forall k :: 0 <= k < WIDTH ==> n.kids[k] == Nil
  {
    Node(seq(WIDTH, _ => Nil))
  }

  // ---- The operations on nodes ----

  function NewPath<T>(level: nat, n: Node<T>): Node<T>
    requires level % BITS == 0
  {
    if level == 0 then n else Node(Blank<T>().kids[0 := Kid(NewPath(level - BITS, n))])
  }

  function PushTail<T>(cnt: nat, level: nat, parent: Option<Node<T>>, tailNode: Node<T>): Node<T>
    requires cnt > 0 && level > 0 && level % BITS == 0
    requires parent.Some? ==> Wide(parent.value)
    decreases level
  {
    var kids := if parent.Some? then parent.value.kids else Blank<T>().kids;
    var sub := Digit(cnt - 1, level);
    if level == BITS then Node(kids[sub := Kid(tailNode)])
    else if parent.Some? && kids[sub].Kid?
    then Node(kids[sub := Kid(PushTail(cnt, level - BITS, Some(kids[sub].node), tailNode))])
    else Node(kids[sub := Kid(NewPath(level - BITS, tailNode))])
  }

  /** None stands for the panic of following a slot that holds no node. */
  function Assoc<T>(level: nat, n: Node<T>, i: nat, x: T): Option<Node<T>>
    requires level % BITS == 0 && Wide(n)
  {
    if level == 0 then Some(Node(n.kids[i % WIDTH := Elem(x)])) else
    var sub := Digit(i, level);
    if !n.kids[sub].Kid? then None else
    match Assoc(level - BITS, n.kids[sub].node, i, x)
    case None => None
    case Some(kid) => Some(Node(n.kids[sub := Kid(kid)]))
  }

  function Descend<T>(level: nat, n: Node<T>, i: nat): Option<Node<T>>
    requires level % BITS == 0 && Wide(n)
  {
    if level == 0 then Some(n)
    else if !n.kids[Digit(i, level)].Kid? then None
    else Descend(level - BITS, n.kids[Digit(i, level)].node, i)
  }

  // ---- The operations on arrays ----

  /** What every operation asks of an array. */
  ghost predicate Sound<T>(t: Array<T>) {
    t.Some? ==> t.value.shift > 0 && t.value.shift % BITS == 0 && (t.value.root.Some? ==> Wide(t.value.root.value))
  }

  function Length<T>(t: Array<T>): nat {
    if t.None? then 0 else t.value.cnt
  }

  /** The index where the tail starts. */
  function TailOff(cnt: nat): (off: nat)
    ensures off <= cnt && off % WIDTH == 0
  {
    if cnt < WIDTH then 0 else
    var full := (cnt - 1) / WIDTH;
    full * WIDTH
  }

  function Push<T>(t: Array<T>, x: T): Array<T>
    requires Sound(t)
  {
    if t.None? || t.value.cnt == 0 then Some(Vector(1, BITS, None, [Elem(x)])) else
    var v := t.value;
    if v.cnt - TailOff(v.cnt) < WIDTH then
      Some(Vector(v.cnt + 1, v.shift, v.root, v.tail + [Elem(x)]))
    else
      var tailNode := Node(v.tail);
      if v.cnt / WIDTH > Pow2(v.shift) then
        var kid0 := if v.root.Some? then Kid(v.root.value) else Nil;
        var root := Node(Blank<T>().kids[0 := kid0][1 := Kid(NewPath(v.shift, tailNode))]);
        Some(Vector(v.cnt + 1, v.shift + BITS, Some(root), [Elem(x)]))
      else
        Some(Vector(v.cnt + 1, v.shift, Some(PushTail(v.cnt, v.shift, v.root, tailNode)), [Elem(x)]))
  }

  /** The outer None stands for a panic. */
  function Set<T>(t: Array<T>, i: int, x: T): Option<Array<T>>
    requires Sound(t)
  {
    if t.None? || i < 0 || i >= t.value.cnt then Some(t) else
    var v := t.value;
    if i >= TailOff(v.cnt) then
      if i % WIDTH >= |v.tail| then None else Some(Some(v.(tail := v.tail[i % WIDTH := Elem(x)])))
    else if v.root.None? then None
    else match Assoc(v.shift, v.root.value, i, x)
         case None => None
         case Some(root) => Some(Some(v.(root := Some(root))))
  }

  // ---- The canonical form ----

  function Elems<T>(s: seq<T>): (slots: seq<Slot<T>>)
    ensures |slots| == |s| && forall k :: 0 <= k < |s| ==> slots[k] == Elem(s[k])
  {
    seq(|s|, k requires 0 <= k < |s| => Elem(s[k]))
  }

  /** The elements below slot k of a node over s whose slots are w elements wide. */
  function Part<T>(s: seq<T>, k: nat, w: nat): (p: seq<T>)
    ensures |p| <= w
  {
    if k * w >= |s| then [] else s[k * w..Min(k * w + w, |s|)]
  }

  /** The node at a level that holds s: every block at its radix position, every other slot empty. */
  function Build<T>(level: nat, s: seq<T>): (n: Node<T>)
    requires level % BITS == 0
    ensures |n.kids| == WIDTH
    decreases level, 1
  {
    Node(seq(WIDTH, k requires 0 <= k < WIDTH => SlotOf(level, s, k)))
  }

  function SlotOf<T>(level: nat, s: seq<T>, k: nat): Slot<T>
    requires level % BITS == 0
    decreases level, 0
  {
    var p := Part(s, k, Pow2(level));
    if p == [] then Nil else if level == 0 then Elem(p[0]) else Kid(Build(level - BITS, p))
  }

  /** t is the canonical array of s. Its shape is a function of |s|. */
  ghost predicate Holds<T>(t: Array<T>, s: seq<T>) {
    if s == [] then t == None else
    t.Some?
    && var v, off := t.value, TailOff(|s|);
       v.cnt == |s| && v.tail == Elems(s[off..])
       && v.shift > 0 && v.shift % BITS == 0
       && off <= Pow2(v.shift + BITS) && (v.shift > BITS ==> Pow2(v.shift) < off)
       && v.root == if off == 0 then None else Some(Build(v.shift, s[..off]))
  }

  // ---- Radix arithmetic ----

  lemma Pow2Zero()
    ensures Pow2(0) == 1
  {}

  lemma Pow2Step(level: nat)
    ensures Pow2(level + BITS) == WIDTH * Pow2(level)
  {
    assert Pow2(level + 1) == 2 * Pow2(level);
    assert Pow2(level + 2) == 2 * Pow2(level + 1);
    assert Pow2(level + 3) == 2 * Pow2(level + 2);
    assert Pow2(level + 4) == 2 * Pow2(level + 3);
    assert Pow2(level + 5) == 2 * Pow2(level + 4);
  }

  /** The digit of i at a level is the slot, and the remainder the offset below it, of i's place in its node. */
  lemma Radix(i: nat, w: nat)
    requires w > 0
    ensures WIDTH * w > 0 && i % (WIDTH * w) / w == i / w % WIDTH && i % (WIDTH * w) % w == i % w
    ensures i % (WIDTH * w) == (i / w % WIDTH) * w + i % w
  {
    DivDiv(i, WIDTH, w);
  }

  lemma PartSlot<T>(s: seq<T>, j: nat, w: nat)
    requires w > 0 && j < |s|
    ensures var p := Part(s, j / w, w); j % w < |p| && p[j % w] == s[j]
  {
    DivMod(j, w);
  }

  /** Slots before and after the one that holds j do not see it. */
  lemma OtherSlot(j: nat, k: nat, w: nat)
    requires w > 0 && k != j / w
    ensures k < j / w ==> k * w + w <= j
    ensures k > j / w ==> j < k * w
  {
    DivMod(j, w);
    if k < j / w {
      MulLe(k + 1, j / w, w);
      MulNext(k, w);
    } else {
      MulLe(j / w + 1, k, w);
      MulNext(j / w, w);
    }
  }

  lemma PartSet<T>(s: seq<T>, j: nat, x: T, w: nat)
    requires w > 0 && j < |s|
    ensures j % w < |Part(s, j / w, w)| && Part(s[j := x], j / w, w) == Part(s, j / w, w)[j % w := x]
  {
    PartSlot(s, j, w);
    DivMod(j, w);
  }

  lemma PartUnset<T>(s: seq<T>, j: nat, x: T, k: nat, w: nat)
    requires w > 0 && j < |s| && k != j / w
    ensures Part(s[j := x], k, w) == Part(s, k, w)
  {
    OtherSlot(j, k, w);
    if k * w < |s| { SliceUnset(s, j, x, k * w, Min(k * w + w, |s|)); }
  }

  lemma SliceUnset<T>(s: seq<T>, j: nat, x: T, from: nat, to: nat)
    requires j < |s| && from <= to <= |s| && (j < from || to <= j)
    ensures s[j := x][from..to] == s[from..to]
  {}

  // ---- The operations on canonical nodes ----

  lemma {:induction false} BuildWide<T>(level: nat, s: seq<T>)
    requires level % BITS == 0
    ensures Wide(Build(level, s))
    decreases level
  {
    hide Part;
    var n := Build(level, s);
    forall k | 0 <= k < WIDTH && n.kids[k].Kid? ensures Wide(n.kids[k].node) {
      assert n.kids[k] == SlotOf(level, s, k) && level > 0;
      BuildWide(level - BITS, Part(s, k, Pow2(level)));
    }
  }

  lemma BuildKids<T>(level: nat, s: seq<T>)
    requires level % BITS == 0
    ensures Wide(Build(level, s))
    ensures forall k :: 0 <= k < WIDTH ==> Build(level, s).kids[k] == SlotOf(level, s, k)
  {
    BuildWide(level, s);
  }

  /** Contents that differ in one slot build nodes that differ in that slot. */
  lemma BuildSet<T>(level: nat, s: seq<T>, s': seq<T>, d: nat)
    requires level % BITS == 0 && d < WIDTH
    requires forall k :: 0 <= k < WIDTH && k != d ==> Part(s', k, Pow2(level)) == Part(s, k, Pow2(level))
    ensures Build(level, s') == Node(Build(level, s).kids[d := SlotOf(level, s', d)])
  {
    hide Part;
    var n, n' := Build(level, s), Build(level, s');
    forall k | 0 <= k < WIDTH ensures n'.kids[k] == n.kids[d := SlotOf(level, s', d)][k] {
      if k != d { assert SlotOf(level, s', k) == SlotOf(level, s, k); }
    }
    assert n'.kids == n.kids[d := SlotOf(level, s', d)];
  }

  lemma {:induction false} AssocBuild<T>(level: nat, s: seq<T>, i: nat, x: T)
    requires level % BITS == 0 && i % (WIDTH * Pow2(level)) < |s| <= WIDTH * Pow2(level)
    ensures Wide(Build(level, s))
    ensures Assoc(level, Build(level, s), i, x) == Some(Build(level, s[i % (WIDTH * Pow2(level)) := x]))
    decreases level, 1
  {
    hide Build, Part, Wide, Pow2;
    var w := Pow2(level);
    var j, d := i % (WIDTH * w), Digit(i, level);
    BuildKids(level, s);
    Radix(i, w);
    PartSet(s, j, x, w);
    PartSlot(s, j, w);
    forall k | 0 <= k < WIDTH && k != d ensures Part(s[j := x], k, w) == Part(s, k, w) {
      PartUnset(s, j, x, k, w);
    }
    BuildSet(level, s, s[j := x], d);
    AssocKid(level, s, s[j := x], i, x, d);
  }

  lemma AssocStep<T>(level: nat, n: Node<T>, i: nat, x: T, kid: Node<T>, kid': Node<T>)
    requires level > 0 && level % BITS == 0 && Wide(n) && Wide(kid)
    requires n.kids[Digit(i, level)] == Kid(kid) && Assoc(level - BITS, kid, i, x) == Some(kid')
    ensures Assoc(level, n, i, x) == Some(Node(n.kids[Digit(i, level) := Kid(kid')]))
  {
    hide Wide, Digit;
  }

  /** The slot that changes. */
  lemma {:induction false} AssocKid<T>(level: nat, s: seq<T>, s': seq<T>, i: nat, x: T, d: nat)
    requires level % BITS == 0 && d == Digit(i, level)
    requires var p := Part(s, d, Pow2(level)); i % Pow2(level) < |p| && Part(s', d, Pow2(level)) == p[i % Pow2(level) := x]
    ensures Wide(Build(level, s))
    ensures Assoc(level, Build(level, s), i, x) == Some(Node(Build(level, s).kids[d := SlotOf(level, s', d)]))
    decreases level, 0
  {
    hide Build, Part, Wide, Pow2, Assoc, SlotOf;
    BuildKids(level, s);
    if level == 0 {
      Pow2Zero();
      assert i % 1 == 0;
      AssocLeaf(s, s', i, x);
    } else {
      hide Digit;
      Pow2Step(level - BITS);
      var p := Part(s, d, Pow2(level));
      AssocBuild(level - BITS, p, i, x);
      SlotKid(level, s, d);
      SlotKid(level, s', d);
      AssocStep(level, Build(level, s), i, x, Build(level - BITS, p), Build(level - BITS, p[i % Pow2(level) := x]));
    }
  }

  lemma SlotKid<T>(level: nat, s: seq<T>, k: nat)
    requires level > 0 && level % BITS == 0 && Part(s, k, Pow2(level)) != []
    ensures SlotOf(level, s, k) == Kid(Build(level - BITS, Part(s, k, Pow2(level))))
  {}

  lemma AssocLeaf<T>(s: seq<T>, s': seq<T>, i: nat, x: T)
    requires var p := Part(s, Digit(i, 0), 1); |p| > 0 && Part(s', Digit(i, 0), 1) == p[0 := x]
    ensures Wide(Build(0, s))
    ensures Assoc(0, Build(0, s), i, x) == Some(Node(Build(0, s).kids[Digit(i, 0) := SlotOf(0, s', Digit(i, 0))]))
  {
    hide Build, Part, Wide;
    BuildKids(0, s);
    Pow2Zero();
  }

  lemma SliceSlice<T>(s: seq<T>, from: nat, to: nat, a: nat, b: nat)
    requires from <= to <= |s| && a <= b <= to - from
    ensures s[from..to][a..b] == s[from + a..from + b]
  {
    var p, q := s[from..to], s[from + a..from + b];
    assert |p[a..b]| == |q|;
    forall k | 0 <= k < b - a ensures p[a..b][k] == q[k] {
      assert p[a..b][k] == p[a + k] == s[from + (a + k)];
    }
  }

  /** A block of 32 inside a part is a block of the whole. */
  lemma PartOfPart<T>(s: seq<T>, d: nat, c: nat, m: nat)
    requires m < c
    ensures Part(Part(s, d, c * WIDTH), m, WIDTH) == Part(s, d * c + m, WIDTH)
  {
    var w := c * WIDTH;
    var from, p := d * w, Part(s, d, w);
    Reassociate(d, c);
    assert (d * c + m) * WIDTH == from + m * WIDTH;
    if from < |s| {
      var to := Min(from + w, |s|);
      if m * WIDTH < |p| {
        SliceSlice(s, from, to, m * WIDTH, Min(m * WIDTH + WIDTH, |p|));
      }
    }
  }

  lemma Reassociate(d: nat, c: nat)
    ensures d * (c * WIDTH) == d * c * WIDTH
  {}

  lemma {:induction false} DescendBuild<T>(level: nat, s: seq<T>, i: nat)
    requires level % BITS == 0 && i % (WIDTH * Pow2(level)) < |s| <= WIDTH * Pow2(level)
    ensures Wide(Build(level, s))
    ensures Descend(level, Build(level, s), i) == Some(Build(0, Part(s, i % (WIDTH * Pow2(level)) / WIDTH, WIDTH)))
    decreases level
  {
    hide Build, Wide;
    BuildKids(level, s);
    if level == 0 {
      assert Part(s, 0, WIDTH) == s;
    } else {
      DescendStep(level, s, i);
    }
  }

  lemma {:induction false} DescendStep<T>(level: nat, s: seq<T>, i: nat)
    requires level > 0 && level % BITS == 0 && i % (WIDTH * Pow2(level)) < |s| <= WIDTH * Pow2(level)
    ensures Wide(Build(level, s))
    ensures Descend(level, Build(level, s), i) == Some(Build(0, Part(s, i % (WIDTH * Pow2(level)) / WIDTH, WIDTH)))
    decreases level, 0
  {
    hide Build, Part, Wide, Pow2;
    BuildKids(level, s);
    var w := Pow2(level);
    var j, d, r := i % (WIDTH * w), Digit(i, level), i % w;
    Radix(i, w);
    PartSlot(s, j, w);
    Pow2Step(level - BITS);
    var c := Pow2(level - BITS);
    DescendBuild(level - BITS, Part(s, d, w), i);
    PartOfPart(s, d, c, r / WIDTH);
    BlockIndex(d, c, r);
  }

  lemma BlockIndex(d: nat, c: nat, r: nat)
    requires r < c * WIDTH
    ensures r / WIDTH < c && (d * (c * WIDTH) + r) / WIDTH == d * c + r / WIDTH
  {
    Reassociate(d, c);
    DivUnique(d * c * WIDTH + r, WIDTH, d * c + r / WIDTH, r % WIDTH);
  }

  lemma {:induction false} NewPathBuild<T>(level: nat, b: seq<T>)
    requires level % BITS == 0 && |b| == WIDTH
    ensures NewPath(level, Build(0, b)) == Build(level, b)
    decreases level
  {
    if level > 0 {
      NewPathBuild(level - BITS, b);
      Pow2Step(level - BITS);
      var w := Pow2(level);
      assert Part(b, 0, w) == b;
      forall k | 0 < k < WIDTH ensures Part(b, k, w) == [] { MulLe(1, k, w); }
      assert NewPath(level, Build(0, b)).kids == Build(level, b).kids;
    }
  }

  /** Where a block of 32 lands when it is pushed behind len elements, a whole number of blocks. */
  lemma NextBlock(len: nat, c: nat)
    requires c > 0 && len % WIDTH == 0
    ensures var w := c * WIDTH;
            len == len / w * w + len % w && len % w + WIDTH <= w && len % w % WIDTH == 0
            && (len + WIDTH - 1) / w == len / w && (len + WIDTH - 1) % w == len % w + WIDTH - 1
  {
    var w := c * WIDTH;
    var q, r := len / w, len % w;
    DivMod(len, w);
    Reassociate(q, c);
    assert r == (len / WIDTH - q * c) * WIDTH;
    DivUnique(len + WIDTH - 1, w, q, r + WIDTH - 1);
  }

  /** A block b pushed behind s falls in the slot after the full ones. */
  lemma PartPush<T>(s: seq<T>, b: seq<T>, k: nat, c: nat)
    requires c > 0 && |s| % WIDTH == 0 && |b| == WIDTH
    ensures var w := c * WIDTH;
            Part(s + b, k, w) == Part(s, k, w) + (if k == |s| / w then b else [])
    ensures k == |s| / (c * WIDTH) ==> |Part(s, k, c * WIDTH)| == |s| % (c * WIDTH)
  {
    var w := c * WIDTH;
    NextBlock(|s|, c);
    var q := |s| / w;
    if k < q {
      MulLe(k + 1, q, w);
      MulNext(k, w);
    } else if k > q {
      MulLe(q + 1, k, w);
      MulNext(q, w);
    } else if |s| % w > 0 {
      assert Part(s, k, w) == s[k * w..];
      assert Part(s + b, k, w) == (s + b)[k * w..];
    }
  }

  /** Of the w places n is among, the first len are taken, and a block pushed behind them ends at n. */
  ghost predicate Lands(n: nat, w: nat, len: nat) { w > 0 && n % w == len + WIDTH - 1 }

  lemma PushParts<T>(n: nat, s: seq<T>, b: seq<T>, w: nat, c: nat)
    requires c > 0 && w == c * WIDTH && |s| % WIDTH == 0 && |b| == WIDTH && Lands(n, WIDTH * w, |s|)
    ensures var sub := n / w % WIDTH;
            (forall k :: 0 <= k < WIDTH ==> Part(s + b, k, w) == Part(s, k, w) + (if k == sub then b else []))
            && |Part(s, sub, w)| % WIDTH == 0 && Lands(n, w, |Part(s, sub, w)|)
  {
    hide Part;
    Radix(n, w);
    NextBlock(|s|, c);
    var sub := n / w % WIDTH;
    assert sub == |s| / w;
    forall k | 0 <= k < WIDTH ensures Part(s + b, k, w) == Part(s, k, w) + (if k == sub then b else []) {
      PartPush(s, b, k, c);
    }
    PartPush(s, b, sub, c);
  }

  /** Only slot sub changes when b is pushed behind s, and it changes from p to p + b. */
  lemma PushedSlot<T>(cnt: nat, level: nat, s: seq<T>, b: seq<T>, sub: nat)
    requires cnt > 0 && level > 0 && level % BITS == 0 && |s| % WIDTH == 0 && |b| == WIDTH && sub == Digit(cnt - 1, level)
    requires Lands(cnt - 1, WIDTH * Pow2(level), |s|)
    ensures var p := Part(s, sub, Pow2(level));
            Lands(cnt - 1, Pow2(level), |p|) && |p| % WIDTH == 0 && Part(s + b, sub, Pow2(level)) == p + b
    ensures Build(level, s + b) == Node(Build(level, s).kids[sub := SlotOf(level, s + b, sub)])
  {
    hide Build, Part, Pow2, SlotOf, Digit, Lands;
    PushedParts(cnt, level, s, b, sub);
    PartsUnset(s, b, Pow2(level), sub);
    BuildSet(level, s, s + b, sub);
  }

  lemma PushedParts<T>(cnt: nat, level: nat, s: seq<T>, b: seq<T>, sub: nat)
    requires cnt > 0 && level > 0 && level % BITS == 0 && |s| % WIDTH == 0 && |b| == WIDTH && sub == Digit(cnt - 1, level)
    requires Lands(cnt - 1, WIDTH * Pow2(level), |s|)
    ensures var w := Pow2(level);
            (forall k :: 0 <= k < WIDTH ==> Part(s + b, k, w) == Part(s, k, w) + (if k == sub then b else []))
            && |Part(s, sub, w)| % WIDTH == 0 && Lands(cnt - 1, w, |Part(s, sub, w)|)
  {
    hide Part, Pow2, Lands;
    Pow2Step(level - BITS);
    PushParts(cnt - 1, s, b, Pow2(level), Pow2(level - BITS));
  }

  lemma PartsUnset<T>(s: seq<T>, b: seq<T>, w: nat, sub: nat)
    requires forall k :: 0 <= k < WIDTH ==> Part(s + b, k, w) == Part(s, k, w) + (if k == sub then b else [])
    ensures forall k :: 0 <= k < WIDTH && k != sub ==> Part(s + b, k, w) == Part(s, k, w)
  {
    hide Part;
    forall k | 0 <= k < WIDTH && k != sub ensures Part(s + b, k, w) == Part(s, k, w) {
      assert Part(s, k, w) + [] == Part(s, k, w);
    }
  }

  lemma {:induction false} PushTailBuild<T>(cnt: nat, level: nat, s: seq<T>, b: seq<T>)
    requires level > 0 && level % BITS == 0 && |s| % WIDTH == 0 && |b| == WIDTH
    requires cnt > 0 && Lands(cnt - 1, WIDTH * Pow2(level), |s|)
    ensures Wide(Build(level, s))
    ensures PushTail(cnt, level, Some(Build(level, s)), Build(0, b)) == Build(level, s + b)
    decreases level, 1
  {
    hide Build, Part, Wide, Pow2, Digit, Lands;
    BuildKids(level, s);
    var sub := Digit(cnt - 1, level);
    var p := Part(s, sub, Pow2(level));
    PushedSlot(cnt, level, s, b, sub);
    PushTailKid(cnt, level, p, b);
    assert p == [] ==> p + b == b;
  }

  /** What becomes of the slot: a new path, or the node below with the block pushed. */
  lemma {:induction false} PushTailKid<T>(cnt: nat, level: nat, p: seq<T>, b: seq<T>)
    requires level > 0 && level % BITS == 0 && |p| % WIDTH == 0 && |b| == WIDTH
    requires cnt > 0 && Lands(cnt - 1, Pow2(level), |p|)
    ensures p == [] ==> NewPath(level - BITS, Build(0, b)) == Build(level - BITS, b)
    ensures p != [] ==> level > BITS && Wide(Build(level - BITS, p))
                        && PushTail(cnt, level - BITS, Some(Build(level - BITS, p)), Build(0, b)) == Build(level - BITS, p + b)
    decreases level, 0
  {
    hide Build, Wide, Pow2, PushTail, NewPath, Digit, Part, SlotOf, Lands;
    if p == [] {
      NewPathBuild(level - BITS, b);
    } else {
      RoomBelow(cnt - 1, level, |p|);
      PushTailBuild(cnt, level - BITS, p, b);
    }
  }

  /** A node that holds something and has room for a block is above the lowest inner level. */
  lemma RoomBelow(n: nat, level: nat, len: nat)
    requires level > 0 && level % BITS == 0 && len > 0 && Lands(n, Pow2(level), len)
    ensures level > BITS && Lands(n, WIDTH * Pow2(level - BITS), len)
  {
    hide Pow2;
    Pow2Step(level - BITS);
    Pow2Zero();
    DivMod(n, WIDTH);
  }

  // ---- The operations on canonical arrays ----

  lemma LeafOf<T>(b: seq<T>)
    requires |b| == WIDTH
    ensures Node(Elems(b)) == Build(0, b)
  {
    BuildKids(0, b);
    forall k | 0 <= k < WIDTH ensures SlotOf(0, b, k) == Elem(b[k]) {
      Pow2Zero();
      assert Part(b, k, 1) == [b[k]];
    }
    assert Elems(b) == Build(0, b).kids;
  }

  lemma BuildNothing<T>(level: nat)
    requires level % BITS == 0
    ensures Build<T>(level, []).kids == Blank<T>().kids
  {
    BuildKids<T>(level, []);
    assert forall k :: 0 <= k < WIDTH ==> SlotOf<T>(level, [], k) == Nil;
  }

  /** A full trie and one more block: the old root and a new path under a new root. */
  lemma GrowRoot<T>(shift: nat, s: seq<T>, b: seq<T>)
    requires shift % BITS == 0 && |s| == Pow2(shift + BITS) && |b| == WIDTH
    ensures Node(Blank<T>().kids[0 := Kid(Build(shift, s))][1 := Kid(NewPath(shift, Node(Elems(b))))])
         == Build(shift + BITS, s + b)
  {
    hide Build, Part, Elems, NewPath, Pow2;
    var level, w := shift + BITS, Pow2(shift + BITS);
    LeafOf(b);
    NewPathBuild(shift, b);
    BuildKids(level, s + b);
    Pow2Step(shift);
    GrownParts(s, b, w);
    var n := Node(Blank<T>().kids[0 := Kid(Build(shift, s))][1 := Kid(Build(shift, b))]);
    assert n.kids == Build(level, s + b).kids;
  }

  lemma GrownParts<T>(s: seq<T>, b: seq<T>, w: nat)
    requires |s| == w >= |b| == WIDTH
    ensures Part(s + b, 0, w) == s && Part(s + b, 1, w) == b
    ensures forall k :: 2 <= k < WIDTH ==> Part(s + b, k, w) == []
  {
    assert (s + b)[..w] == s && (s + b)[w..] == b;
    forall k | 2 <= k < WIDTH ensures Part(s + b, k, w) == [] { MulLe(2, k, w); }
  }

  lemma TailOffNext(cnt: nat)
    requires cnt > 0
    ensures cnt - TailOff(cnt) < WIDTH ==> TailOff(cnt + 1) == TailOff(cnt)
    ensures cnt - TailOff(cnt) >= WIDTH ==> cnt == TailOff(cnt) + WIDTH && TailOff(cnt + 1) == cnt
    ensures cnt > TailOff(cnt)
  {}

  lemma HoldsSound<T>(t: Array<T>, s: seq<T>)
    requires Holds(t, s)
    ensures Sound(t) && Length(t) == |s|
  {
    if s != [] { BuildWide(t.value.shift, s[..TailOff(|s|)]); }
  }

  /** push appends. */
  lemma PushHolds<T>(t: Array<T>, s: seq<T>, x: T)
    requires Holds(t, s)
    ensures Sound(t) && Holds(Push(t, x), s + [x])
  {
    HoldsSound(t, s);
    if s == [] {
      hide Build, Pow2, Elems;
      ElemsAppend([], x);
      Pow2Positive(BITS + BITS);
      assert [] + [x] == [x];
    } else if |s| - TailOff(|s|) < WIDTH {
      hide Push, Holds;
      PushInTail(t.value, s, x);
    } else {
      hide Push, Holds;
      PushPastTail(t.value, s, x);
    }
  }

  /** The tail has room. */
  lemma PushInTail<T>(v: Vector<T>, s: seq<T>, x: T)
    requires s != [] && Holds(Some(v), s) && Sound(Some(v)) && |s| - TailOff(|s|) < WIDTH
    ensures Holds(Push(Some(v), x), s + [x])
  {
    hide Build, Wide, Pow2, Elems, PushTail, TailOff;
    var off := TailOff(|s|);
    TailOffNext(|s|);
    ElemsAppend(s[off..], x);
    assert (s + [x])[..off] == s[..off] && (s + [x])[off..] == s[off..] + [x];
  }

  /** The tail is full and goes into the trie. */
  lemma PushPastTail<T>(v: Vector<T>, s: seq<T>, x: T)
    requires s != [] && Holds(Some(v), s) && Sound(Some(v)) && |s| - TailOff(|s|) >= WIDTH
    ensures Holds(Push(Some(v), x), s + [x])
  {
    hide Build, Wide, Pow2, Elems, PushTail, TailOff, Push;
    var off := TailOff(|s|);
    TailOffNext(|s|);
    assert s == s[..off] + s[off..];
    PushBlock(v, s[..off], s[off..], x);
    ElemsAppend([], x);
    assert [] + [x] == [x] && (s + [x])[..|s|] == s && (s + [x])[|s|..] == [x];
  }

  lemma ElemsAppend<T>(s: seq<T>, x: T)
    ensures Elems(s + [x]) == Elems(s) + [Elem(x)]
    ensures Elems<T>([]) == []
  {}

  lemma Pow2Positive(n: nat)
    ensures Pow2(n) >= 1
  {}

  /** The trie of v holds a, at the shift its length calls for. */
  ghost predicate Rooted<T>(v: Vector<T>, a: seq<T>) {
    v.shift > 0 && v.shift % BITS == 0 && |a| <= Pow2(v.shift + BITS) && (v.shift > BITS ==> Pow2(v.shift) < |a|)
    && v.root == if |a| == 0 then None else Some(Build(v.shift, a))
  }

  lemma FullTail(n: nat, w: nat)
    requires n % WIDTH == 0
    ensures TailOff(n + WIDTH) == n
    ensures (n + WIDTH) / WIDTH > w && n <= WIDTH * w ==> n == WIDTH * w
    ensures (n + WIDTH) / WIDTH <= w ==> n + WIDTH <= WIDTH * w
  {}

  /** The tail is full: it becomes a block of the trie, under a new root when the old one is full too. */
  lemma PushBlock<T>(v: Vector<T>, a: seq<T>, b: seq<T>, x: T)
    requires |a| % WIDTH == 0 && |b| == WIDTH && v.cnt == |a| + WIDTH && v.tail == Elems(b)
    requires Rooted(v, a) && Sound(Some(v))
    ensures var t' := Push(Some(v), x);
            t'.Some? && t'.value.cnt == v.cnt + 1 && t'.value.tail == [Elem(x)] && Rooted(t'.value, a + b)
  {
    hide Build, Wide, Pow2, PushTail, NewPath, Elems, Blank, TailOff;
    FullTail(|a|, Pow2(v.shift));
    Pow2Step(v.shift);
    LeafOf(b);
    if v.cnt / WIDTH > Pow2(v.shift) {
      Pow2Step(v.shift + BITS);
      GrowRoot(v.shift, a, b);
    } else {
      PushUnderRoot(v.cnt, v.shift, v.root, a, b);
    }
  }

  lemma PushUnderRoot<T>(cnt: nat, shift: nat, root: Option<Node<T>>, a: seq<T>, b: seq<T>)
    requires cnt == |a| + WIDTH && |a| % WIDTH == 0 && |b| == WIDTH && shift > 0 && shift % BITS == 0
    requires cnt <= WIDTH * Pow2(shift)
    requires root == if a == [] then None else Some(Build(shift, a))
    requires a == [] ==> shift == BITS
    ensures root.Some? ==> Wide(root.value)
    ensures PushTail(cnt, shift, root, Build(0, b)) == Build(shift, a + b)
  {
    hide Build, Pow2, PushTail, Wide, Elems;
    DivUnique(cnt - 1, WIDTH * Pow2(shift), 0, cnt - 1);
    PushTailBuild(cnt, shift, a, b);
    if a == [] { PushUnderNothing(cnt, Build(0, b)); }
  }

  lemma PushUnderNothing<T>(cnt: nat, n: Node<T>)
    requires cnt > 0 && Wide(Build<T>(BITS, []))
    ensures PushTail(cnt, BITS, None, n) == PushTail(cnt, BITS, Some(Build<T>(BITS, [])), n)
  {
    hide Build, Digit;
    BuildNothing<T>(BITS);
  }

  lemma IndexInTail(cnt: nat, i: nat)
    requires TailOff(cnt) <= i < cnt
    ensures i - TailOff(cnt) < WIDTH && i % WIDTH == i - TailOff(cnt)
  {}

  /** set replaces in range, changes nothing out of range, and never meets an empty slot. */
  lemma SetHolds<T>(t: Array<T>, s: seq<T>, i: int, x: T)
    requires Holds(t, s)
    ensures Sound(t)
    ensures var r := Set(t, i, x);
            r.Some? && Holds(r.value, if 0 <= i < |s| then s[i := x] else s)
            && (!(0 <= i < |s|) ==> r.value == t)
  {
    hide Build, Wide, Pow2, Assoc, Elems, TailOff;
    HoldsSound(t, s);
    if 0 <= i < |s| {
      var v, off := t.value, TailOff(|s|);
      var s' := s[i := x];
      if i >= off {
        IndexInTail(|s|, i);
        assert s'[..off] == s[..off] && s'[off..] == s[off..][i - off := x];
        ElemsSet(s[off..], i - off, x);
      } else {
        assert s'[..off] == s[..off][i := x] && s'[off..] == s[off..];
        SetInRoot(v, s[..off], i, x);
      }
    }
  }

  lemma SetInRoot<T>(v: Vector<T>, a: seq<T>, i: nat, x: T)
    requires i < |a| && Rooted(v, a)
    ensures v.root.Some? && Wide(v.root.value)
    ensures Assoc(v.shift, v.root.value, i, x) == Some(Build(v.shift, a[i := x]))
  {
    hide Build, Wide, Pow2, Assoc;
    Pow2Step(v.shift);
    InRoot(i, v.shift);
    AssocBuild(v.shift, a, i, x);
  }

  lemma ElemsSet<T>(s: seq<T>, i: nat, x: T)
    requires i < |s|
    ensures Elems(s[i := x]) == Elems(s)[i := Elem(x)]
  {}

  lemma InRoot(i: nat, shift: nat)
    requires i < Pow2(shift + BITS)
    ensures WIDTH * Pow2(shift) > 0 && i % (WIDTH * Pow2(shift)) == i
  {
    Pow2Step(shift);
    DivUnique(i, WIDTH * Pow2(shift), 0, i);
  }

  lemma {:induction false} Pow2Monotone(a: nat, b: nat)
    requires a <= b
    ensures Pow2(a) <= Pow2(b)
  {
    if a < b { Pow2Monotone(a, b - 1); }
  }

  /** A trie's length calls for one shift. */
  lemma OneShift(off: nat, a: nat, b: nat)
    requires a > 0 && a % BITS == 0 && off <= Pow2(a + BITS) && (a > BITS ==> Pow2(a) < off)
    requires b > 0 && b % BITS == 0 && off <= Pow2(b + BITS) && (b > BITS ==> Pow2(b) < off)
    ensures a == b
  {
    hide Pow2;
    if a < b { Pow2Monotone(a + BITS, b); }
    if b < a { Pow2Monotone(b + BITS, a); }
  }

  /** Equal contents, equal tries: the shape depends on nothing else. */
  lemma HoldsUnique<T>(t: Array<T>, u: Array<T>, s: seq<T>)
    requires Holds(t, s) && Holds(u, s)
    ensures t == u
  {
    hide Build, Elems, TailOff, Pow2;
    if s != [] { OneShift(TailOff(|s|), t.value.shift, u.value.shift); }
  }

  /** The same slots are empty, elements and nodes, all the way down. */
  ghost predicate SameSlots<T, U>(a: Node<T>, b: Node<U>) {
    |a.kids| == |b.kids|
    && forall k :: 0 <= k < |a.kids| ==>
         (a.kids[k].Nil? <==> b.kids[k].Nil?)
         && (a.kids[k].Kid? <==> b.kids[k].Kid?)
         && (a.kids[k].Kid? && b.kids[k].Kid? ==> SameSlots(a.kids[k].node, b.kids[k].node))
  }

  lemma {:induction false} BuildSameSlots<T, U>(level: nat, s: seq<T>, u: seq<U>)
    requires level % BITS == 0 && |s| == |u|
    ensures SameSlots(Build(level, s), Build(level, u))
    decreases level
  {
    hide Part;
    var a, b := Build(level, s), Build(level, u);
    forall k | 0 <= k < WIDTH
      ensures (a.kids[k].Nil? <==> b.kids[k].Nil?) && (a.kids[k].Kid? <==> b.kids[k].Kid?)
      ensures a.kids[k].Kid? && b.kids[k].Kid? ==> SameSlots(a.kids[k].node, b.kids[k].node)
    {
      var p, q := Part(s, k, Pow2(level)), Part(u, k, Pow2(level));
      PartSize(s, u, k, Pow2(level));
      assert a.kids[k] == SlotOf(level, s, k) && b.kids[k] == SlotOf(level, u, k);
      if p != [] && level > 0 { BuildSameSlots(level - BITS, p, q); }
    }
  }

  lemma PartSize<T, U>(s: seq<T>, u: seq<U>, k: nat, w: nat)
    requires |s| == |u|
    ensures |Part(s, k, w)| == |Part(u, k, w)|
  {}

  /** The shape is a function of the length alone: equal lengths, equal depths and the same occupied slots. */
  lemma SameShape<T, U>(t: Array<T>, u: Array<U>, s: seq<T>, s': seq<U>)
    requires Holds(t, s) && Holds(u, s') && |s| == |s'|
    ensures t.Some? == u.Some?
    ensures t.Some? ==> t.value.shift == u.value.shift && |t.value.tail| == |u.value.tail|
                        && t.value.root.Some? == u.value.root.Some?
                        && (t.value.root.Some? ==> SameSlots(t.value.root.value, u.value.root.value))
  {
    hide Build, SameSlots, Elems, TailOff, Pow2;
    if s != [] {
      var off := TailOff(|s|);
      OneShift(off, t.value.shift, u.value.shift);
      BuildSameSlots(t.value.shift, s[..off], s'[..off]);
    }
  }

  /** No two sequences share an array. */
  lemma HoldsInjective<T>(t: Array<T>, s: seq<T>, s': seq<T>)
    requires Holds(t, s) && Holds(t, s')
    ensures s == s'
  {
    if s != [] {
      var v, off := t.value, TailOff(|s|);
      forall i | 0 <= i < |s| ensures s[i] == s'[i] { GetHolds(t, s, i); GetHolds(t, s', i); }
    }
  }

  // ---- Reading ----

  /** The block of 32 that holds index i; the outer None is the panic. */
  function LeafFor<T>(v: Vector<T>, i: nat): Option<seq<Slot<T>>>
    requires v.shift % BITS == 0 && (v.root.Some? ==> Wide(v.root.value))
  {
    if i >= TailOff(v.cnt) then Some(v.tail)
    else if v.root.None? then None
    else match Descend(v.shift, v.root.value, i)
         case None => None
         case Some(n) => Some(n.kids)
  }

  ghost predicate LeafAt<T>(leaf: seq<Slot<T>>, s: seq<T>, at: nat) {
    forall j :: 0 <= j < WIDTH ==> SlotAt(leaf, s, at, j)
  }

  ghost predicate SlotAt<T>(leaf: seq<Slot<T>>, s: seq<T>, at: nat, j: nat) {
    at + j < |s| ==> j < |leaf| && leaf[j] == Elem(s[at + j])
  }

  lemma LeafHolds<T>(t: Array<T>, s: seq<T>, i: nat)
    requires Holds(t, s) && i < |s|
    ensures Sound(t) && LeafFor(t.value, i).Some?
    ensures LeafAt(LeafFor(t.value, i).value, s, i / WIDTH * WIDTH)
  {
    hide Build, Wide, Pow2, Descend, TailOff, LeafAt;
    HoldsSound(t, s);
    var v, off := t.value, TailOff(|s|);
    BlockOf(|s|, i);
    if i >= off {
      LeafOfTail(s, off);
    } else {
      LeafInRoot(v, s[..off], i);
      LeafOfBlock(s, off, i / WIDTH * WIDTH);
    }
  }

  lemma BlockOf(cnt: nat, i: nat)
    requires i < cnt
    ensures i >= TailOff(cnt) ==> i / WIDTH * WIDTH == TailOff(cnt)
    ensures i < TailOff(cnt) ==> i / WIDTH * WIDTH + WIDTH <= TailOff(cnt)
  {}

  lemma LeafOfTail<T>(s: seq<T>, off: nat)
    requires off <= |s|
    ensures LeafAt(Elems(s[off..]), s, off)
  {}

  lemma LeafOfBlock<T>(s: seq<T>, off: nat, at: nat)
    requires at + WIDTH <= off <= |s|
    ensures LeafAt(Elems(s[..off][at..at + WIDTH]), s, at)
  {}

  lemma LeafInRoot<T>(v: Vector<T>, a: seq<T>, i: nat)
    requires i < |a| && |a| % WIDTH == 0 && Rooted(v, a)
    ensures v.root.Some? && Wide(v.root.value)
    ensures var at := i / WIDTH * WIDTH;
            at + WIDTH <= |a| && Descend(v.shift, v.root.value, i) == Some(Node(Elems(a[at..at + WIDTH])))
  {
    hide Build, Wide, Pow2, Descend, Elems, Part;
    Pow2Step(v.shift);
    InRoot(i, v.shift);
    DescendBuild(v.shift, a, i);
    var at := i / WIDTH * WIDTH;
    assert at + WIDTH <= |a|;
    BlockPart(a, i / WIDTH);
    LeafOf(a[at..at + WIDTH]);
  }

  lemma BlockPart<T>(a: seq<T>, m: nat)
    requires m * WIDTH + WIDTH <= |a|
    ensures Part(a, m, WIDTH) == a[m * WIDTH..m * WIDTH + WIDTH]
  {}

  lemma GetHolds<T>(t: Array<T>, s: seq<T>, i: nat)
    requires Holds(t, s) && i < |s|
    ensures Sound(t) && LeafFor(t.value, i).Some?
    ensures var leaf := LeafFor(t.value, i).value; i % WIDTH < |leaf| && leaf[i % WIDTH] == Elem(s[i])
  {
    LeafHolds(t, s, i);
    LeafSlot(LeafFor(t.value, i).value, s, i / WIDTH * WIDTH, i % WIDTH);
  }

  lemma LeafSlot<T>(leaf: seq<Slot<T>>, s: seq<T>, at: nat, j: nat)
    requires LeafAt(leaf, s, at) && j < WIDTH && at + j < |s|
    ensures j < |leaf| && leaf[j] == Elem(s[at + j])
  {
    assert SlotAt(leaf, s, at, j);
  }

  /** leafFor as its loop: one hop for every five bits of the shift, so at most log32 of the length. */
  method FindLeaf<T>(v: Vector<T>, i: nat, ghost s: seq<T>) returns (leaf: seq<Slot<T>>, ghost hops: nat)
    requires Holds(Some(v), s) && i < |s|
    ensures Sound(Some(v)) && LeafFor(v, i) == Some(leaf)
    ensures hops <= v.shift / BITS && (hops > 1 ==> Pow2(BITS * hops) < |s|)
  {
    hide Build, Pow2, Elems, LeafAt, TailOff;
    HoldsSound(Some(v), s);
    LeafHolds(Some(v), s, i);
    if i >= TailOff(v.cnt) {
      return v.tail, 0;
    }
    var n;
    n, hops := FindNode(v.shift, v.root.value, i);
    leaf := n.kids;
    assert BITS * (v.shift / BITS) == v.shift;
  }

  method FindNode<T>(shift: nat, root: Node<T>, i: nat) returns (n: Node<T>, ghost hops: nat)
    requires shift % BITS == 0 && Wide(root) && Descend(shift, root, i).Some?
    ensures Descend(shift, root, i) == Some(n) && hops == shift / BITS
  {
    hide Digit, Descend, Wide;
    n := root;
    var level := shift;
    hops := 0;
    while level > 0
      invariant level >= 0 && level % BITS == 0 && Wide(n)
      invariant shift == level + BITS * hops
      invariant Descend(level, n, i) == Descend(shift, root, i)
      decreases level
    {
      n := DescendOne(level, n, i);
      level := level - BITS;
      hops := hops + 1;
    }
    DescendEnd(n, i);
  }

  lemma DescendEnd<T>(n: Node<T>, i: nat)
    requires Wide(n)
    ensures Descend(0, n, i) == Some(n)
  {}

  method DescendOne<T>(level: nat, n: Node<T>, i: nat) returns (kid: Node<T>)
    requires level > 0 && level % BITS == 0 && Wide(n) && Descend(level, n, i).Some?
    ensures level >= BITS && Wide(kid) && Descend(level - BITS, kid, i) == Descend(level, n, i)
  {
    hide Digit;
    kid := n.kids[Digit(i, level)].node;
  }

  method Get<T>(t: Array<T>, i: int, ghost s: seq<T>) returns (r: Option<T>)
    requires Holds(t, s)
    ensures r == if 0 <= i < |s| then Some(s[i]) else None
  {
    if t.None? || i < 0 || i >= t.value.cnt {
      return None;
    }
    ghost var hops;
    GetHolds(t, s, i);
    var leaf;
    leaf, hops := FindLeaf(t.value, i, s);
    r := Some(leaf[i % WIDTH].x);
  }

  // ---- Walking ----

  /** f over s in order, until it says stop. */
  function Walk<T, A>(s: seq<T>, i: nat, acc: A, f: (A, nat, T) -> (A, bool)): A
    requires i <= |s|
    decreases |s| - i
  {
    if i == |s| then acc else
    var (next, go) := f(acc, i, s[i]);
    if go then Walk(s, i + 1, next, f) else next
  }

  /** f was called on s[i], s[i + 1] and so on, each time with its place and with what the call before it gave, until the
      end of s or the first call that said stop. */
  ghost predicate Visited<T, A>(accs: seq<A>, s: seq<T>, i: nat, f: (A, nat, T) -> (A, bool)) {
    |accs| > 0 && i + |accs| - 1 <= |s|
    && (forall k :: 0 <= k < |accs| - 1 ==> f(accs[k], i + k, s[i + k]) == (accs[k + 1], Goes(accs, s, i, f, k)))
    && (forall k :: 0 <= k < |accs| - 2 ==> Goes(accs, s, i, f, k))
    && (i + |accs| - 1 == |s| || (|accs| > 1 && !Goes(accs, s, i, f, |accs| - 2)))
  }

  ghost predicate Goes<T, A>(accs: seq<A>, s: seq<T>, i: nat, f: (A, nat, T) -> (A, bool), k: nat)
    requires k < |accs| && i + k < |s|
  {
    f(accs[k], i + k, s[i + k]).1
  }

  lemma {:induction false} WalkIs<T, A>(s: seq<T>, i: nat, acc: A, f: (A, nat, T) -> (A, bool)) returns (accs: seq<A>)
    requires i <= |s|
    ensures Visited(accs, s, i, f) && accs[0] == acc && accs[|accs| - 1] == Walk(s, i, acc, f)
    decreases |s| - i
  {
    if i == |s| {
      accs := [acc];
    } else {
      var (next, go) := f(acc, i, s[i]);
      if go {
        var rest := WalkIs(s, i + 1, next, f);
        accs := [acc] + rest;
        forall k | 0 <= k < |accs| - 1
          ensures f(accs[k], i + k, s[i + k]) == (accs[k + 1], Goes(accs, s, i, f, k))
          ensures k < |accs| - 2 ==> Goes(accs, s, i, f, k)
        {
          if k > 0 { assert Goes(accs, s, i, f, k) == Goes(rest, s, i + 1, f, k - 1); }
        }
      } else {
        accs := [acc, next];
      }
    }
  }

  method Each<T, A>(t: Array<T>, acc: A, f: (A, nat, T) -> (A, bool), ghost s: seq<T>) returns (r: A)
    requires Holds(t, s)
    ensures r == Walk(s, 0, acc, f)
  {
    hide Holds, Sound, LeafFor;
    HoldsSound(t, s);
    r := acc;
    if t.None? { return; }
    var i := 0;
    var go := true;
    while i < t.value.cnt
      invariant i % WIDTH == 0 && go
      invariant Walk(s, 0, acc, f) == Walk(s, Min(i, |s|), r, f)
      decreases t.value.cnt - i
    {
      r, go := EachOfLeaf(t.value, i, r, f, s);
      if !go { return; }
      i := i + WIDTH;
    }
  }

  /** The inner loop, over the leaf at i. */
  method EachOfLeaf<T, A>(v: Vector<T>, i: nat, acc: A, f: (A, nat, T) -> (A, bool), ghost s: seq<T>)
    returns (r: A, go: bool)
    requires Holds(Some(v), s) && i < |s| && i % WIDTH == 0
    ensures Walk(s, i, acc, f) == if go then Walk(s, Min(i + WIDTH, |s|), r, f) else r
  {
    hide Sound, LeafFor, Build, Elems, LeafAt;
    HoldsSound(Some(v), s);
    LeafHolds(Some(v), s, i);
    r, go := acc, true;
    ghost var hops;
    var leaf;
    leaf, hops := FindLeaf(v, i, s);
    var j := 0;
    while j < WIDTH && i + j < v.cnt
      invariant 0 <= j <= WIDTH && i + j <= |s| && go
      invariant Walk(s, i, acc, f) == Walk(s, i + j, r, f)
    {
      LeafSlot(leaf, s, i, j);
      var step := f(r, i + j, leaf[j].x);
      r, go := step.0, step.1;
      if !go { return; }
      j := j + 1;
    }
  }

  // ---- The kernels: walks that push ----

  lemma EmptyHolds<T>()
    ensures Holds<T>(None, [])
  {}

  /** fromSlice and every builder: push after push. */
  method FromSlice<T>(xs: seq<T>) returns (t: Array<T>)
    ensures Holds(t, xs)
  {
    hide Holds, Sound, Push;
    t := None;
    EmptyHolds<T>();
    for i := 0 to |xs|
      invariant Holds(t, xs[..i])
    {
      PushHolds(t, xs[..i], xs[i]);
      t := Push(t, xs[i]);
      assert xs[..i + 1] == xs[..i] + [xs[i]];
    }
    assert xs[..|xs|] == xs;
  }

  function Collect<T>(): (seq<T>, nat, T) -> (seq<T>, bool) { (acc, _, x) => (acc + [x], true) }

  lemma {:induction false} CollectAll<T>(s: seq<T>, i: nat, acc: seq<T>)
    requires i <= |s|
    ensures Walk(s, i, acc, Collect()) == acc + s[i..]
    decreases |s| - i
  {
    if i < |s| {
      CollectAll(s, i + 1, acc + [s[i]]);
      assert s[i..] == [s[i]] + s[i + 1..];
    }
  }

  method ToSlice<T>(t: Array<T>, ghost s: seq<T>) returns (xs: seq<T>)
    requires Holds(t, s)
    ensures xs == s
  {
    xs := Each(t, [], Collect(), s);
    CollectAll(s, 0, []);
  }

  /** append pushes b's elements onto a, one by one. */
  method Append<T>(a: Array<T>, b: Array<T>, ghost s: seq<T>, ghost u: seq<T>) returns (r: Array<T>)
    requires Holds(a, s) && Holds(b, u)
    ensures Holds(r, s + u)
  {
    hide Holds, Sound, Push;
    var xs := ToSlice(b, u);
    r := a;
    assert s + u[..0] == s;
    for i := 0 to |xs|
      invariant Holds(r, s + u[..i])
    {
      PushHolds(r, s + u[..i], xs[i]);
      r := Push(r, xs[i]);
      assert s + u[..i + 1] == (s + u[..i]) + [xs[i]];
    }
    assert u[..|u|] == u;
  }

  /** Elm's Array.slice: a negative index counts from the end, the range is clamped, and an empty one is empty. */
  function Clamp(i: int, n: nat): (k: nat)
    ensures k <= n
  {
    var j := if i < 0 then i + n else i;
    if j < 0 then 0 else if j > n then n else j
  }

  function SliceOf<T>(s: seq<T>, start: int, end: int): seq<T> {
    var from, to := Clamp(start, |s|), Clamp(end, |s|);
    if from >= to then [] else s[from..to]
  }

  /** What a slice is for every start and end: a range of the array is itself; a negative index is the one counted from
      the end, down to the front; what lies outside is cut off; and a crossed range is empty. */
  lemma SliceLaws<T>(s: seq<T>, i: int, j: int)
    ensures 0 <= i <= j <= |s| ==> SliceOf(s, i, j) == s[i..j]
    ensures 0 < i <= |s| ==> SliceOf(s, 0, -i) == s[..|s| - i] && SliceOf(s, -i, |s|) == s[|s| - i..]
    ensures -|s| <= i < 0 ==> SliceOf(s, i, j) == SliceOf(s, i + |s|, j)
    ensures -|s| <= j < 0 ==> SliceOf(s, i, j) == SliceOf(s, i, j + |s|)
    ensures i < -|s| ==> SliceOf(s, i, j) == SliceOf(s, 0, j)
    ensures j < -|s| ==> SliceOf(s, i, j) == []
    ensures j > |s| ==> SliceOf(s, i, j) == SliceOf(s, i, |s|)
    ensures i >= |s| || 0 <= j <= i ==> SliceOf(s, i, j) == []
  {}

  /** The clamping of the bounds, as it is done. */
  method SliceBounds(n: nat, start: int, end: int) returns (st: nat, en: int)
    ensures if st < en then st == Clamp(start, n) && en == Clamp(end, n) else Clamp(start, n) >= Clamp(end, n)
  {
    var a, z := start, end;
    if a < 0 { a := a + n; }
    if z < 0 { z := z + n; }
    if a < 0 { a := 0; }
    if z > n { z := n; }
    st, en := a, z;
  }

  method Slice<T>(t: Array<T>, start: int, end: int, ghost s: seq<T>) returns (r: Array<T>)
    requires Holds(t, s)
    ensures Holds(r, SliceOf(s, start, end))
  {
    hide Holds, Sound, Push;
    HoldsSound(t, s);
    var st, en := SliceBounds(Length(t), start, end);
    r := None;
    EmptyHolds<T>();
    var i := st;
    if st < en { assert s[st..st] == []; }
    while i < en
      invariant st <= i && (st < en ==> i <= en)
      invariant Holds(r, if st < en then s[st..i] else [])
    {
      var x := Get(t, i, s);
      PushHolds(r, s[st..i], s[i]);
      assert s[st..i + 1] == s[st..i] + [s[i]];
      r := Push(r, x.value);
      i := i + 1;
    }
    assert SliceOf(s, start, end) == if st < en then s[st..en] else [];
  }

  /** Equality walks one array and looks up the other, and stops at the first pair that deepEq tells apart. */
  method Equal<T>(a: Array<T>, b: Array<T>, deepEq: (T, T) -> bool, ghost s: seq<T>, ghost u: seq<T>) returns (eq: bool)
    requires Holds(a, s) && Holds(b, u)
    ensures eq <==> |s| == |u| && forall i :: 0 <= i < |s| ==> deepEq(s[i], u[i])
  {
    hide Holds, Sound, Push;
    HoldsSound(a, s);
    HoldsSound(b, u);
    if Length(a) != Length(b) { return false; }
    var xs := ToSlice(a, s);
    for i := 0 to |xs|
      invariant forall j :: 0 <= j < i ==> deepEq(s[j], u[j])
    {
      var y := Get(b, i, u);
      if !deepEq(xs[i], y.value) { return false; }
    }
    eq := true;
  }

  /** Where deepEq is equality, equal arrays are equal tries. */
  lemma EqualTries<T>(a: Array<T>, b: Array<T>, deepEq: (T, T) -> bool, s: seq<T>, u: seq<T>)
    requires Holds(a, s) && Holds(b, u) && forall x, y :: x in s && y in u ==> (deepEq(x, y) <==> x == y)
    ensures (|s| == |u| && forall i :: 0 <= i < |s| ==> deepEq(s[i], u[i])) <==> a == b
  {
    hide Holds;
    if a == b {
      HoldsInjective(a, s, u);
    } else if |s| == |u| && forall i :: 0 <= i < |s| ==> deepEq(s[i], u[i]) {
      assert s == u;
      HoldsUnique(a, b, s);
    }
  }
}
