/** The trie of Sky.Core.Array in memory: nodes and tails are arrays, shared between versions and never written again. */
module ArrayTrie {
  import opened Basics
  import V = Trie

  const WIDTH := V.WIDTH
  const BITS := V.BITS

  /** One of the 32 slots of a node. */
  datatype Cell<T> = Empty | Item(x: T) | Down(kids: array<Cell<T>>)
  type Node<T> = array<Cell<T>>

  // ---- What memory shows ----

  /** In the objects of fp, n is the node v. Nothing says that fp is n's alone: versions share nodes. */
  ghost predicate Shows<T>(n: Node<T>, v: V.Node<T>, fp: set<object>)
    reads fp
    decreases v
  {
    n in fp && n.Length == WIDTH && |v.kids| == WIDTH && forall k :: 0 <= k < WIDTH ==> CellShows(n[k], v.kids[k], fp)
  }

  ghost predicate CellShows<T>(c: Cell<T>, s: V.Slot<T>, fp: set<object>)
    reads fp
    decreases s
  {
    match s
    case Nil => c == Empty
    case Elem(x) => c == Item(x)
    case Kid(w) => c.Down? && Shows(c.kids, w, fp)
  }

  lemma {:induction false} ShowsMore<T>(n: Node<T>, v: V.Node<T>, fp: set<object>, more: set<object>)
    requires Shows(n, v, fp) && fp <= more
    ensures Shows(n, v, more)
    decreases v
  {
    forall k | 0 <= k < WIDTH ensures CellShows(n[k], v.kids[k], more) {
      assert CellShows(n[k], v.kids[k], fp);
      if v.kids[k].Kid? { ShowsMore(n[k].kids, v.kids[k].node, fp, more); }
    }
  }

  /** A node like n but for one slot is the node like v but for that slot. */
  lemma ShowsWith<T>(n: Node<T>, v: V.Node<T>, fp: set<object>, r: Node<T>, sub: nat, s: V.Slot<T>, more: set<object>)
    requires Shows(n, v, fp) && fp <= more && r in more && sub < WIDTH && r.Length == WIDTH
    requires (forall k :: 0 <= k < WIDTH && k != sub ==> r[k] == n[k]) && CellShows(r[sub], s, more)
    ensures Shows(r, V.Node(v.kids[sub := s]), more)
  {
    hide CellShows;
    ShowsMore(n, v, fp, more);
    var kids := v.kids[sub := s];
    forall k | 0 <= k < WIDTH ensures CellShows(r[k], kids[k], more) {
      if k != sub { assert CellShows(n[k], v.kids[k], more); }
    }
  }

  lemma CellShowsMore<T>(c: Cell<T>, s: V.Slot<T>, fp: set<object>, more: set<object>)
    requires CellShows(c, s, fp) && fp <= more
    ensures CellShows(c, s, more)
  {
    if s.Kid? { ShowsMore(c.kids, s.node, fp, more); }
  }

  // ---- Fresh paths ----

  /** A new node, empty but for one slot. The objects of `below` are new too, and hold what c leads to. */
  method BlankWith<T>(sub: nat, c: Cell<T>, ghost s: V.Slot<T>, ghost fp: set<object>, ghost below: set<object>)
    returns (r: Node<T>, ghost added: set<object>)
    requires sub < WIDTH && CellShows(c, s, fp + below)
    ensures fresh(r) && added == below + {r} && |added| == |below| + 1
    ensures Shows(r, V.Node(V.Blank<T>().kids[sub := s]), fp + added)
  {
    r := new Cell<T>[WIDTH](_ => Empty);
    r[sub] := c;
    assert r !in below;
    added := below + {r};
    CellShowsMore(c, s, fp + below, fp + added);
    assert forall k :: 0 <= k < WIDTH && k != sub ==> CellShows(r[k], V.Nil, fp + added);
  }

  /** A copy of n but for one slot. */
  method CopyWith<T>(n: Node<T>, sub: nat, c: Cell<T>, ghost v: V.Node<T>, ghost s: V.Slot<T>, ghost fp: set<object>,
                     ghost below: set<object>)
    returns (r: Node<T>, ghost added: set<object>)
    requires sub < WIDTH && Shows(n, v, fp) && CellShows(c, s, fp + below)
    ensures fresh(r) && added == below + {r} && |added| == |below| + 1
    ensures |v.kids| == WIDTH && Shows(r, V.Node(v.kids[sub := s]), fp + added)
  {
    r := new Cell<T>[WIDTH](k requires 0 <= k < n.Length reads n => n[k]);
    r[sub] := c;
    assert r !in below;
    added := below + {r};
    CellShowsMore(c, s, fp + below, fp + added);
    ShowsWith(n, v, fp, r, sub, s, fp + added);
  }

  /** The level / 5 nodes above n are new; n itself is shared. */
  method NewPath<T>(level: nat, n: Node<T>, ghost v: V.Node<T>, ghost fp: set<object>)
    returns (r: Node<T>, ghost added: set<object>)
    requires level % BITS == 0 && Shows(n, v, fp)
    ensures fresh(added) && |added| == level / BITS
    ensures Shows(r, V.NewPath(level, v), fp + added)
  {
    hide Shows;
    if level == 0 {
      assert fp + {} == fp;
      return n, {};
    }
    var kid;
    kid, added := NewPath(level - BITS, n, v, fp);
    r, added := BlankWith(0, Down(kid), V.Kid(V.NewPath(level - BITS, v)), fp, added);
  }

  /** A root to be, or none: nil or a node. */
  ghost predicate RootShows<T>(root: Option<Node<T>>, v: Option<V.Node<T>>, fp: set<object>)
    reads fp
  {
    root.Some? == v.Some? && (root.Some? ==> V.Wide(v.value) && Shows(root.value, v.value, fp))
  }

  /** What pushing below level puts in the slot that changes. */
  ghost function Pushed<T>(cnt: nat, level: nat, pv: Option<V.Node<T>>, tv: V.Node<T>): V.Node<T>
    requires cnt > 0 && level > 0 && level % BITS == 0 && (pv.Some? ==> V.Wide(pv.value))
  {
    var sub := V.Digit(cnt - 1, level);
    if level == BITS then tv
    else if pv.Some? && pv.value.kids[sub].Kid? then V.PushTail(cnt, level - BITS, Some(pv.value.kids[sub].node), tv)
    else V.NewPath(level - BITS, tv)
  }

  /** One new node at each level: a copy of the parent's, or a blank one. */
  method PushTail<T>(cnt: nat, level: nat, parent: Option<Node<T>>, tailNode: Node<T>, ghost pv: Option<V.Node<T>>,
                     ghost tv: V.Node<T>, ghost fp: set<object>)
    returns (r: Node<T>, ghost added: set<object>)
    requires cnt > 0 && level > 0 && level % BITS == 0
    requires RootShows(parent, pv, fp) && Shows(tailNode, tv, fp)
    ensures fresh(added) && |added| == level / BITS
    ensures Shows(r, V.PushTail(cnt, level, pv, tv), fp + added)
    decreases level, 1
  {
    hide V.Digit, Shows;
    var sub := V.Digit(cnt - 1, level);
    var kid;
    ghost var below;
    kid, below := PushBelow(cnt, level, parent, tailNode, pv, tv, fp);
    hide V.Wide;
    if parent.Some? {
      r, added := CopyWith(parent.value, sub, Down(kid), pv.value, V.Kid(Pushed(cnt, level, pv, tv)), fp, below);
    } else {
      r, added := BlankWith(sub, Down(kid), V.Kid(Pushed(cnt, level, pv, tv)), fp, below);
    }
  }

  method PushBelow<T>(cnt: nat, level: nat, parent: Option<Node<T>>, tailNode: Node<T>, ghost pv: Option<V.Node<T>>,
                      ghost tv: V.Node<T>, ghost fp: set<object>)
    returns (kid: Node<T>, ghost below: set<object>)
    requires cnt > 0 && level > 0 && level % BITS == 0
    requires RootShows(parent, pv, fp) && Shows(tailNode, tv, fp)
    ensures fresh(below) && |below| + 1 == level / BITS
    ensures Shows(kid, Pushed(cnt, level, pv, tv), fp + below)
    decreases level, 0
  {
    hide V.Digit, V.NewPath, V.PushTail;
    if level == BITS {
      assert fp + {} == fp;
      return tailNode, {};
    }
    var sub := V.Digit(cnt - 1, level);
    if parent.Some? { assert CellShows(parent.value[sub], pv.value.kids[sub], fp); }
    if parent.Some? && parent.value[sub].Down? {
      kid, below := PushTail(cnt, level - BITS, Some(parent.value[sub].kids), tailNode, Some(pv.value.kids[sub].node), tv, fp);
    } else {
      kid, below := NewPath(level - BITS, tailNode, tv, fp);
    }
  }

  /** A copy of every node on the path to i, and no other. */
  method Assoc<T>(level: nat, n: Node<T>, i: nat, x: T, ghost v: V.Node<T>, ghost fp: set<object>)
    returns (r: Node<T>, ghost added: set<object>)
    requires level % BITS == 0 && V.Wide(v) && Shows(n, v, fp) && V.Assoc(level, v, i, x).Some?
    ensures fresh(added) && |added| == level / BITS + 1
    ensures Shows(r, V.Assoc(level, v, i, x).value, fp + added)
    decreases level
  {
    hide V.Digit;
    if level == 0 {
      assert fp + {} == fp;
      r, added := CopyWith(n, i % WIDTH, Item(x), v, V.Elem(x), fp, {});
      return;
    }
    var sub := V.Digit(i, level);
    assert CellShows(n[sub], v.kids[sub], fp);
    var kid;
    kid, added := Assoc(level - BITS, n[sub].kids, i, x, v.kids[sub].node, fp);
    r, added := CopyWith(n, sub, Down(kid), v, V.Kid(V.Assoc(level - BITS, v.kids[sub].node, i, x).value), fp, added);
  }

  // ---- The arrays ----

  /** One version of an array: arrayTrie, whose tail is a slice of `len` elements of a longer buffer. */
  class Version<T> {
    const cnt: nat
    const shift: nat
    const root: Option<Node<T>>
    const tail: array<Cell<T>>
    const len: nat
    /** The nodes and the buffer it reaches, and the value they hold. */
    ghost const repr: set<object>
    ghost const value: V.Vector<T>

    ghost predicate Valid()
      reads repr
    {
      cnt == value.cnt && shift == value.shift && RootShows(root, value.root, repr)
      && tail in repr && len == |value.tail| <= tail.Length
      && forall k :: 0 <= k < len ==> CellShows(tail[k], value.tail[k], repr)
    }

    constructor (cnt: nat, shift: nat, root: Option<Node<T>>, tail: array<Cell<T>>, len: nat,
                 ghost repr: set<object>, ghost value: V.Vector<T>)
      requires cnt == value.cnt && shift == value.shift && RootShows(root, value.root, repr)
      requires tail in repr && len == |value.tail| <= tail.Length
      requires forall k :: 0 <= k < len ==> CellShows(tail[k], value.tail[k], repr)
      ensures Valid() && this.value == value && this.repr == repr && this.tail == tail
    {
      this.cnt, this.shift, this.root, this.tail, this.len := cnt, shift, root, tail, len;
      this.repr, this.value := repr, value;
    }
  }

  /** nil is the empty array. */
  type Array<T> = Version?<T>

  ghost function Repr<T>(t: Array<T>): set<object> { if t == null then {} else t.repr }

  ghost function ValueOf<T>(t: Array<T>): V.Array<T> { if t == null then None else Some(t.value) }

  /** t is, in memory, the canonical array of s. */
  ghost predicate Holds<T>(t: Array<T>, s: seq<T>)
    reads Repr(t)
  {
    (t != null ==> t.Valid()) && V.Holds(ValueOf(t), s)
  }

  // ---- push ----

  lemma FewerObjects(a: set<object>, b: set<object>)
    requires a <= b
    ensures |a| <= |b|
  {
    assert b == a + (b - a);
  }

  lemma FewerUnion(a: set<object>, x: object, y: object)
    ensures |a + {x, y}| <= |a| + 2
  {
    FewerObjects(a + {x, y} - a, {x, y});
  }

  /** Room in the tail: a new buffer of 32, with one element more. */
  method PushToTail<T>(t: Version<T>, x: T) returns (r: Version<T>)
    requires t.Valid() && t.len < WIDTH
    ensures r.Valid() && fresh(r) && fresh(r.repr - t.repr) && |r.repr - t.repr| <= 1
    ensures r.value == V.Vector(t.value.cnt + 1, t.value.shift, t.value.root, t.value.tail + [V.Elem(x)])
  {
    hide Shows;
    var tail := new Cell<T>[WIDTH](k requires 0 <= k reads t.tail => if k < t.len then t.tail[k] else Empty);
    tail[t.len] := Item(x);
    ghost var repr := t.repr + {tail};
    if t.root.Some? { ShowsMore(t.root.value, t.value.root.value, t.repr, repr); }
    forall k | 0 <= k < t.len ensures CellShows(tail[k], t.value.tail[k], repr) {
      CellShowsMore(tail[k], t.value.tail[k], t.repr, repr);
    }
    r := new Version(t.cnt + 1, t.shift, t.root, tail, t.len + 1, repr,
                     V.Vector(t.value.cnt + 1, t.value.shift, t.value.root, t.value.tail + [V.Elem(x)]));
    FewerObjects(r.repr - t.repr, {tail});
  }

  /** The tail as a node. */
  method TailNode<T>(t: Version<T>) returns (n: Node<T>)
    requires t.Valid() && t.len == WIDTH
    ensures fresh(n) && Shows(n, V.Node(t.value.tail), t.repr + {n})
  {
    n := new Cell<T>[WIDTH](k requires 0 <= k reads t.tail => if k < t.len then t.tail[k] else Empty);
    forall k | 0 <= k < WIDTH ensures CellShows(n[k], t.value.tail[k], t.repr + {n}) {
      CellShowsMore(n[k], t.value.tail[k], t.repr, t.repr + {n});
    }
  }

  /** The tail is full: it becomes a block of the trie. */
  method PushBlock<T>(t: Version<T>, x: T) returns (r: Version<T>)
    requires t.Valid() && V.Sound(Some(t.value)) && V.Sound(V.Push(Some(t.value), x))
    requires t.len == WIDTH && t.cnt > 0 && t.cnt - V.TailOff(t.cnt) >= WIDTH
    ensures r.Valid() && fresh(r) && fresh(r.repr - t.repr) && |r.repr - t.repr| <= t.shift / BITS + 3
    ensures r.value == V.Push(Some(t.value), x).value
  {
    ghost var v' := V.Push(Some(t.value), x).value;
    hide Shows, V.Wide, V.Push;
    var tailNode := TailNode(t);
    ghost var fp := t.repr + {tailNode};
    var root, shift;
    ghost var added;
    root, shift, added := PushToRoot(t, x, tailNode, fp);
    r := WithTail(t.cnt + 1, shift, root, x, fp + added, v');
    FewerUnion(added, tailNode, r.tail);
    FewerObjects(r.repr - t.repr, added + {tailNode, r.tail});
  }

  /** A version whose tail is x alone. */
  method WithTail<T>(cnt: nat, shift: nat, root: Node<T>, x: T, ghost fp: set<object>, ghost v: V.Vector<T>)
    returns (r: Version<T>)
    requires v.cnt == cnt && v.shift == shift && v.tail == [V.Elem(x)] && RootShows(Some(root), v.root, fp)
    ensures r.Valid() && r.value == v && fresh(r) && fresh(r.tail) && r.repr == fp + {r.tail}
  {
    hide Shows, V.Wide;
    var tail := new Cell<T>[1](_ => Item(x));
    ShowsMore(root, v.root.value, fp, fp + {tail});
    r := new Version(cnt, shift, Some(root), tail, 1, fp + {tail}, v);
  }

  method PushToRoot<T>(t: Version<T>, x: T, tailNode: Node<T>, ghost fp: set<object>)
    returns (root: Node<T>, shift: nat, ghost added: set<object>)
    requires t.Valid() && V.Sound(Some(t.value)) && V.Sound(V.Push(Some(t.value), x))
    requires t.len == WIDTH && t.cnt > 0 && t.cnt - V.TailOff(t.cnt) >= WIDTH
    requires t.repr <= fp && Shows(tailNode, V.Node(t.value.tail), fp)
    ensures fresh(added) && |added| <= t.shift / BITS + 1
    ensures var v' := V.Push(Some(t.value), x).value;
            shift == v'.shift && v'.cnt == t.cnt + 1 && v'.tail == [V.Elem(x)]
            && v'.root.Some? && V.Wide(v'.root.value) && Shows(root, v'.root.value, fp + added)
  {
    hide Shows, V.PushTail, V.NewPath, V.Wide;
    if t.cnt / WIDTH > V.Pow2(t.shift) {
      root, added := GrowRoot(t, tailNode, fp);
      shift := t.shift + BITS;
    } else {
      if t.root.Some? { ShowsMore(t.root.value, t.value.root.value, t.repr, fp); }
      root, added := PushTail(t.cnt, t.shift, t.root, tailNode, t.value.root, V.Node(t.value.tail), fp);
      shift := t.shift;
    }
  }

  /** A new root over the old one and a new path. */
  method GrowRoot<T>(t: Version<T>, tailNode: Node<T>, ghost fp: set<object>) returns (r: Node<T>, ghost added: set<object>)
    requires t.Valid() && V.Sound(Some(t.value)) && t.repr <= fp && Shows(tailNode, V.Node(t.value.tail), fp)
    ensures fresh(added) && |added| == t.shift / BITS + 1
    ensures var kid0 := if t.value.root.Some? then V.Kid(t.value.root.value) else V.Nil;
            var path := V.NewPath(t.shift, V.Node(t.value.tail));
            Shows(r, V.Node(V.Blank<T>().kids[0 := kid0][1 := V.Kid(path)]), fp + added)
  {
    hide Shows, V.NewPath, V.Wide;
    var path;
    path, added := NewPath(t.shift, tailNode, V.Node(t.value.tail), fp);
    ghost var kid0 := if t.value.root.Some? then V.Kid(t.value.root.value) else V.Nil;
    ghost var kid1 := V.Kid(V.NewPath(t.shift, V.Node(t.value.tail)));
    var c := if t.root.Some? then Down(t.root.value) else Empty;
    CellShowsMore(c, kid0, t.repr, fp + added);
    r, added := BlankWithTwo(c, Down(path), kid0, kid1, fp, added);
  }

  method BlankWithTwo<T>(c: Cell<T>, d: Cell<T>, ghost kid0: V.Slot<T>, ghost kid1: V.Slot<T>, ghost fp: set<object>,
                         ghost below: set<object>)
    returns (r: Node<T>, ghost added: set<object>)
    requires CellShows(c, kid0, fp + below) && CellShows(d, kid1, fp + below)
    ensures fresh(r) && added == below + {r} && |added| == |below| + 1
    ensures Shows(r, V.Node(V.Blank<T>().kids[0 := kid0][1 := kid1]), fp + added)
  {
    r := new Cell<T>[WIDTH](_ => Empty);
    r[0] := c;
    r[1] := d;
    assert r !in below;
    added := below + {r};
    CellShowsMore(c, kid0, fp + below, fp + added);
    CellShowsMore(d, kid1, fp + below, fp + added);
    assert forall k :: 2 <= k < WIDTH ==> CellShows(r[k], V.Nil, fp + added);
  }

  /** push. Nothing that was there before changes, so every older version still holds what it held. */
  method Push<T>(t: Array<T>, x: T, ghost s: seq<T>) returns (r: Version<T>)
    requires Holds(t, s)
    ensures Holds(r, s + [x])
    ensures fresh(r) && fresh(r.repr - Repr(t))
    ensures |r.repr - Repr(t)| <= if t == null then 1 else t.shift / BITS + 3
    ensures forall u: Array<T>, s': seq<T> :: old(allocated(u)) && old(allocated(s')) && old(Holds(u, s')) ==> Holds(u, s')
  {
    hide V.Holds, Shows, V.PushTail, V.NewPath, V.Wide;
    V.PushHolds(ValueOf(t), s, x);
    V.HoldsSound(ValueOf(t), s);
    V.HoldsSound(V.Push(ValueOf(t), x), s + [x]);
    TailLength(t, s);
    if t == null || t.cnt == 0 {
      var tail := new Cell<T>[1](_ => Item(x));
      r := new Version(1, BITS, None, tail, 1, {tail}, V.Push(ValueOf(t), x).value);
    } else if t.cnt - V.TailOff(t.cnt) < WIDTH {
      r := PushToTail(t, x);
    } else {
      r := PushBlock(t, x);
    }
  }

  lemma TailLength<T>(t: Array<T>, s: seq<T>)
    requires Holds(t, s)
    ensures t != null ==> t.cnt > 0 && t.len == t.cnt - V.TailOff(t.cnt) <= WIDTH
  {}

  // ---- set ----

  method SetInTail<T>(t: Version<T>, j: nat, x: T) returns (r: Version<T>)
    requires t.Valid() && j < t.len <= WIDTH
    ensures r.Valid() && fresh(r) && fresh(r.repr - t.repr) && |r.repr - t.repr| <= 1
    ensures r.value == t.value.(tail := t.value.tail[j := V.Elem(x)])
  {
    hide Shows;
    var tail := new Cell<T>[WIDTH](k requires 0 <= k reads t.tail => if k < t.len then t.tail[k] else Empty);
    tail[j] := Item(x);
    ghost var repr := t.repr + {tail};
    if t.root.Some? { ShowsMore(t.root.value, t.value.root.value, t.repr, repr); }
    forall k | 0 <= k < t.len ensures CellShows(tail[k], t.value.tail[j := V.Elem(x)][k], repr) {
      if k != j { CellShowsMore(tail[k], t.value.tail[k], t.repr, repr); }
    }
    r := new Version(t.cnt, t.shift, t.root, tail, t.len, repr, t.value.(tail := t.value.tail[j := V.Elem(x)]));
    FewerObjects(r.repr - t.repr, {tail});
  }

  /** The new version shares the old one's tail and every node off the path to i. */
  method SetInRoot<T>(t: Version<T>, i: nat, x: T, ghost root': V.Node<T>) returns (r: Version<T>)
    requires t.Valid() && V.Sound(Some(t.value)) && t.value.root.Some?
    requires V.Assoc(t.shift, t.value.root.value, i, x) == Some(root') && V.Wide(root')
    ensures r.Valid() && fresh(r) && fresh(r.repr - t.repr) && |r.repr - t.repr| <= t.shift / BITS + 1
    ensures r.value == t.value.(root := Some(root'))
  {
    hide Shows, V.Assoc, V.Wide;
    var root;
    ghost var added;
    root, added := Assoc(t.shift, t.root.value, i, x, t.value.root.value, t.repr);
    ghost var repr := t.repr + added;
    forall k | 0 <= k < t.len ensures CellShows(t.tail[k], t.value.tail[k], repr) {
      CellShowsMore(t.tail[k], t.value.tail[k], t.repr, repr);
    }
    r := new Version(t.cnt, t.shift, Some(root), t.tail, t.len, repr, t.value.(root := Some(root')));
    FewerObjects(repr - t.repr, added);
  }

  /** set. Nothing that was there before changes; out of range the array itself is the answer. */
  method Set<T>(t: Array<T>, i: int, x: T, ghost s: seq<T>) returns (r: Array<T>)
    requires Holds(t, s)
    ensures Holds(r, if 0 <= i < |s| then s[i := x] else s)
    ensures if 0 <= i < |s| then fresh(r) && fresh(Repr(r) - Repr(t)) else r == t
    ensures |Repr(r) - Repr(t)| <= if t == null then 0 else t.shift / BITS + 1
    ensures forall u: Array<T>, s': seq<T> :: old(allocated(u)) && old(allocated(s')) && old(Holds(u, s')) ==> Holds(u, s')
  {
    hide V.Holds, Shows, V.Assoc, V.Wide;
    V.SetHolds(ValueOf(t), s, i, x);
    V.HoldsSound(ValueOf(t), s);
    V.HoldsSound(V.Set(ValueOf(t), i, x).value, if 0 <= i < |s| then s[i := x] else s);
    TailLength(t, s);
    if t == null || i < 0 || i >= t.cnt { return t; }
    if i >= V.TailOff(t.cnt) {
      r := SetInTail(t, i % WIDTH, x);
    } else {
      r := SetInRoot(t, i, x, V.Assoc(t.shift, t.value.root.value, i, x).value);
    }
  }

  // ---- get ----

  /** leaf holds the elements of s from at on, up to 32 of them. */
  ghost predicate LeafShows<T>(leaf: array<Cell<T>>, s: seq<T>, at: nat)
    reads leaf
  {
    forall j :: 0 <= j < WIDTH ==> ElementAt(leaf, s, at, j)
  }

  ghost predicate ElementAt<T>(leaf: array<Cell<T>>, s: seq<T>, at: nat, j: nat)
    reads leaf
  {
    at + j < |s| ==> j < leaf.Length && leaf[j] == Item(s[at + j])
  }

  lemma ElementIs<T>(leaf: array<Cell<T>>, s: seq<T>, at: nat, j: nat)
    requires LeafShows(leaf, s, at) && j < WIDTH && at + j < |s|
    ensures j < leaf.Length && leaf[j] == Item(s[at + j])
  {
    assert ElementAt(leaf, s, at, j);
  }

  /** The block of 32 that holds i, in memory. */
  method LeafFor<T>(t: Version<T>, i: nat, ghost s: seq<T>) returns (leaf: array<Cell<T>>)
    requires Holds(t, s) && i < |s|
    ensures LeafShows(leaf, s, i / WIDTH * WIDTH)
  {
    hide V.Holds, V.Descend, V.Wide, V.Digit;
    V.LeafHolds(ValueOf(t), s, i);
    V.HoldsSound(ValueOf(t), s);
    if i >= V.TailOff(t.cnt) {
      leaf := t.tail;
      SlotsShow(leaf, t.value.tail, t.repr, s, i / WIDTH * WIDTH);
    } else {
      ghost var v;
      leaf, v := Descend(t, i);
      SlotsShow(leaf, v.kids, t.repr, s, i / WIDTH * WIDTH);
    }
  }

  lemma SlotsShow<T>(leaf: array<Cell<T>>, slots: seq<V.Slot<T>>, fp: set<object>, s: seq<T>, at: nat)
    requires V.LeafAt(slots, s, at) && |slots| <= leaf.Length
    requires forall k :: 0 <= k < |slots| ==> CellShows(leaf[k], slots[k], fp)
    ensures LeafShows(leaf, s, at)
  {
    forall j | 0 <= j < WIDTH ensures ElementAt(leaf, s, at, j) {
      if at + j < |s| {
        V.LeafSlot(slots, s, at, j);
        assert CellShows(leaf[j], slots[j], fp);
      }
    }
  }

  method Descend<T>(t: Version<T>, i: nat) returns (n: Node<T>, ghost v: V.Node<T>)
    requires t.Valid() && V.Sound(Some(t.value)) && t.root.Some? && V.Descend(t.shift, t.value.root.value, i).Some?
    ensures V.Descend(t.shift, t.value.root.value, i) == Some(v) && V.Wide(v) && Shows(n, v, t.repr)
  {
    hide V.Descend, V.Wide, V.Digit, Shows;
    n, v := t.root.value, t.value.root.value;
    var level := t.shift;
    while level > 0
      invariant level >= 0 && level % BITS == 0 && V.Wide(v) && Shows(n, v, t.repr)
      invariant V.Descend(level, v, i) == V.Descend(t.shift, t.value.root.value, i)
      decreases level
    {
      n, v := Below(level, n, i, v, t.repr);
      level := level - BITS;
    }
    AtLeaf(v, i);
  }

  method Below<T>(level: nat, n: Node<T>, i: nat, ghost v: V.Node<T>, ghost fp: set<object>) returns (kid: Node<T>, ghost kv: V.Node<T>)
    requires level > 0 && level % BITS == 0 && V.Wide(v) && Shows(n, v, fp) && V.Descend(level, v, i).Some?
    ensures level >= BITS && V.Wide(kv) && Shows(kid, kv, fp) && V.Descend(level - BITS, kv, i) == V.Descend(level, v, i)
  {
    hide V.Digit;
    var sub := V.Digit(i, level);
    assert CellShows(n[sub], v.kids[sub], fp);
    kid, kv := n[sub].kids, v.kids[sub].node;
  }

  lemma AtLeaf<T>(v: V.Node<T>, i: nat)
    requires V.Wide(v)
    ensures V.Descend(0, v, i) == Some(v)
  {}

  method Get<T>(t: Array<T>, i: int, ghost s: seq<T>) returns (r: Option<T>)
    requires Holds(t, s)
    ensures r == if 0 <= i < |s| then Some(s[i]) else None
  {
    CountIs(t, s);
    if t == null || i < 0 || i >= t.cnt { return None; }
    var leaf := LeafFor(t, i, s);
    assert i / WIDTH * WIDTH + i % WIDTH == i;
    ElementIs(leaf, s, i / WIDTH * WIDTH, i % WIDTH);
    r := Some(leaf[i % WIDTH].x);
  }

  lemma CountIs<T>(t: Array<T>, s: seq<T>)
    requires Holds(t, s)
    ensures |s| == if t == null then 0 else t.cnt
  {}

  // ---- The kernels: walks that push ----

  method FromSlice<T>(xs: seq<T>) returns (t: Array<T>)
    ensures Holds(t, xs) && fresh(Repr(t))
    ensures forall u: Array<T>, s': seq<T> :: old(allocated(u)) && old(allocated(s')) && old(Holds(u, s')) ==> Holds(u, s')
  {
    hide V.Holds, Shows, V.Wide, CellShows;
    t := null;
    NothingHeld<T>();
    for i := 0 to |xs|
      invariant Holds(t, xs[..i]) && fresh(Repr(t))
    {
      assert xs[..i + 1] == xs[..i] + [xs[i]];
      t := Push(t, xs[i], xs[..i]);
    }
    assert xs[..|xs|] == xs;
  }

  lemma NothingHeld<T>()
    ensures Holds<T>(null, [])
  {}

  /** each, collecting: leaf by leaf, and in a leaf slot by slot. */
  method ToSlice<T>(t: Array<T>, ghost s: seq<T>) returns (xs: seq<T>)
    requires Holds(t, s)
    ensures xs == s
  {
    CountIs(t, s);
    hide V.Holds, Shows, V.Wide, CellShows;
    xs := [];
    if t == null { return; }
    var i := 0;
    while i < t.cnt
      invariant i % WIDTH == 0 && |xs| == Min(i, |s|) && xs == s[..|xs|]
      decreases t.cnt - i
    {
      var more := LeafToSlice(t, i, s);
      assert s[..Min(i + WIDTH, |s|)] == s[..i] + s[i..Min(i + WIDTH, |s|)];
      xs := xs + more;
      i := i + WIDTH;
    }
  }

  lemma NextElement<T>(s: seq<T>, i: nat, j: nat)
    requires i + j < |s|
    ensures s[i..i + (j + 1)] == s[i..i + j] + [s[i + j]]
  {}

  method LeafToSlice<T>(t: Version<T>, i: nat, ghost s: seq<T>) returns (xs: seq<T>)
    requires Holds(t, s) && i < |s| && i % WIDTH == 0
    ensures xs == s[i..Min(i + WIDTH, |s|)]
  {
    CountIs(t, s);
    hide V.Holds, Shows, V.Wide, CellShows, Holds, LeafShows;
    var leaf := LeafFor(t, i, s);
    assert i / WIDTH * WIDTH == i;
    xs := [];
    var j := 0;
    while j < WIDTH && i + j < t.cnt
      invariant 0 <= j <= WIDTH && i + j <= |s| && xs == s[i..i + j] && LeafShows(leaf, s, i)
    {
      ElementIs(leaf, s, i, j);
      NextElement(s, i, j);
      xs := xs + [leaf[j].x];
      j := j + 1;
    }
  }

  /** append: b's elements pushed onto a. Neither changes. */
  method Append<T>(a: Array<T>, b: Array<T>, ghost s: seq<T>, ghost u: seq<T>) returns (r: Array<T>)
    requires Holds(a, s) && Holds(b, u)
    ensures Holds(r, s + u) && fresh(Repr(r) - Repr(a))
    ensures forall o: Array<T>, s': seq<T> :: old(allocated(o)) && old(allocated(s')) && old(Holds(o, s')) ==> Holds(o, s')
  {
    hide V.Holds, Shows, V.Wide, CellShows;
    var xs := ToSlice(b, u);
    r := a;
    assert s + u[..0] == s;
    for i := 0 to |xs|
      invariant Holds(r, s + u[..i]) && fresh(Repr(r) - Repr(a))
    {
      assert s + u[..i + 1] == (s + u[..i]) + [xs[i]];
      r := Push(r, xs[i], s + u[..i]);
    }
    assert u[..|u|] == u;
  }

  /** slice: the range of t pushed onto an empty array. */
  method Slice<T>(t: Array<T>, start: int, end: int, ghost s: seq<T>) returns (r: Array<T>)
    requires Holds(t, s)
    ensures Holds(r, V.SliceOf(s, start, end)) && fresh(Repr(r))
    ensures forall u: Array<T>, s': seq<T> :: old(allocated(u)) && old(allocated(s')) && old(Holds(u, s')) ==> Holds(u, s')
  {
    CountIs(t, s);
    NothingHeld<T>();
    hide V.Holds, Shows, V.Wide, CellShows;
    var st, en := V.SliceBounds(if t == null then 0 else t.cnt, start, end);
    if st < en {
      r := Range(t, st, en, s);
    } else {
      r := null;
    }
  }

  method Range<T>(t: Array<T>, st: nat, en: nat, ghost s: seq<T>) returns (r: Array<T>)
    requires Holds(t, s) && st < en <= |s|
    ensures Holds(r, s[st..en]) && fresh(Repr(r))
  {
    NothingHeld<T>();
    hide V.Holds, Shows, V.Wide, CellShows, Version.Valid;
    r := null;
    assert s[st..st] == [];
    for i := st to en
      invariant Holds(r, s[st..i]) && fresh(Repr(r))
    {
      var x := Get(t, i, s);
      assert s[st..i + 1] == s[st..i] + [s[i]];
      r := Push(r, x.value, s[st..i]);
    }
  }
}
