/** The bounded, least-recently-seen table of visitor states, against the history of calls alone. */
module VisitorTable {
  import opened Basics

  /** A visitor's key, a digest: only ever compared. */
  type Key = nat
  type Time = int

  /** A state is named by the call that made it. */
  type St = nat

  datatype Call = Call(key: Key, time: Time)
  datatype Entry = Entry(st: St, seen: Time)

  // ---- The reference: what the history says ----

  function Without(s: seq<Key>, x: Key): seq<Key> {
    if s == [] then [] else if s[0] == x then Without(s[1..], x) else [s[0]] + Without(s[1..], x)
  }

  /** The distinct keys, last seen first. */
  function Recent(h: seq<Call>): seq<Key> {
    if h == [] then [] else
    var c := h[|h| - 1];
    [c.key] + Without(Recent(h[..|h| - 1]), c.key)
  }

  predicate Seen(h: seq<Call>, k: Key) { exists i :: 0 <= i < |h| && h[i].key == k }

  function LastSeen(h: seq<Call>, k: Key): Time
    requires Seen(h, k)
  {
    if h[|h| - 1].key == k then h[|h| - 1].time else (SeenEarlier(h, k); LastSeen(h[..|h| - 1], k))
  }

  lemma SeenEarlier(h: seq<Call>, k: Key)
    requires Seen(h, k) && h[|h| - 1].key != k
    ensures Seen(h[..|h| - 1], k)
  {
    var i :| 0 <= i < |h| && h[i].key == k;
    assert h[..|h| - 1][i].key == k;
  }

  /** The other keys seen since k was last seen. */
  function Since(h: seq<Call>, k: Key): set<Key> {
    if h == [] || h[|h| - 1].key == k then {} else Since(h[..|h| - 1], k) + {h[|h| - 1].key}
  }

  /** A key's state survives exactly when the key was last seen within the idle window and fewer than max other keys
      were seen since. */
  predicate Survives(h: seq<Call>, c: Call, max: nat, idle: int) {
    Seen(h, c.key) && c.time - LastSeen(h, c.key) <= idle && |Since(h, c.key)| < max
  }

  /** What the call after h answers: the key's earlier state, or a new one. */
  function Answer(h: seq<Call>, c: Call, max: nat, idle: int): St
    decreases |h|, 1
  {
    if Survives(h, c, max, idle) then StateOf(h, c.key, max, idle) else |h|
  }

  /** The state the last call for k answered. */
  function StateOf(h: seq<Call>, k: Key, max: nat, idle: int): St
    requires Seen(h, k)
    decreases |h|, 0
  {
    var n := |h| - 1;
    if h[n].key == k then Answer(h[..n], h[n], max, idle) else (SeenEarlier(h, k); StateOf(h[..n], k, max, idle))
  }

  /** What a call answers, by the last call for its key. */
  lemma AnswerIs(h: seq<Call>, c: Call, max: nat, idle: int) returns (i: nat)
    ensures !Seen(h, c.key) ==> Answer(h, c, max, idle) == |h|
    ensures Seen(h, c.key) ==>
      i < |h| && h[i].key == c.key && (forall j :: i < j < |h| ==> h[j].key != c.key)
      && Answer(h, c, max, idle) == if c.time - h[i].time <= idle && |KeysAfter(h, i)| < max
                                    then Answer(h[..i], h[i], max, idle) else |h|
  {
    i := 0;
    if Seen(h, c.key) { i := LastCallIs(h, c.key, max, idle); }
  }

  function KeysAfter(h: seq<Call>, i: nat): set<Key> { set j | i < j < |h| :: h[j].key }

  /** All of it by the last call for k: its time, the keys called after it, and the state it answered. */
  lemma {:induction false} LastCallIs(h: seq<Call>, k: Key, max: nat, idle: int) returns (i: nat)
    requires Seen(h, k)
    ensures i < |h| && h[i].key == k && forall j :: i < j < |h| ==> h[j].key != k
    ensures LastSeen(h, k) == h[i].time && Since(h, k) == KeysAfter(h, i)
    ensures StateOf(h, k, max, idle) == Answer(h[..i], h[i], max, idle)
  {
    hide LastSeen, Since, StateOf, Answer, KeysAfter;
    var n := |h| - 1;
    LastStep(h, k, max, idle);
    if h[n].key == k {
      i := n;
    } else {
      i := LastCallIs(h[..n], k, max, idle);
      assert h[..n][..i] == h[..i];
      KeysAfterGrows(h, i);
    }
  }

  lemma LastStep(h: seq<Call>, k: Key, max: nat, idle: int)
    requires Seen(h, k)
    ensures var n := |h| - 1;
            if h[n].key == k then
              LastSeen(h, k) == h[n].time && Since(h, k) == KeysAfter(h, n) == {}
              && StateOf(h, k, max, idle) == Answer(h[..n], h[n], max, idle)
            else
              Seen(h[..n], k) && LastSeen(h, k) == LastSeen(h[..n], k) && Since(h, k) == Since(h[..n], k) + {h[n].key}
              && StateOf(h, k, max, idle) == StateOf(h[..n], k, max, idle)
  {
    hide Answer;
    if h[|h| - 1].key != k { SeenEarlier(h, k); }
  }

  lemma KeysAfterGrows(h: seq<Call>, i: nat)
    requires i < |h| - 1
    ensures KeysAfter(h, i) == KeysAfter(h[..|h| - 1], i) + {h[|h| - 1].key}
  {
    var n := |h| - 1;
    forall x | x in KeysAfter(h, i) ensures x in KeysAfter(h[..n], i) + {h[n].key} {
      var j :| i < j < |h| && h[j].key == x;
      if j < n { assert h[..n][j].key == x; }
    }
    forall x | x in KeysAfter(h[..n], i) ensures x in KeysAfter(h, i) {
      var j :| i < j < n && h[..n][j].key == x;
      assert h[j].key == x;
    }
  }

  predicate Timely(h: seq<Call>) { forall i, j :: 0 <= i < j < |h| ==> h[i].time <= h[j].time }

  // ---- The order of recency ----

  predicate Distinct(s: seq<Key>) { forall i, j :: 0 <= i < j < |s| ==> s[i] != s[j] }

  lemma {:induction false} WithoutIs(s: seq<Key>, x: Key)
    requires Distinct(s)
    ensures Distinct(Without(s, x)) && x !in Without(s, x)
    ensures forall y :: y in Without(s, x) <==> y in s && y != x
    ensures x !in s ==> Without(s, x) == s
    ensures x in s ==> |Without(s, x)| == |s| - 1
  {
    if s != [] {
      var rest, w := s[1..], Without(s[1..], x);
      assert forall j :: 0 <= j < |rest| ==> rest[j] == s[j + 1];
      WithoutIs(rest, x);
      Uncons(s);
      HeadOrTail(s);
      if s[0] == x {
        assert x !in rest;
      } else {
        assert s[0] !in w;
        ConsDistinct(s[0], w);
      }
    }
  }

  lemma HeadOrTail(s: seq<Key>)
    requires s != []
    ensures forall y :: y in s <==> y == s[0] || y in s[1..]
  {
    Uncons(s);
  }

  lemma ConsDistinct(x: Key, s: seq<Key>)
    requires Distinct(s) && x !in s
    ensures Distinct([x] + s)
  {}

  lemma {:induction false} WithoutConcat(a: seq<Key>, b: seq<Key>, x: Key)
    ensures Without(a + b, x) == Without(a, x) + Without(b, x)
  {
    if a == [] {
      assert a + b == b;
    } else {
      assert (a + b)[1..] == a[1..] + b;
      WithoutConcat(a[1..], b, x);
    }
  }

  lemma {:induction false} RecentIs(h: seq<Call>)
    ensures Distinct(Recent(h))
    ensures forall k :: k in Recent(h) <==> Seen(h, k)
  {
    if h != [] {
      var n := |h| - 1;
      RecentIs(h[..n]);
      WithoutIs(Recent(h[..n]), h[n].key);
      forall k ensures k in Recent(h) <==> Seen(h, k) { SeenSplit(h, k); }
    }
  }

  lemma SeenSplit(h: seq<Call>, k: Key)
    requires h != []
    ensures Seen(h, k) <==> h[|h| - 1].key == k || Seen(h[..|h| - 1], k)
  {
    var n := |h| - 1;
    if Seen(h[..n], k) {
      var i :| 0 <= i < n && h[..n][i].key == k;
      assert h[i].key == k;
    }
    if Seen(h, k) && h[n].key != k { SeenEarlier(h, k); }
  }

  ghost function ToSet(s: seq<Key>): set<Key> { set x | x in s }

  lemma {:induction false} SetSize(s: seq<Key>)
    requires Distinct(s)
    ensures |ToSet(s)| == |s|
  {
    if s == [] {
      assert ToSet(s) == {};
    } else {
      HeadNotInTail(s);
      SetSize(s[1..]);
      Uncons(s);
      HeadOrTail(s);
      assert ToSet(s) == ToSet(s[1..]) + {s[0]};
    }
  }

  lemma HeadNotInTail(s: seq<Key>)
    requires Distinct(s) && s != []
    ensures s[0] !in s[1..] && Distinct(s[1..])
  {
    forall j | 0 <= j < |s| - 1 ensures s[1..][j] != s[0] { assert s[1..][j] == s[j + 1]; }
  }

  /** Where an element of Without(s, x) was in s. */
  lemma {:induction false} PlaceBefore(s: seq<Key>, x: Key, i: nat) returns (j: nat)
    requires i < |Without(s, x)|
    ensures j < |s| && s[j] == Without(s, x)[i] && s[j] != x
    ensures forall y :: y in Without(s, x)[..i] <==> y in s[..j] && y != x
  {
    var rest := s[1..];
    if s[0] == x {
      j := PlaceBefore(rest, x, i);
      FrontOfCons(s, j);
      j := j + 1;
    } else if i == 0 {
      j := 0;
    } else {
      j := PlaceBefore(rest, x, i - 1);
      FrontOfCons(s, j);
      FrontOfCons(Without(s, x), i - 1);
      assert Without(s, x)[1..] == Without(rest, x);
      j := j + 1;
    }
  }

  lemma FrontOfCons(s: seq<Key>, j: nat)
    requires j < |s|
    ensures s[..j + 1] == [s[0]] + s[1..][..j]
    ensures forall y :: y in s[..j + 1] <==> y == s[0] || y in s[1..][..j]
  {
    assert s[..j + 1] == [s[0]] + s[1..][..j];
  }

  /** The keys before a key in the order are the other keys seen since. */
  lemma {:induction false} BeforeIsSince(h: seq<Call>, p: nat)
    requires p < |Recent(h)|
    ensures Since(h, Recent(h)[p]) == ToSet(Recent(h)[..p])
    decreases |h|
  {
    var n := |h| - 1;
    var before, c := Recent(h[..n]), h[n].key;
    if p == 0 {
      assert Recent(h)[..0] == [];
    } else {
      var k := Recent(h)[p];
      var q := PlaceBefore(before, c, p - 1);
      assert k == Without(before, c)[p - 1];
      BeforeIsSince(h[..n], q);
      assert Recent(h)[..p] == [c] + Without(before, c)[..p - 1];
      assert forall y :: y in Recent(h)[..p] <==> y == c || y in before[..q];
    }
  }

  lemma PlaceIsCount(h: seq<Call>, p: nat)
    requires p < |Recent(h)|
    ensures |Since(h, Recent(h)[p])| == p
  {
    BeforeIsSince(h, p);
    RecentIs(h);
    SetSize(Recent(h)[..p]);
  }

  /** Along the order, keys were seen longer and longer ago. */
  lemma {:induction false} RecentOrdered(h: seq<Call>, p: nat, q: nat)
    requires Timely(h) && p < q < |Recent(h)|
    ensures Seen(h, Recent(h)[p]) && Seen(h, Recent(h)[q])
    ensures LastSeen(h, Recent(h)[p]) >= LastSeen(h, Recent(h)[q])
    decreases |h|, 1
  {
    hide LastSeen;
    RecentIs(h);
    InOrder(h, p);
    InOrder(h, q);
    if p == 0 {
      SeenBy(h, Recent(h)[q]);
      LastSeenNow(h);
    } else {
      RecentOrderedLater(h, p, q);
    }
  }

  lemma InOrder(h: seq<Call>, p: nat)
    requires p < |Recent(h)|
    ensures Seen(h, Recent(h)[p])
  {
    RecentIs(h);
    assert Recent(h)[p] in Recent(h);
  }

  lemma LastSeenNow(h: seq<Call>)
    requires h != []
    ensures Seen(h, h[|h| - 1].key) && LastSeen(h, h[|h| - 1].key) == h[|h| - 1].time
  {}

  lemma LastSeenBefore(h: seq<Call>, k: Key)
    requires h != [] && k != h[|h| - 1].key && Seen(h[..|h| - 1], k)
    ensures Seen(h, k) && LastSeen(h, k) == LastSeen(h[..|h| - 1], k)
  {
    SeenSplit(h, k);
  }

  lemma {:induction false} RecentOrderedLater(h: seq<Call>, p: nat, q: nat)
    requires Timely(h) && 0 < p < q < |Recent(h)|
    ensures Seen(h, Recent(h)[p]) && Seen(h, Recent(h)[q])
    ensures LastSeen(h, Recent(h)[p]) >= LastSeen(h, Recent(h)[q])
    decreases |h|, 0
  {
    hide LastSeen;
    var n := |h| - 1;
    var before, c := Recent(h[..n]), h[n].key;
    var i, j := PlacesKeepOrder(before, c, p - 1, q - 1);
    RecentOrdered(h[..n], i, j);
    LastSeenBefore(h, before[i]);
    LastSeenBefore(h, before[j]);
  }

  lemma PlacesKeepOrder(s: seq<Key>, x: Key, a: nat, b: nat) returns (i: nat, j: nat)
    requires a < b < |Without(s, x)|
    ensures i < j < |s| && s[i] == Without(s, x)[a] && s[j] == Without(s, x)[b] && s[i] != x && s[j] != x
  {
    j := PlaceBefore(s, x, b);
    var w := Without(s, x);
    assert w[..b][a] == w[a];
    assert w[a] in s[..j];
    var k :| 0 <= k < j && s[..j][k] == w[a];
    assert s[k] == w[a];
    i :| 0 <= i < j && s[i] == Without(s, x)[a];
  }

  lemma {:induction false} SeenBy(h: seq<Call>, k: Key)
    requires Timely(h) && Seen(h, k)
    ensures LastSeen(h, k) <= h[|h| - 1].time
  {
    var n := |h| - 1;
    if h[n].key != k {
      SeenEarlier(h, k);
      SeenBy(h[..n], k);
    }
  }

  // ---- The table against the history ----

  /** Keys no longer in the table: from place `from` on in the order, each out by number or by age. */
  predicate Gone(h: seq<Call>, rest: seq<Key>, from: nat, now: Time, max: nat, idle: int) {
    forall i :: 0 <= i < |rest| ==> Seen(h, rest[i]) && (from + i >= max || now - LastSeen(h, rest[i]) > idle)
  }

  /** The table holds the front of the order, with each key's state and time; the rest is gone. */
  ghost predicate Holds(h: seq<Call>, lru: seq<Key>, entries: map<Key, Entry>, rest: seq<Key>, now: Time, max: nat, idle: int) {
    Recent(h) == lru + rest && ToSet(lru) == entries.Keys
    && (forall k :: k in lru ==> Seen(h, k) && entries[k] == Entry(StateOf(h, k, max, idle), LastSeen(h, k)))
    && Gone(h, rest, |lru|, now, max, idle)
  }

  /** A key in the table answers from it exactly when it survives; a key not in the table does not survive. */
  lemma LookUp(h: seq<Call>, lru: seq<Key>, entries: map<Key, Entry>, rest: seq<Key>, now: Time, max: nat, idle: int, c: Call)
    requires Holds(h, lru, entries, rest, now, max, idle) && |lru| <= max && now <= c.time
    ensures Survives(h, c, max, idle) <==> c.key in entries && c.time - entries[c.key].seen <= idle
  {
    RecentIs(h);
    if Seen(h, c.key) {
      var p :| 0 <= p < |Recent(h)| && Recent(h)[p] == c.key;
      PlaceIsCount(h, p);
      if p < |lru| {
        assert lru[p] == c.key;
      } else {
        assert rest[p - |lru|] == c.key;
        NotInFront(lru, rest, p);
      }
    }
  }

  lemma NotInFront(a: seq<Key>, b: seq<Key>, p: nat)
    requires Distinct(a + b) && |a| <= p < |a + b|
    ensures (a + b)[p] !in a
  {
    forall i | 0 <= i < |a| ensures a[i] != (a + b)[p] { assert (a + b)[i] == a[i]; }
  }

  // ---- The steps of get ----

  lemma {:induction false} RestPlaces(s: seq<Key>, x: Key, i: nat) returns (j: nat)
    requires Distinct(s) && i < |Without(s, x)|
    ensures j < |s| && s[j] == Without(s, x)[i] && j <= i + 1
  {
    HeadNotInTail(s);
    if s[0] == x {
      WithoutIs(s[1..], x);
      j := i + 1;
    } else if i == 0 {
      j := 0;
    } else {
      j := RestPlaces(s[1..], x, i - 1);
      j := j + 1;
    }
  }

  lemma FrontDistinct(a: seq<Key>, b: seq<Key>)
    requires Distinct(a + b)
    ensures Distinct(a) && Distinct(b)
    ensures forall x :: x in a ==> x !in b
  {
    var s := a + b;
    assert forall i :: 0 <= i < |a| ==> a[i] == s[i];
    assert forall j :: 0 <= j < |b| ==> b[j] == s[|a| + j];
  }

  /** What was gone stays gone: a place in the order only grows, and so does an age. */
  lemma GoneStays(h: seq<Call>, rest: seq<Key>, from: nat, now: Time, max: nat, idle: int, c: Call)
    requires Gone(h, rest, from, now, max, idle) && Distinct(rest) && now <= c.time
    ensures Gone(h + [c], Without(rest, c.key), if c.key in rest then from + 1 else from, c.time, max, idle)
  {
    hide LastSeen;
    var h', rest' := h + [c], Without(rest, c.key);
    assert h'[..|h|] == h;
    WithoutIs(rest, c.key);
    forall i | 0 <= i < |rest'|
      ensures Seen(h', rest'[i])
      ensures (if c.key in rest then from + 1 else from) + i >= max || c.time - LastSeen(h', rest'[i]) > idle
    {
      var j := RestPlaces(rest, c.key, i);
      if c.key !in rest { j := i; }
      assert rest'[i] in rest' && rest'[i] != c.key;
      LastSeenBefore(h', rest[j]);
    }
  }

  /** A key not in the table at all and one in its gone part differ only in `from`. */
  lemma GoneFrom(h: seq<Call>, rest: seq<Key>, from: nat, more: nat, now: Time, max: nat, idle: int)
    requires Gone(h, rest, from, now, max, idle) && from <= more
    ensures Gone(h, rest, more, now, max, idle)
  {}

  /** The called key goes to the front with its answer and its time. */
  lemma ToFront(h: seq<Call>, lru: seq<Key>, entries: map<Key, Entry>, rest: seq<Key>, now: Time, max: nat, idle: int, c: Call)
    requires Holds(h, lru, entries, rest, now, max, idle) && now <= c.time
    ensures Holds(h + [c], [c.key] + Without(lru, c.key), entries[c.key := Entry(Answer(h, c, max, idle), c.time)],
                  Without(rest, c.key), c.time, max, idle)
    ensures |[c.key] + Without(lru, c.key)| == |lru| + if c.key in lru then 0 else 1
  {
    hide LastSeen, Gone, StateOf, Answer, Seen, Recent, Without, Distinct;
    RecentIs(h);
    FrontDistinct(lru, rest);
    WithoutIs(lru, c.key);
    RecentFront(h, lru, rest, c);
    FrontGone(h, lru, rest, now, max, idle, c);
    KeysOf(lru, entries);
    FrontEntries(h, lru, entries, max, idle, c);
    assert ToSet([c.key] + Without(lru, c.key)) == entries.Keys + {c.key};
  }

  lemma FrontGone(h: seq<Call>, lru: seq<Key>, rest: seq<Key>, now: Time, max: nat, idle: int, c: Call)
    requires Gone(h, rest, |lru|, now, max, idle) && Distinct(lru + rest) && now <= c.time
    ensures Gone(h + [c], Without(rest, c.key), |[c.key] + Without(lru, c.key)|, c.time, max, idle)
    ensures |[c.key] + Without(lru, c.key)| == |lru| + if c.key in lru then 0 else 1
  {
    hide LastSeen, Gone, Seen, Without;
    FrontDistinct(lru, rest);
    WithoutIs(lru, c.key);
    GoneStays(h, rest, |lru|, now, max, idle, c);
    if c.key !in rest {
      GoneFrom(h + [c], Without(rest, c.key), |lru|, |[c.key] + Without(lru, c.key)|, c.time, max, idle);
    }
  }

  lemma KeysOf(lru: seq<Key>, entries: map<Key, Entry>)
    requires ToSet(lru) == entries.Keys
    ensures forall k :: k in lru <==> k in entries
  {
    assert forall k :: k in lru <==> k in ToSet(lru);
  }

  lemma RecentFront(h: seq<Call>, lru: seq<Key>, rest: seq<Key>, c: Call)
    requires Recent(h) == lru + rest
    ensures Recent(h + [c]) == ([c.key] + Without(lru, c.key)) + Without(rest, c.key)
  {
    assert (h + [c])[..|h|] == h;
    WithoutConcat(lru, rest, c.key);
  }

  lemma FrontEntries(h: seq<Call>, lru: seq<Key>, entries: map<Key, Entry>, max: nat, idle: int, c: Call)
    requires Distinct(lru)
    requires forall k :: k in lru ==> k in entries && Seen(h, k) && entries[k] == Entry(StateOf(h, k, max, idle), LastSeen(h, k))
    ensures var entries' := entries[c.key := Entry(Answer(h, c, max, idle), c.time)];
            forall k :: k in [c.key] + Without(lru, c.key) ==>
              k in entries' && Seen(h + [c], k) && entries'[k] == Entry(StateOf(h + [c], k, max, idle), LastSeen(h + [c], k))
  {
    var h' := h + [c];
    assert h'[..|h|] == h && h'[|h|] == c;
    WithoutIs(lru, c.key);
    forall k | k in [c.key] + Without(lru, c.key)
      ensures Seen(h', k)
      ensures entries[c.key := Entry(Answer(h, c, max, idle), c.time)][k] == Entry(StateOf(h', k, max, idle), LastSeen(h', k))
    {
      SeenSplit(h', k);
    }
  }

  /** The key at the back leaves the table, by number or by age. */
  lemma DropBack(h: seq<Call>, lru: seq<Key>, entries: map<Key, Entry>, rest: seq<Key>, now: Time, max: nat, idle: int)
    requires Holds(h, lru, entries, rest, now, max, idle) && lru != []
    requires |lru| > max || now - entries[lru[|lru| - 1]].seen > idle
    ensures Holds(h, lru[..|lru| - 1], entries - {lru[|lru| - 1]}, [lru[|lru| - 1]] + rest, now, max, idle)
  {
    hide LastSeen, StateOf, Recent, Since, Seen;
    var n := |lru| - 1;
    var z := lru[n];
    RecentIs(h);
    FrontDistinct(lru, rest);
    assert lru == lru[..n] + [z];
    FrontDistinct(lru[..n], [z]);
    assert lru[..n] + ([z] + rest) == lru + rest;
    assert z in lru;
    assert ToSet(lru) == ToSet(lru[..n]) + {z};
    assert z in [z];
    assert ToSet(lru[..n]) == entries.Keys - {z};
  }

  // ---- The table ----

  class Table {
    const max: nat
    const idle: int
    /** byKey and the list of elements, front first; an element is named by its key. */
    var byKey: map<Key, Entry>
    var lru: seq<Key>
    ghost var history: seq<Call>
    ghost var rest: seq<Key>

    ghost predicate Valid()
      reads this
    {
      |lru| <= max && Timely(history) && Distinct(lru)
      && Holds(history, lru, byKey, rest, Clock(history), max, idle)
    }

    constructor (max: nat, idle: int)
      ensures Valid() && history == [] && this.max == max && this.idle == idle
    {
      this.max, this.idle := max, idle;
      byKey, lru, history, rest := map[], [], [], [];
      new;
      assert ToSet([]) == {};
    }

    /** get answers what the history says, and the map and the list hold the same distinct keys, at most max of them. */
    method Get(key: Key, now: Time, newState: St) returns (st: St)
      requires Valid() && (history != [] ==> history[|history| - 1].time <= now) && newState == |history|
      modifies this
      ensures Valid() && history == old(history) + [Call(key, now)]
      ensures st == Answer(old(history), Call(key, now), max, idle)
      ensures ToSet(lru) == byKey.Keys && |lru| <= max
    {
      hide Holds, Timely, Answer;
      ghost var c := Call(key, now);
      ghost var t := if history == [] then now else Clock(history);
      ClockAdvances(history, c);
      if history == [] { AnyClock(lru, byKey, rest, now, max, idle); }
      Answered(history, lru, byKey, rest, t, max, idle, c);
      ToFront(history, lru, byKey, rest, t, max, idle, c);
      var hit := key in byKey && now - byKey[key].seen <= idle;
      if hit {
        st := byKey[key].st;
      } else {
        st := newState;
        if key in byKey { byKey := byKey - {key}; }
      }
      byKey := byKey[key := Entry(st, now)];
      assert byKey == old(byKey)[key := Entry(st, now)];
      lru := [key] + Without(lru, key);
      rest := Without(rest, key);
      history := history + [c];
      if !hit { Trim(now); }
      Finish();
    }

    lemma Finish()
      requires Holds(history, lru, byKey, rest, Clock(history), max, idle)
      ensures Distinct(lru) && ToSet(lru) == byKey.Keys
    {
      RecentIs(history);
      FrontDistinct(lru, rest);
    }

    /** The two eviction loops. */
    method Trim(now: Time)
      requires Holds(history, lru, byKey, rest, now, max, idle)
      modifies this`lru, this`byKey, this`rest
      ensures Holds(history, lru, byKey, rest, now, max, idle) && |lru| <= max
    {
      hide Holds;
      while |lru| > max
        invariant Holds(history, lru, byKey, rest, now, max, idle)
        decreases |lru|
      {
        RemoveBack(now);
      }
      while lru != [] && lru[|lru| - 1] in byKey && now - byKey[lru[|lru| - 1]].seen > idle
        invariant |lru| <= max && Holds(history, lru, byKey, rest, now, max, idle)
        decreases |lru|
      {
        RemoveBack(now);
      }
    }

    method RemoveBack(now: Time)
      requires Holds(history, lru, byKey, rest, now, max, idle) && lru != []
      requires |lru| > max || (lru[|lru| - 1] in byKey && now - byKey[lru[|lru| - 1]].seen > idle)
      modifies this`lru, this`byKey, this`rest
      ensures Holds(history, lru, byKey, rest, now, max, idle) && |lru| == |old(lru)| - 1
    {
      hide Holds;
      DropBack(history, lru, byKey, rest, now, max, idle);
      var last := lru[|lru| - 1];
      lru := lru[..|lru| - 1];
      byKey := byKey - {last};
      rest := [last] + rest;
    }
  }

  lemma ClockAdvances(h: seq<Call>, c: Call)
    requires Timely(h) && (h != [] ==> Clock(h) <= c.time)
    ensures Timely(h + [c]) && Clock(h + [c]) == c.time
  {}

  lemma AnyClock(lru: seq<Key>, entries: map<Key, Entry>, rest: seq<Key>, now: Time, max: nat, idle: int)
    requires Holds([], lru, entries, rest, 0, max, idle)
    ensures Holds([], lru, entries, rest, now, max, idle)
  {
    assert lru + rest == [];
    assert rest == [];
  }

  /** A hit answers the key's state; anything else a new one; and a hit finds the key in the list. */
  lemma Answered(h: seq<Call>, lru: seq<Key>, entries: map<Key, Entry>, rest: seq<Key>, now: Time, max: nat, idle: int, c: Call)
    requires Holds(h, lru, entries, rest, now, max, idle) && |lru| <= max && now <= c.time
    ensures var hit := c.key in entries && c.time - entries[c.key].seen <= idle;
            Answer(h, c, max, idle) == (if hit then entries[c.key].st else |h|) && (hit ==> c.key in lru)
  {
    hide LastSeen, StateOf, Gone;
    LookUp(h, lru, entries, rest, now, max, idle, c);
    assert c.key in entries <==> c.key in ToSet(lru);
  }

  /** The time of the last call. */
  function Clock(h: seq<Call>): Time { if h == [] then 0 else h[|h| - 1].time }
}
