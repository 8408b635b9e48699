/** The sliding-window limit on device calls, against the log of what was allowed. */
module RateLimit {

  type Key = nat
  type Time = int

  const MINUTE := 60_000_000_000   // nanoseconds
  const LIMIT := 30

  datatype Event = Event(key: Key, time: Time, ok: bool)

  // ---- The reference ----

  /** The times among ts after cut. */
  function After(ts: seq<Time>, cut: Time): seq<Time> {
    if ts == [] then [] else
    var front, last := ts[..|ts| - 1], ts[|ts| - 1];
    if last > cut then After(front, cut) + [last] else After(front, cut)
  }

  /** When calls for k were allowed. */
  function AllowedTimes(log: seq<Event>, k: Key): seq<Time> {
    if log == [] then [] else
    var e := log[|log| - 1];
    var before := AllowedTimes(log[..|log| - 1], k);
    if e.key == k && e.ok then before + [e.time] else before
  }

  /** Fewer than 30 calls for k were allowed in the minute before now. */
  predicate Within(log: seq<Event>, k: Key, now: Time) { |After(AllowedTimes(log, k), now - MINUTE)| < LIMIT }

  predicate Timely(log: seq<Event>) { forall i, j :: 0 <= i < j < |log| ==> log[i].time <= log[j].time }

  /** Every event was decided by the rule. */
  predicate Ruled(log: seq<Event>) {
    forall i :: 0 <= i < |log| ==> (log[i].ok <==> Within(log[..i], log[i].key, log[i].time))
  }

  /** The allowed calls for k after cut, by their places in the log. */
  function AllowedAfter(log: seq<Event>, k: Key, cut: Time): set<nat> {
    set i: nat | i < |log| && log[i].key == k && log[i].ok && log[i].time > cut
  }

  /** The rule counts exactly those of the minute before now, its start left out. */
  lemma WithinIs(log: seq<Event>, k: Key, now: Time)
    ensures Within(log, k, now) <==> |AllowedAfter(log, k, now - MINUTE)| < LIMIT
  {
    AfterCounts(log, k, now - MINUTE);
  }

  lemma {:induction false} AfterCounts(log: seq<Event>, k: Key, cut: Time)
    ensures |After(AllowedTimes(log, k), cut)| == |AllowedAfter(log, k, cut)|
  {
    if log == [] {
      assert AllowedAfter(log, k, cut) == {};
    } else {
      var n := |log| - 1;
      var e := log[n];
      AfterCounts(log[..n], k, cut);
      AllowedLast(log, k);
      hide After, AllowedTimes, AllowedAfter;
      if e.key == k && e.ok { AfterLast(AllowedTimes(log[..n], k), e.time, cut); }
      AllowedAfterLast(log, k, cut);
    }
  }

  lemma AllowedAfterLast(log: seq<Event>, k: Key, cut: Time)
    requires log != []
    ensures var n := |log| - 1;
            var e, before := log[n], AllowedAfter(log[..n], k, cut);
            AllowedAfter(log, k, cut) == (if e.key == k && e.ok && e.time > cut then before + {n} else before)
            && n !in before
  {}

  lemma AfterLast(ts: seq<Time>, t: Time, cut: Time)
    ensures After(ts + [t], cut) == if t > cut then After(ts, cut) + [t] else After(ts, cut)
  {
    assert (ts + [t])[..|ts|] == ts;
  }

  // ---- What the rule guarantees ----

  function Between(ts: seq<Time>, from: Time, to: Time): nat {
    if ts == [] then 0 else Between(ts[..|ts| - 1], from, to) + if from < ts[|ts| - 1] <= to then 1 else 0
  }

  lemma {:induction false} BetweenIsAfter(ts: seq<Time>, from: Time, to: Time, cut: Time)
    requires cut <= from
    ensures Between(ts, from, to) <= |After(ts, cut)|
  {
    if ts != [] { BetweenIsAfter(ts[..|ts| - 1], from, to, cut); }
  }

  lemma AllowedLast(log: seq<Event>, k: Key)
    requires log != []
    ensures var before, e := AllowedTimes(log[..|log| - 1], k), log[|log| - 1];
            AllowedTimes(log, k) == if e.key == k && e.ok then before + [e.time] else before
  {}

  lemma OneMoreFits(log: seq<Event>, k: Key, t: Time, end: Time)
    requires Between(AllowedTimes(log, k), end - MINUTE, end) <= LIMIT && Within(log, k, t)
    ensures Between(AllowedTimes(log, k) + [t], end - MINUTE, end) <= LIMIT
  {
    hide AllowedTimes, After;
    var ts := AllowedTimes(log, k);
    assert (ts + [t])[..|ts|] == ts;
    if end - MINUTE < t <= end { BetweenIsAfter(ts, end - MINUTE, end, t - MINUTE); }
  }

  /** Whatever the calls, no minute of a run has more than 30 allowed calls for a key. */
  lemma {:induction false} AtMostLimit(log: seq<Event>, k: Key, end: Time)
    requires Ruled(log)
    ensures Between(AllowedTimes(log, k), end - MINUTE, end) <= LIMIT
  {
    if log != [] {
      hide AllowedTimes, Ruled, After, Between, Within;
      var n := |log| - 1;
      RuledFront(log);
      AtMostLimit(log[..n], k, end);
      AllowedLast(log, k);
      if log[n].key == k && log[n].ok { OneMoreFits(log[..n], k, log[n].time, end); }
    } else {
      assert AllowedTimes(log, k) == [];
    }
  }

  lemma RuledFront(log: seq<Event>)
    requires Ruled(log) && log != []
    ensures Ruled(log[..|log| - 1])
    ensures var e := log[|log| - 1]; e.ok <==> Within(log[..|log| - 1], e.key, e.time)
  {
    hide Within;
    var before := log[..|log| - 1];
    assert forall i :: 0 <= i < |before| ==> before[..i] == log[..i] && before[i] == log[i];
  }

  // ---- Filtering ----

  lemma {:induction false} AfterAgain(ts: seq<Time>, cut: Time, later: Time)
    requires cut <= later
    ensures After(After(ts, cut), later) == After(ts, later)
  {
    if ts != [] {
      var front, last := ts[..|ts| - 1], ts[|ts| - 1];
      AfterAgain(front, cut, later);
      if last > cut {
        var a := After(front, cut);
        assert (a + [last])[..|a|] == a;
      }
    }
  }

  predicate Ascending(ts: seq<Time>) { forall i, j :: 0 <= i < j < |ts| ==> ts[i] <= ts[j] }

  lemma {:induction false} AfterNone(ts: seq<Time>, cut: Time)
    requires Ascending(ts) && (ts == [] || ts[|ts| - 1] <= cut)
    ensures After(ts, cut) == []
  {
    if ts != [] { AfterNone(ts[..|ts| - 1], cut); }
  }

  lemma AscendingPush(ts: seq<Time>, x: Time)
    requires Ascending(ts) && forall t :: t in ts ==> t <= x
    ensures Ascending(ts + [x])
  {
    forall i | 0 <= i < |ts| ensures ts[i] <= x { assert ts[i] in ts; }
  }

  lemma {:induction false} AfterAscending(ts: seq<Time>, cut: Time)
    requires Ascending(ts)
    ensures Ascending(After(ts, cut))
    ensures forall t :: t in After(ts, cut) ==> t in ts && t > cut
  {
    if ts != [] {
      var n := |ts| - 1;
      AfterAscending(ts[..n], cut);
      forall t | t in ts[..n] ensures t in ts && t <= ts[n] {
        var i :| 0 <= i < n && ts[..n][i] == t;
        assert ts[i] == t;
      }
      AscendingPush(After(ts[..n], cut), ts[n]);
    }
  }

  /** The filter as it runs, in place: what it keeps slides to the front of the same array. */
  method FilterInPlace(hs: array<Time>, n: nat, cut: Time) returns (k: nat)
    requires n <= hs.Length
    modifies hs
    ensures k <= n && hs[..k] == After(old(hs[..n]), cut) && hs[n..] == old(hs[n..])
  {
    k := 0;
    for i := 0 to n
      invariant k <= i && forall j :: i <= j < hs.Length ==> hs[j] == old(hs[j])
      invariant hs[..k] == After(old(hs[..i]), cut)
    {
      assert old(hs[..i + 1])[..i] == old(hs[..i]);
      assert hs[i] == old(hs[i]);
      if hs[i] > cut {
        hs[k] := hs[i];
        k := k + 1;
      }
    }
  }

  // ---- The limiter ----

  function Clock(log: seq<Event>): Time { if log == [] then 0 else log[|log| - 1].time }

  function HitsOf(hits: map<Key, seq<Time>>, k: Key): seq<Time> { if k in hits then hits[k] else [] }

  /** After cut, the table and the log agree on every key. */
  ghost predicate Agree(hits: map<Key, seq<Time>>, log: seq<Event>, cut: Time) {
    forall k :: AgreeOn(hits, log, cut, k)
  }

  ghost predicate AgreeOn(hits: map<Key, seq<Time>>, log: seq<Event>, cut: Time, k: Key) {
    After(HitsOf(hits, k), cut) == After(AllowedTimes(log, k), cut)
  }

  ghost predicate Orderly(hits: map<Key, seq<Time>>, now: Time) {
    forall k :: k in hits ==> Ascending(hits[k]) && forall t :: t in hits[k] ==> t <= now
  }

  lemma AgreeLater(hits: map<Key, seq<Time>>, log: seq<Event>, cut: Time, later: Time)
    requires Agree(hits, log, cut) && cut <= later
    ensures Agree(hits, log, later)
  {
    hide After, AllowedTimes;
    forall k ensures AgreeOn(hits, log, later, k) {
      assert AgreeOn(hits, log, cut, k);
      AfterAgain(HitsOf(hits, k), cut, later);
      AfterAgain(AllowedTimes(log, k), cut, later);
    }
  }

  /** Dropping keys whose last call is older than the window changes nothing the rule can see. */
  lemma DropStale(hits: map<Key, seq<Time>>, kept: map<Key, seq<Time>>, log: seq<Event>, cut: Time)
    requires Agree(hits, log, cut)
    requires kept.Keys <= hits.Keys && forall k :: k in kept ==> kept[k] == hits[k]
    requires forall k :: k in hits && k !in kept ==> Ascending(hits[k]) && (hits[k] == [] || hits[k][|hits[k]| - 1] < cut)
    ensures Agree(kept, log, cut)
  {
    hide AllowedTimes;
    forall k ensures AgreeOn(kept, log, cut, k) {
      assert AgreeOn(hits, log, cut, k);
      if k in hits && k !in kept { AfterNone(hits[k], cut); }
    }
  }

  /** Recording a call: the key's own times filtered and, when allowed, the new one. */
  lemma Recorded(hits: map<Key, seq<Time>>, log: seq<Event>, e: Event, ts: seq<Time>)
    requires Agree(hits, log, e.time - MINUTE)
    requires var kept := After(HitsOf(hits, e.key), e.time - MINUTE); ts == if e.ok then kept + [e.time] else kept
    ensures Agree(hits[e.key := ts], log + [e], e.time - MINUTE)
  {
    var cut := e.time - MINUTE;
    var log', hits' := log + [e], hits[e.key := ts];
    assert log'[..|log|] == log;
    forall k ensures AgreeOn(hits', log', cut, k) {
      assert AgreeOn(hits, log, cut, k);
      if k == e.key {
        AfterAgain(HitsOf(hits, k), cut, cut);
        if e.ok {
          AfterMore(After(HitsOf(hits, k), cut), e.time, cut);
          AfterMore(AllowedTimes(log, k), e.time, cut);
        }
      }
    }
  }

  lemma AfterMore(ts: seq<Time>, t: Time, cut: Time)
    requires t > cut
    ensures After(ts + [t], cut) == After(ts, cut) + [t]
  {
    assert (ts + [t])[..|ts|] == ts;
  }

  // ---- The table in memory ----

  /** A Go slice: the first len places of a buffer. */
  datatype Slice = Slice(buf: array<Time>, len: nat)

  /** Every slice fits its buffer, and no two keys share one: filtering one key's times must not touch another's. */
  ghost predicate Apart(table: map<Key, Slice>) {
    (forall k :: k in table ==> table[k].len <= table[k].buf.Length)
    && forall k, m :: k in table && m in table && k != m ==> table[k].buf != table[m].buf
  }

  ghost function Buffers(table: map<Key, Slice>): set<array<Time>> { set k | k in table :: table[k].buf }

  /** The times each key's slice holds. */
  ghost function Times(table: map<Key, Slice>): map<Key, seq<Time>>
    requires Apart(table)
    reads Buffers(table)
  {
    map k | k in table :: table[k].buf[..table[k].len]
  }

  /** append: in the buffer when it has room, else in a larger one. */
  method Append(s: Slice, x: Time) returns (r: Slice)
    requires s.len <= s.buf.Length
    modifies s.buf
    ensures r.len == s.len + 1 <= r.buf.Length && r.buf[..r.len] == old(s.buf[..s.len]) + [x]
    ensures r.buf == s.buf || fresh(r.buf)
  {
    if s.len < s.buf.Length {
      s.buf[s.len] := x;
      r := Slice(s.buf, s.len + 1);
    } else {
      var buf := new Time[2 * s.len + 1](k requires 0 <= k reads s.buf => if k < s.len then s.buf[k] else 0);
      buf[s.len] := x;
      r := Slice(buf, s.len + 1);
      assert buf[..s.len] == s.buf[..s.len];
    }
  }

  class AiDeviceRate {
    var hits: map<Key, Slice>
    ghost var log: seq<Event>

    ghost predicate Valid()
      reads this, Buffers(hits)
    {
      Timely(log) && Ruled(log) && Apart(hits)
      && (log == [] ==> hits == map[])
      && (log != [] ==> Agree(Times(hits), log, Clock(log) - MINUTE) && Orderly(Times(hits), Clock(log)))
    }

    constructor ()
      ensures Valid() && log == [] && hits == map[]
    {
      hits, log := map[], [];
    }

    /** allow refuses a call exactly when 30 calls for its key were allowed in the minute before it. The filter and the
        append write into the key's own buffer. */
    method Allow(key: Key, now: Time) returns (ok: bool)
      requires Valid() && (log != [] ==> Clock(log) <= now)
      modifies this, Buffers(hits)
      ensures Valid() && log == old(log) + [Event(key, now, ok)] && fresh(Buffers(hits) - old(Buffers(hits)))
      ensures ok <==> Within(old(log), key, now)
    {
      hide Agree, Orderly, Ruled, Within, Timely, After, AllowedTimes, Apart, HitsOf, Times, Clock;
      Catch(now);
      DropOld(now);
      ghost var kept := Times(hits);
      ok := Record(key, now);
      Decided(kept, Event(key, now, ok));
      log := log + [Event(key, now, ok)];
    }

    /** Keys without a call in the last minute leave the table. */
    method DropOld(now: Time)
      requires Apart(hits) && Agree(Times(hits), log, now - MINUTE) && Orderly(Times(hits), now)
      modifies this`hits
      ensures Apart(hits) && Buffers(hits) <= old(Buffers(hits))
      ensures Agree(Times(hits), log, now - MINUTE) && Orderly(Times(hits), now)
    {
      hide Agree, Orderly;
      var cut := now - MINUTE;
      var live := map k | k in hits && !(hits[k].len == 0 || hits[k].buf[hits[k].len - 1] < cut) :: hits[k];
      LiveTimes(live, cut);
      Stale(Times(hits), Times(live), now);
      hits := live;
    }

    lemma LiveTimes(live: map<Key, Slice>, cut: Time)
      requires Apart(hits)
      requires live == map k | k in hits && !(hits[k].len == 0 || hits[k].buf[hits[k].len - 1] < cut) :: hits[k]
      ensures Apart(live) && Buffers(live) <= Buffers(hits)
      ensures var all := Times(hits);
              Times(live) == map k | k in all && !(all[k] == [] || all[k][|all[k]| - 1] < cut) :: all[k]
    {}

    /** The key's own times, filtered in place; the call is recorded when there are fewer than 30 of them. */
    method Record(key: Key, now: Time) returns (ok: bool)
      requires Apart(hits)
      modifies this`hits, Buffers(hits)
      ensures Apart(hits) && fresh(Buffers(hits) - old(Buffers(hits)))
      ensures var recent := After(HitsOf(old(Times(hits)), key), now - MINUTE);
              ok == (|recent| < LIMIT)
              && Times(hits) == old(Times(hits))[key := if ok then recent + [now] else recent]
    {
      hide After;
      ghost var before := Times(hits);
      var kept := FilterKey(key, now - MINUTE);
      ok := kept.len < LIMIT;
      if ok { kept := Append(kept, now); }
      Store(key, kept, before);
    }

    /** The key's slice in the table; the other keys hold what they held before. */
    method Store(key: Key, kept: Slice, ghost before: map<Key, seq<Time>>)
      requires Apart(hits) && kept.len <= kept.buf.Length && before.Keys == hits.Keys
      requires forall k :: k in hits && k != key ==> hits[k].buf != kept.buf && hits[k].buf[..hits[k].len] == before[k]
      modifies this`hits
      ensures Apart(hits) && Buffers(hits) <= old(Buffers(hits)) + {kept.buf}
      ensures Times(hits) == before[key := kept.buf[..kept.len]]
    {
      StoredTimes(key, kept, before);
      hits := hits[key := kept];
    }

    lemma StoredTimes(key: Key, kept: Slice, before: map<Key, seq<Time>>)
      requires Apart(hits) && kept.len <= kept.buf.Length && before.Keys == hits.Keys
      requires forall k :: k in hits && k != key ==> hits[k].buf != kept.buf && hits[k].buf[..hits[k].len] == before[k]
      ensures var table := hits[key := kept];
              Apart(table) && Buffers(table) <= Buffers(hits) + {kept.buf} && Times(table) == before[key := kept.buf[..kept.len]]
    {}

    method FilterKey(key: Key, cut: Time) returns (kept: Slice)
      requires Apart(hits)
      modifies Buffers(hits)
      ensures kept.len <= kept.buf.Length && kept.buf[..kept.len] == After(HitsOf(old(Times(hits)), key), cut)
      ensures fresh({kept.buf} - Buffers(hits))
      ensures forall k :: k in hits && k != key ==>
        hits[k].buf != kept.buf && hits[k].buf[..hits[k].len] == old(hits[k].buf[..hits[k].len])
    {
      hide After;
      ghost var before := Times(hits);
      var empty := new Time[0];
      var hs := if key in hits then hits[key] else Slice(empty, 0);
      assert hs.buf[..hs.len] == HitsOf(before, key);
      var n := FilterInPlace(hs.buf, hs.len, cut);
      kept := Slice(hs.buf, n);
    }

    lemma Catch(now: Time)
      requires Valid() && (log != [] ==> Clock(log) <= now)
      ensures Agree(Times(hits), log, now - MINUTE) && Orderly(Times(hits), now)
    {
      if log != [] { AgreeLater(Times(hits), log, Clock(log) - MINUTE, now - MINUTE); }
    }

    lemma Stale(all: map<Key, seq<Time>>, kept: map<Key, seq<Time>>, now: Time)
      requires Agree(all, log, now - MINUTE) && Orderly(all, now)
      requires kept == map k | k in all && !(all[k] == [] || all[k][|all[k]| - 1] < now - MINUTE) :: all[k]
      ensures Agree(kept, log, now - MINUTE) && Orderly(kept, now)
    {
      DropStale(all, kept, log, now - MINUTE);
    }

    /** What the call does to the table and the log is what the rule says. */
    lemma Decided(kept: map<Key, seq<Time>>, e: Event)
      requires Timely(log) && Ruled(log) && (log != [] ==> Clock(log) <= e.time)
      requires Agree(kept, log, e.time - MINUTE) && Orderly(kept, e.time)
      requires e.ok == (|After(HitsOf(kept, e.key), e.time - MINUTE)| < LIMIT)
      ensures e.ok <==> Within(log, e.key, e.time)
      ensures Timely(log + [e]) && Ruled(log + [e]) && Clock(log + [e]) == e.time
      ensures var recent := After(HitsOf(kept, e.key), e.time - MINUTE);
              var times := kept[e.key := if e.ok then recent + [e.time] else recent];
              Agree(times, log + [e], e.time - MINUTE) && Orderly(times, e.time)
    {
      var recent := After(HitsOf(kept, e.key), e.time - MINUTE);
      var ts := if e.ok then recent + [e.time] else recent;
      SameCount(kept, e.key, e.time);
      hide Agree, Orderly, Ruled, Within, Timely, After, AllowedTimes;
      Recorded(kept, log, e, ts);
      StaysOrderly(kept, e.key, e.time, HitsOf(kept, e.key), ts);
      RuleHolds(e);
    }

    lemma SameCount(kept: map<Key, seq<Time>>, key: Key, now: Time)
      requires Agree(kept, log, now - MINUTE)
      ensures |After(HitsOf(kept, key), now - MINUTE)| < LIMIT <==> Within(log, key, now)
    {
      assert AgreeOn(kept, log, now - MINUTE, key);
    }

    lemma StaysOrderly(kept: map<Key, seq<Time>>, key: Key, now: Time, hs: seq<Time>, ts: seq<Time>)
      requires Orderly(kept, now) && hs == HitsOf(kept, key)
      requires ts == After(hs, now - MINUTE) || ts == After(hs, now - MINUTE) + [now]
      ensures Orderly(kept[key := ts], now)
    {
      AfterAscending(hs, now - MINUTE);
      AscendingPush(After(hs, now - MINUTE), now);
    }

    lemma RuleHolds(e: Event)
      requires Timely(log) && Ruled(log) && (log != [] ==> Clock(log) <= e.time) && (e.ok <==> Within(log, e.key, e.time))
      ensures Timely(log + [e]) && Ruled(log + [e]) && Clock(log + [e]) == e.time
    {
      hide Within;
      var log' := log + [e];
      assert forall i :: 0 <= i < |log| ==> log'[..i] == log[..i];
      assert log'[..|log|] == log;
    }
  }
}
