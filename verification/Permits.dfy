/** The permits of a slot: who holds one, from the queue through posts and streams to the release. */
module Permits {
  // Each channel operation and each mutex section is one atomic step of one call.

  type Call = nat
  datatype Kind = Post | Stream

  datatype Phase =
    | Tried(kind: Kind)      // no permit was free
    | Waiting(kind: Kind)    // counted in the waiting room
    | Granted(kind: Kind)    // has a permit, still counted
    | TimedOut               // gave up, still counted
    | Holding(kind: Kind)    // a post in progress, or a stream opening: the deferred release is armed
    | HandedOver             // a stream whose close hook owns the permit
    | Open                   // in the table of streams
    | Dropped                // out of the table, not closed yet
    | Closing                // closed, its hooks taken
    | Ended

  predicate HasPermit(p: Phase) {
    p.Granted? || p.Holding? || p.HandedOver? || p.Open? || p.Dropped? || p.Closing?
  }

  predicate IsWaiting(p: Phase) { p.Waiting? || p.Granted? || p.TimedOut? }

  /** `acquired` and `released` record which calls ever took a permit and gave it back. */
  datatype State = State(
    maxInFlight: nat, capacity: int, permits: nat, waiting: nat, calls: map<Call, Phase>,
    acquired: set<Call>, released: set<Call>)

  ghost function Holders(s: State): set<Call> { set c | c in s.calls && HasPermit(s.calls[c]) }
  ghost function Waiters(s: State): set<Call> { set c | c in s.calls && IsWaiting(s.calls[c]) }

  ghost predicate PermitsOk(s: State) { s.permits == |Holders(s)| && s.permits <= s.maxInFlight }

  ghost predicate WaitersOk(s: State) { s.waiting == |Waiters(s)| && (s.waiting > 0 ==> s.waiting <= s.capacity) }

  /** The permits taken and not given back are those held, and a call takes one at most once. */
  ghost predicate LedgerOk(s: State) {
    s.released <= s.acquired && s.acquired - s.released == Holders(s)
    && forall c :: c in s.acquired ==> c in s.calls && (HasPermit(s.calls[c]) || s.calls[c].Ended?)
  }

  ghost predicate Inv(s: State) { PermitsOk(s) && WaitersOk(s) && LedgerOk(s) }

  datatype Step =
    | TryFast(c: Call, kind: Kind) | Enter(c: Call) | Grant(c: Call) | Timeout(c: Call) | Leave(c: Call)
    | FinishPost(c: Call) | FailOpen(c: Call) | HandOver(c: Call) | Register(c: Call)
    | Drop(c: Call) | Close(c: Call) | RunHooks(c: Call)

  /** The call is at the point in its code where it does the step. */
  predicate At(s: State, step: Step) {
    match step
    case TryFast(c, _) => c !in s.calls
    case Enter(c) => c in s.calls && s.calls[c].Tried?
    case Grant(c) => c in s.calls && s.calls[c].Waiting?
    case Timeout(c) => c in s.calls && s.calls[c].Waiting?
    case Leave(c) => c in s.calls && (s.calls[c].Granted? || s.calls[c].TimedOut?)
    case FinishPost(c) => c in s.calls && s.calls[c] == Holding(Post)
    case FailOpen(c) => c in s.calls && s.calls[c] == Holding(Stream)
    case HandOver(c) => c in s.calls && s.calls[c] == Holding(Stream)
    case Register(c) => c in s.calls && s.calls[c].HandedOver?
    case Drop(c) => c in s.calls                                   // by the reader, the timer or the caller, any number of times
    case Close(c) => c in s.calls && (s.calls[c].Dropped? || s.calls[c].Closing? || s.calls[c].Ended?)
    case RunHooks(c) => c in s.calls && s.calls[c].Closing?
  }

  predicate Releases(step: Step) { step.FinishPost? || step.FailOpen? || step.RunHooks? }

  /** It can go ahead: a send needs room in the permits channel, a receive needs something in it. */
  predicate Enabled(s: State, step: Step) {
    At(s, step)
    && (step.Grant? ==> s.permits < s.maxInFlight)
    && (Releases(step) ==> s.permits > 0)
    && (step.Leave? ==> s.waiting > 0)
  }

  function To(s: State, c: Call, p: Phase): State { s.(calls := s.calls[c := p]) }

  function Acquire(s: State, c: Call, p: Phase): State {
    To(s, c, p).(permits := s.permits + 1, acquired := s.acquired + {c})
  }

  function Release(s: State, c: Call, p: Phase): State
    requires s.permits > 0
  {
    To(s, c, p).(permits := s.permits - 1, released := s.released + {c})
  }

  function Next(s: State, step: Step): State
    requires Enabled(s, step)
  {
    match step
    case TryFast(c, kind) => if s.permits < s.maxInFlight then Acquire(s, c, Holding(kind)) else To(s, c, Tried(kind))
    case Enter(c) => if s.waiting >= s.capacity then To(s, c, Ended) else To(s, c, Waiting(s.calls[c].kind)).(waiting := s.waiting + 1)
    case Grant(c) => Acquire(s, c, Granted(s.calls[c].kind))
    case Timeout(c) => To(s, c, TimedOut)
    case Leave(c) =>
      (if s.calls[c].Granted? then To(s, c, Holding(s.calls[c].kind)) else To(s, c, Ended)).(waiting := s.waiting - 1)
    case FinishPost(c) => Release(s, c, Ended)
    case FailOpen(c) => Release(s, c, Ended)
    case HandOver(c) => To(s, c, HandedOver)
    case Register(c) => To(s, c, Open)
    case Drop(c) => if s.calls[c].Open? then To(s, c, Dropped) else s
    case Close(c) => if s.calls[c].Dropped? then To(s, c, Closing) else s
    case RunHooks(c) => Release(s, c, Ended)
  }

  /** A release never blocks, and gives back a permit that was taken and not given back before. */
  lemma CanRelease(s: State, step: Step)
    requires Inv(s) && At(s, step)
    ensures Releases(step) ==> Enabled(s, step) && step.c in s.acquired && step.c !in s.released
    ensures step.Leave? ==> Enabled(s, step)
  {
    if Releases(step) {
      NonEmpty(Holders(s), step.c);
    } else if step.Leave? {
      NonEmpty(Waiters(s), step.c);
    }
  }

  lemma NonEmpty<T>(a: set<T>, x: T)
    requires x in a
    ensures |a| > 0
  {
    assert a == {x} + (a - {x});
  }

  /** What a call's new phase does to the two sets. */
  lemma Moved(s: State, t: State, c: Call, p: Phase)
    requires t.calls == s.calls[c := p]
    ensures Holders(t) == if HasPermit(p) then Holders(s) + {c} else Holders(s) - {c}
    ensures Waiters(t) == if IsWaiting(p) then Waiters(s) + {c} else Waiters(s) - {c}
  {
    assert forall d :: d in t.calls && d != c ==> d in s.calls && t.calls[d] == s.calls[d];
  }

  function Count(b: bool): nat { if b then 1 else 0 }

  /** The bookkeeping of one step of call c: each counter follows the call in and out of its set. */
  ghost predicate Booked(s: State, t: State, c: Call) {
    var had, was := c in Holders(s), c in Waiters(s);
    c in t.calls && t.calls == s.calls[c := t.calls[c]]
    && var has, waits := HasPermit(t.calls[c]), IsWaiting(t.calls[c]);
       t.maxInFlight == s.maxInFlight && t.capacity == s.capacity
       && t.permits + Count(had) == s.permits + Count(has) && t.permits <= t.maxInFlight
       && t.waiting + Count(was) == s.waiting + Count(waits) && (t.waiting > 0 ==> t.waiting <= t.capacity)
       && t.acquired == s.acquired + (if has && !had then {c} else {})
       && t.released == s.released + (if had && !has then {c} else {})
       && (has && !had ==> c !in s.acquired)
       && (c in t.acquired ==> has || t.calls[c].Ended?)
  }

  /** c in a or out of it. */
  function With<T>(a: set<T>, c: T, b: bool): set<T> { if b then a + {c} else a - {c} }

  lemma WithSize<T>(a: set<T>, c: T, b: bool)
    ensures |With(a, c, b)| + Count(c in a) == |a| + Count(b)
  {
    if c in a { assert a == (a - {c}) + {c}; } else { assert a - {c} == a; }
  }

  lemma BookedKeeps(s: State, t: State, c: Call)
    requires Inv(s) && Booked(s, t, c)
    ensures Inv(t)
  {
    hide PermitsOk, WaitersOk, LedgerOk, Booked;
    BookedPermits(s, t, c);
    BookedWaiters(s, t, c);
    BookedLedger(s, t, c);
  }

  lemma BookedPermits(s: State, t: State, c: Call)
    requires PermitsOk(s) && Booked(s, t, c)
    ensures PermitsOk(t)
  {
    hide HasPermit, IsWaiting;
    Moved(s, t, c, t.calls[c]);
    assert Holders(t) == With(Holders(s), c, HasPermit(t.calls[c]));
    WithSize(Holders(s), c, HasPermit(t.calls[c]));
  }

  lemma BookedWaiters(s: State, t: State, c: Call)
    requires WaitersOk(s) && Booked(s, t, c)
    ensures WaitersOk(t)
  {
    hide HasPermit, IsWaiting;
    Moved(s, t, c, t.calls[c]);
    assert Waiters(t) == With(Waiters(s), c, IsWaiting(t.calls[c]));
    WithSize(Waiters(s), c, IsWaiting(t.calls[c]));
  }

  lemma BookedLedger(s: State, t: State, c: Call)
    requires LedgerOk(s) && Booked(s, t, c)
    ensures LedgerOk(t)
  {
    hide HasPermit, IsWaiting;
    var had, has := c in Holders(s), HasPermit(t.calls[c]);
    Moved(s, t, c, t.calls[c]);
    assert Holders(t) == With(Holders(s), c, has);
    Ledger(Holders(s), s.acquired, s.released, c, had, has);
    forall d | d in t.acquired ensures d in t.calls && (HasPermit(t.calls[d]) || t.calls[d].Ended?) {
      if d != c { assert d in s.acquired && t.calls[d] == s.calls[d]; }
    }
  }

  /** Taken and not given back, before and after. */
  lemma Ledger(holders: set<Call>, acquired: set<Call>, released: set<Call>, c: Call, had: bool, has: bool)
    requires released <= acquired && acquired - released == holders && had == (c in holders)
    requires has && !had ==> c !in acquired
    ensures var acquired', released' := acquired + (if has && !had then {c} else {}), released + (if had && !has then {c} else {});
            released' <= acquired' && acquired' - released' == With(holders, c, has)
  {}

  lemma NextBooked(s: State, step: Step)
    requires Inv(s) && Enabled(s, step)
    ensures Next(s, step) == s || Booked(s, Next(s, step), step.c)
  {
    hide Inv;
    InCalls(s, step.c);
    CanRelease(s, step);
  }

  lemma InCalls(s: State, c: Call)
    requires Inv(s)
    ensures c in Holders(s) <==> c in s.calls && HasPermit(s.calls[c])
    ensures c in Waiters(s) <==> c in s.calls && IsWaiting(s.calls[c])
    ensures c in s.acquired ==> c in s.calls && (HasPermit(s.calls[c]) || s.calls[c].Ended?)
    ensures s.permits <= s.maxInFlight && (s.waiting > 0 ==> s.waiting <= s.capacity)
  {}

  lemma NextKeeps(s: State, step: Step)
    requires Inv(s) && Enabled(s, step)
    ensures Inv(Next(s, step))
  {
    hide Inv, Next, Booked, Enabled;
    NextBooked(s, step);
    if Next(s, step) != s { BookedKeeps(s, Next(s, step), step.c); }
  }

  // ---- Whole runs ----

  ghost predicate Run(states: seq<State>, steps: seq<Step>) {
    |states| == |steps| + 1
    && forall i :: 0 <= i < |steps| ==> Enabled(states[i], steps[i]) && states[i + 1] == Next(states[i], steps[i])
  }

  function Start(maxInFlight: int, capacity: int): State {
    State(if maxInFlight < 1 then 1 else maxInFlight, capacity, 0, 0, map[], {}, {})
  }

  lemma StartInv(maxInFlight: int, capacity: int)
    ensures Inv(Start(maxInFlight, capacity))
  {
    assert Holders(Start(maxInFlight, capacity)) == {} && Waiters(Start(maxInFlight, capacity)) == {};
  }

  lemma {:induction false} RunInv(states: seq<State>, steps: seq<Step>, i: nat)
    requires Run(states, steps) && Inv(states[0]) && i < |states|
    ensures Inv(states[i]) && states[i].maxInFlight == states[0].maxInFlight && states[i].capacity == states[0].capacity
  {
    hide Inv, Next, Enabled;
    if i > 0 {
      RunInv(states, steps, i - 1);
      assert Enabled(states[i - 1], steps[i - 1]);
      NextKeeps(states[i - 1], steps[i - 1]);
      NextLimits(states[i - 1], steps[i - 1]);
    }
  }

  lemma NextLimits(s: State, step: Step)
    requires Enabled(s, step)
    ensures Next(s, step).maxInFlight == s.maxInFlight && Next(s, step).capacity == s.capacity
  {}

  /** A post that has its permit. */
  predicate IsPost(p: Phase) { p == Granted(Post) || p == Holding(Post) }

  /** A stream that is opening, open, or not closed to the end. */
  predicate IsStream(p: Phase) {
    p == Granted(Stream) || p == Holding(Stream) || p == HandedOver || p == Open || p == Dropped || p == Closing
  }

  ghost function Posts(s: State): set<Call> { set c | c in s.calls && IsPost(s.calls[c]) }

  ghost function Streams(s: State): set<Call> { set c | c in s.calls && IsStream(s.calls[c]) }

  /** Permits in use never exceed the limit, and are the posts in progress and the streams opening or open; waiters
      never exceed the waiting room. */
  lemma PermitConservation(states: seq<State>, steps: seq<Step>, i: nat, maxInFlight: int, capacity: int)
    requires Run(states, steps) && states[0] == Start(maxInFlight, capacity) && i < |states|
    ensures var s := states[i];
            s.permits == |Posts(s)| + |Streams(s)| && Posts(s) !! Streams(s) && s.acquired - s.released == Posts(s) + Streams(s)
            && s.permits <= (if maxInFlight < 1 then 1 else maxInFlight) && (s.waiting > 0 ==> s.waiting <= capacity)
  {
    hide Next, Enabled, Posts, Streams, Holders;
    StartInv(maxInFlight, capacity);
    RunInv(states, steps, i);
    HoldersSplit(states[i]);
  }

  /** Who holds a permit is a post or a stream, and nobody is both. */
  lemma HoldersSplit(s: State)
    ensures Holders(s) == Posts(s) + Streams(s) && Posts(s) !! Streams(s)
    ensures |Holders(s)| == |Posts(s)| + |Streams(s)|
  {
    forall c ensures c in Holders(s) <==> c in Posts(s) || c in Streams(s) {
      if c in s.calls { PermitKinds(s.calls[c]); }
    }
  }

  lemma PermitKinds(p: Phase)
    ensures HasPermit(p) <==> IsPost(p) || IsStream(p)
  {
    if p.Granted? || p.Holding? { assert p.kind == Post || p.kind == Stream; }
  }

  /** A call that took a permit gave it back exactly when it has ended, in every reachable state. */
  lemma ReturnedAtEnd(states: seq<State>, steps: seq<Step>, i: nat, c: Call)
    requires Run(states, steps) && Inv(states[0]) && i < |states| && c in states[i].acquired
    ensures var s := states[i]; c in s.calls && (c in s.released <==> s.calls[c].Ended?)
  {
    hide Next, Enabled;
    RunInv(states, steps, i);
    InCalls(states[i], c);
  }

  /** Nothing leaks: when every call has ended, whatever path each took, every permit taken was given back, once. */
  lemma AllReturned(states: seq<State>, steps: seq<Step>, i: nat)
    requires Run(states, steps) && Inv(states[0]) && i < |states|
    requires forall c :: c in states[i].calls ==> states[i].calls[c].Ended?
    ensures states[i].permits == 0 && states[i].waiting == 0 && states[i].released == states[i].acquired
  {
    hide Next, Enabled;
    RunInv(states, steps, i);
    NoneLeft(states[i]);
  }

  lemma NoneLeft(s: State)
    requires Inv(s) && forall c :: c in s.calls ==> s.calls[c].Ended?
    ensures s.permits == 0 && s.waiting == 0 && s.released == s.acquired
  {
    assert Holders(s) == {} && Waiters(s) == {};
    assert s.acquired <= s.released;
  }

  /** One release step per call: a call that released once never comes to a release again. */
  lemma {:induction false} ReleasedOnce(states: seq<State>, steps: seq<Step>, i: nat, j: nat)
    requires Run(states, steps) && Inv(states[0]) && i < j < |steps|
    requires Releases(steps[i]) && Releases(steps[j])
    ensures steps[i].c != steps[j].c
  {
    hide Inv, Next, Enabled;
    assert Enabled(states[i], steps[i]) && Enabled(states[j], steps[j]);
    RunInv(states, steps, j);
    AtOf(states[j], steps[j]);
    CanRelease(states[j], steps[j]);
    StaysReleased(states, steps, i, j);
  }

  lemma AtOf(s: State, step: Step)
    requires Enabled(s, step)
    ensures At(s, step)
    ensures s.released <= Next(s, step).released
    ensures Releases(step) ==> step.c in Next(s, step).released
  {}

  lemma {:induction false} StaysReleased(states: seq<State>, steps: seq<Step>, i: nat, j: nat)
    requires Run(states, steps) && i < j <= |steps| && Releases(steps[i])
    ensures steps[i].c in states[j].released
    decreases j
  {
    hide Next, Enabled;
    assert Enabled(states[j - 1], steps[j - 1]);
    AtOf(states[j - 1], steps[j - 1]);
    if i < j - 1 { StaysReleased(states, steps, i, j - 1); }
  }

  // ---- The slot ----

  /** aiQueue and the table of open streams, each method one atomic section. */
  class Slot {
    const maxInFlight: nat
    const capacity: int
    var permits: nat
    var waiting: nat
    var open: set<Call>
    ghost var calls: map<Call, Phase>
    ghost var acquired: set<Call>
    ghost var released: set<Call>

    ghost function Now(): State
      reads this
    {
      State(maxInFlight, capacity, permits, waiting, calls, acquired, released)
    }

    ghost predicate Valid()
      reads this
    {
      Inv(Now()) && forall c :: c in open <==> c in calls && calls[c].Open?
    }

    constructor (maxInFlight0: int, capacity0: int)
      ensures Valid() && Now() == Start(maxInFlight0, capacity0)
    {
      maxInFlight := if maxInFlight0 < 1 then 1 else maxInFlight0;
      capacity, permits, waiting, open, calls, acquired, released := capacity0, 0, 0, {}, map[], {}, {};
      new;
      StartInv(maxInFlight0, capacity0);
    }

    /** The first select of acquire. */
    method TryFast(c: Call, kind: Kind) returns (ok: bool)
      requires Valid() && c !in calls
      modifies this
      ensures Valid() && Now() == Next(old(Now()), Step.TryFast(c, kind)) && ok == (old(permits) < maxInFlight)
    {
      hide Inv;
      NextKeeps(Now(), Step.TryFast(c, kind));
      ok := permits < maxInFlight;
      if ok {
        permits := permits + 1;
        acquired := acquired + {c};
      }
      calls := calls[c := if ok then Holding(kind) else Tried(kind)];
    }

    /** The mutex section that joins the waiting room, or finds it full. */
    method Enter(c: Call) returns (ok: bool)
      requires Valid() && c in calls && calls[c].Tried?
      modifies this
      ensures Valid() && Now() == Next(old(Now()), Step.Enter(c)) && ok == (old(waiting) < capacity)
    {
      hide Inv;
      NextKeeps(Now(), Step.Enter(c));
      ok := waiting < capacity;
      if ok { waiting := waiting + 1; }
      calls := calls[c := if ok then Waiting(calls[c].kind) else Ended];
    }

    /** The second select: a permit, or the timer. */
    method Await(c: Call, expired: bool) returns (ok: bool)
      requires Valid() && c in calls && calls[c].Waiting? && (expired || permits < maxInFlight)
      modifies this
      ensures Valid() && Now() == Next(old(Now()), if expired then Timeout(c) else Grant(c)) && ok == !expired
    {
      hide Inv;
      NextKeeps(Now(), if expired then Timeout(c) else Grant(c));
      ok := !expired;
      if ok {
        permits := permits + 1;
        acquired := acquired + {c};
      }
      calls := calls[c := if ok then Granted(calls[c].kind) else TimedOut];
    }

    /** The deferred section that leaves the waiting room. */
    method Leave(c: Call)
      requires Valid() && Enabled(Now(), Step.Leave(c))
      modifies this
      ensures Valid() && Now() == Next(old(Now()), Step.Leave(c))
    {
      hide Inv;
      NextKeeps(Now(), Step.Leave(c));
      waiting := waiting - 1;
      calls := calls[c := if calls[c].Granted? then Holding(calls[c].kind) else Ended];
    }

    /** release, by a finished post, a stream that failed to open, or the hooks of a closed stream. */
    method Release(c: Call, ghost step: Step)
      requires Valid() && Releases(step) && step.c == c && Enabled(Now(), step)
      modifies this
      ensures Valid() && Now() == Next(old(Now()), step)
    {
      hide Inv;
      NextKeeps(Now(), step);
      permits := permits - 1;
      released := released + {c};
      calls := calls[c := Ended];
    }

    /** The stream's close hook takes over the permit from the deferred release. */
    ghost method HandOver(c: Call)
      requires Valid() && c in calls && calls[c] == Holding(Stream)
      modifies this
      ensures Valid() && Now() == Next(old(Now()), Step.HandOver(c))
    {
      hide Inv;
      NextKeeps(Now(), Step.HandOver(c));
      calls := calls[c := HandedOver];
    }

    /** aiStreamRegister. */
    method Register(c: Call)
      requires Valid() && c in calls && calls[c].HandedOver?
      modifies this
      ensures Valid() && Now() == Next(old(Now()), Step.Register(c)) && open == old(open) + {c}
    {
      hide Inv;
      NextKeeps(Now(), Step.Register(c));
      open := open + {c};
      calls := calls[c := Open];
    }

    /** aiStreamDrop: of any number of droppers, the one that finds the stream in the table closes it. */
    method Drop(c: Call) returns (found: bool)
      requires Valid() && c in calls
      modifies this
      ensures Valid() && Now() == Next(old(Now()), Step.Drop(c)) && found == (c in old(open)) && open == old(open) - {c}
    {
      hide Inv;
      NextKeeps(Now(), Step.Drop(c));
      found := c in open;
      if found {
        open := open - {c};
        calls := calls[c := Dropped];
      }
    }

    /** The section of close that sets the flag; a second close returns there. */
    ghost method Close(c: Call) returns (first: bool)
      requires Valid() && c in calls && (calls[c].Dropped? || calls[c].Closing? || calls[c].Ended?)
      modifies this
      ensures Valid() && Now() == Next(old(Now()), Step.Close(c)) && first == old(calls)[c].Dropped?
    {
      hide Inv;
      NextKeeps(Now(), Step.Close(c));
      first := calls[c].Dropped?;
      if first { calls := calls[c := Closing]; }
    }
  }
}
