/** The adapter tier: a table of resident LoRA adapters shared by loads, requests, alias moves and drains. */
module Tier {
  // Every mutex section is one atomic step; a run interleaves them in any order.

  import opened Basics

  type Name = string   // a served name, <adapter>-v<n>
  type Ref = string    // an alias reference, <adapter>@<alias>
  type Id = nat        // one aiResident object
  type Req = nat       // one request being proxied

  datatype Entry = Entry(served: Name, inflight: int, retired: bool, lastUsed: int, loading: bool)

  /** entries holds every object ever made, so a request can outlive its entry's place in the table. */
  datatype State = State(
    max: nat, entries: map<Id, Entry>, resident: map<Name, Id>, aliases: map<Ref, Name>, requests: map<Req, Id>)

  predicate Pinned(s: State, n: Name) { exists r <- s.aliases :: s.aliases[r] == n }

  ghost predicate Resident(s: State, n: Name) { n in s.resident && s.resident[n] in s.entries }

  ghost function EntryOf(s: State, n: Name): Entry
    requires Resident(s, n)
  {
    s.entries[s.resident[n]]
  }

  /** What makeRoomLocked may evict: not pinned, idle, loaded. */
  ghost predicate Evictable(s: State, n: Name) {
    Resident(s, n) && !Pinned(s, n) && EntryOf(s, n).inflight <= 0 && !EntryOf(s, n).loading
  }

  /** What drain unloads. */
  ghost predicate Drainable(s: State, n: Name) {
    Resident(s, n) && !Pinned(s, n) && EntryOf(s, n).inflight == 0 && !EntryOf(s, n).loading && EntryOf(s, n).retired
  }

  ghost function Holding(s: State, id: Id): set<Req> { set q | q in s.requests && s.requests[q] == id }

  /** The table names objects by what they serve. */
  ghost predicate Named(s: State) {
    forall n :: n in s.resident ==> s.resident[n] in s.entries && s.entries[s.resident[n]].served == n
  }

  /** An object still loading is in the table: only its own load may take it out. */
  ghost predicate LoadingHeld(s: State) {
    forall id :: id in s.entries && s.entries[id].loading ==>
      s.entries[id].served in s.resident && s.resident[s.entries[id].served] == id
  }

  /** Each in-flight count is the number of requests that hold the object. */
  ghost predicate Counted(s: State) {
    (forall q :: q in s.requests ==> s.requests[q] in s.entries)
    && forall id :: id in s.entries ==> s.entries[id].inflight == |Holding(s, id)|
  }

  ghost predicate Inv(s: State) {
    |s.resident| <= s.max && Named(s) && LoadingHeld(s) && Counted(s)
  }

  // ---- The steps ----

  datatype Step =
    | BeginLoad(served: Name, id: Id, victim: Option<Name>, now: int)
    | FinishLoad(id: Id, ok: bool)
    | MoveAlias(ref: Ref, served: Name)
    | Drain
    | BeginRequest(q: Req, model: Name, now: int)
    | EndRequest(q: Req)

  function Put(s: State, id: Id, e: Entry): State { s.(entries := s.entries[id := e]) }

  /** The entry of a resident name, changed. */
  function Retire(s: State, n: Name, retired: bool): State {
    if n in s.resident && s.resident[n] in s.entries
    then Put(s, s.resident[n], s.entries[s.resident[n]].(retired := retired)) else s
  }

  function Evict(s: State, victim: Option<Name>): State {
    match victim case None => s case Some(v) => s.(resident := s.resident - {v})
  }

  ghost predicate IsVictim(s: State, v: Name) {
    Evictable(s, v) && forall n :: Evictable(s, n) ==> EntryOf(s, v).lastUsed <= EntryOf(s, n).lastUsed
  }

  ghost predicate Next(s: State, step: Step, s': State) {
    match step
    case BeginLoad(served, id, victim, now) =>
      served !in s.resident && id !in s.entries
      && (if |s.resident| < s.max then victim.None? else victim.Some? && IsVictim(s, victim.value))
      && var t := Put(Evict(s, victim), id, Entry(served, 0, false, now, true));
         s' == t.(resident := t.resident[served := id])
    case FinishLoad(id, ok) =>
      id in s.entries && s.entries[id].loading
      && var t := Put(s, id, s.entries[id].(loading := false));
         s' == if ok then t else t.(resident := t.resident - {s.entries[id].served})
    case MoveAlias(ref, served) =>
      s' == Moved(s, ref, served)
    case Drain =>
      s' == s.(resident := map n | n in s.resident && !Drainable(s, n) :: s.resident[n])
    case BeginRequest(q, model, now) =>
      q !in s.requests
      && if !Resident(s, model) then s' == s else
         var id := s.resident[model];
         s' == Put(s, id, s.entries[id].(inflight := s.entries[id].inflight + 1, lastUsed := now)).(requests := s.requests[q := id])
    case EndRequest(q) =>
      q in s.requests && s.requests[q] in s.entries
      && var id := s.requests[q];
         s' == Put(s, id, s.entries[id].(inflight := s.entries[id].inflight - 1)).(requests := s.requests - {q})
  }

  /** An alias that moves keeps its new version and retires the one it left, unless another alias pins that. */
  ghost function Moved(s: State, ref: Ref, served: Name): State {
    var t := Retire(s.(aliases := s.aliases[ref := served]), served, false);
    if ref in s.aliases && s.aliases[ref] != served && !Pinned(t, s.aliases[ref])
    then Retire(t, s.aliases[ref], true) else t
  }

  // ---- Every step keeps the invariant ----

  lemma SubsetSize<T>(a: set<T>, b: set<T>)
    requires a <= b
    ensures |a| <= |b|
  {
    assert b == a + (b - a);
  }

  /** Requests untouched, counts untouched. */
  lemma CountedSame(s: State, t: State)
    requires Counted(s) && t.requests == s.requests && s.entries.Keys <= t.entries.Keys
    requires forall id :: id in t.entries ==> if id in s.entries then t.entries[id].inflight == s.entries[id].inflight else t.entries[id].inflight == 0
    ensures Counted(t)
  {
    forall id | id in t.entries ensures t.entries[id].inflight == |Holding(t, id)| {
      assert Holding(t, id) == Holding(s, id);
      if id !in s.entries { assert Holding(s, id) == {}; }
    }
  }

  lemma RetireKeeps(s: State, n: Name, retired: bool)
    requires Inv(s)
    ensures Inv(Retire(s, n, retired)) && Retire(s, n, retired).resident == s.resident
  {
    hide Counted, Named, LoadingHeld;
    CountedSame(s, Retire(s, n, retired));
    TableSame(s, Retire(s, n, retired));
  }

  lemma BeginLoadKeeps(s: State, step: Step, s': State)
    requires Inv(s) && step.BeginLoad? && Next(s, step, s')
    ensures Inv(s')
  {
    SizeAfterSwap(s, step, s');
    CountedSame(s, s');
    BeginLoadTable(s, step, s');
  }

  lemma BeginLoadTable(s: State, step: Step, s': State)
    requires Named(s) && LoadingHeld(s) && step.BeginLoad? && Next(s, step, s')
    ensures Named(s') && LoadingHeld(s')
  {
    var base := Evict(s, step.victim);
    assert s'.resident == base.resident[step.served := step.id];
    forall id | id in s'.entries && s'.entries[id].loading
      ensures s'.entries[id].served in s'.resident && s'.resident[s'.entries[id].served] == id
    {
      if id != step.id {
        assert s'.entries[id] == s.entries[id];
      }
    }
  }

  lemma SizeAfterSwap(s: State, step: Step, s': State)
    requires step.BeginLoad? && Next(s, step, s') && |s.resident| <= s.max
    ensures |s'.resident| <= s'.max
  {
    hide IsVictim;
    match step.victim {
      case None =>
        PutSize(s.resident, step.served, step.id);
      case Some(v) =>
        VictimResident(s, v);
        DropSize(s.resident, v);
        PutSize(s.resident - {v}, step.served, step.id);
    }
  }

  lemma VictimResident(s: State, v: Name)
    requires IsVictim(s, v)
    ensures v in s.resident
  {}

  lemma PutSize(m: map<Name, Id>, n: Name, id: Id)
    requires n !in m
    ensures |m[n := id]| == |m| + 1
  {
    assert m[n := id].Keys == m.Keys + {n};
  }

  lemma DropSize(m: map<Name, Id>, n: Name)
    requires n in m
    ensures |m - {n}| == |m| - 1
  {
    assert (m - {n}).Keys == m.Keys - {n};
  }

  lemma FinishLoadKeeps(s: State, step: Step, s': State)
    requires Inv(s) && step.FinishLoad? && Next(s, step, s')
    ensures Inv(s')
  {
    CountedSame(s, s');
    assert s'.resident.Keys <= s.resident.Keys;
    SubsetSize(s'.resident.Keys, s.resident.Keys);
    FinishLoadTable(s, step, s');
  }

  lemma FinishLoadTable(s: State, step: Step, s': State)
    requires Named(s) && LoadingHeld(s) && step.FinishLoad? && Next(s, step, s')
    ensures Named(s') && LoadingHeld(s')
  {
    forall id | id in s'.entries && s'.entries[id].loading
      ensures s'.entries[id].served in s'.resident && s'.resident[s'.entries[id].served] == id
    {
      assert id != step.id && s'.entries[id] == s.entries[id];
    }
  }

  lemma DrainKeeps(s: State, s': State)
    requires Inv(s) && Next(s, Drain, s')
    ensures Inv(s')
  {
    CountedSame(s, s');
    assert s'.resident.Keys <= s.resident.Keys;
    SubsetSize(s'.resident.Keys, s.resident.Keys);
  }

  /** One request taken up or given back, and the count of its object with it. */
  ghost predicate Recounted(s: State, t: State, q: Req, held: Id) {
    held in s.entries && t.entries.Keys == s.entries.Keys
    && (forall id :: id in s.entries && id != held ==> t.entries[id] == s.entries[id])
    && ((t.requests == s.requests[q := held] && q !in s.requests && t.entries[held].inflight == s.entries[held].inflight + 1)
        || (s.requests == t.requests[q := held] && q !in t.requests && t.entries[held].inflight == s.entries[held].inflight - 1))
  }

  lemma HoldingPut(s: State, t: State, q: Req, held: Id, id: Id)
    requires t.requests == s.requests[q := held] && q !in s.requests
    ensures |Holding(t, id)| == |Holding(s, id)| + if id == held then 1 else 0
  {
    assert Holding(t, id) == if id == held then Holding(s, id) + {q} else Holding(s, id);
  }

  lemma CountedStep(s: State, t: State, q: Req, held: Id)
    requires Counted(s) && Recounted(s, t, q, held)
    ensures Counted(t)
  {
    hide Holding;
    forall id | id in t.entries ensures t.entries[id].inflight == |Holding(t, id)| {
      if q in t.requests {
        HoldingPut(s, t, q, held, id);
      } else {
        HoldingPut(t, s, q, held, id);
      }
    }
    forall r | r in t.requests ensures t.requests[r] in t.entries {
      if r != q || q !in t.requests { assert r in s.requests && s.requests[r] == t.requests[r]; }
    }
  }

  /** Objects that keep their name and their loading flag keep the table in order. */
  lemma TableSame(s: State, t: State)
    requires Named(s) && LoadingHeld(s) && t.resident == s.resident && t.entries.Keys == s.entries.Keys
    requires forall id :: id in s.entries ==>
      t.entries[id].served == s.entries[id].served && t.entries[id].loading == s.entries[id].loading
    ensures Named(t) && LoadingHeld(t)
  {}

  lemma BeginRequestKeeps(s: State, step: Step, s': State)
    requires Inv(s) && step.BeginRequest? && Next(s, step, s')
    ensures Inv(s')
  {
    hide Counted, Named, LoadingHeld;
    if Resident(s, step.model) {
      TableSame(s, s');
      CountedStep(s, s', step.q, s.resident[step.model]);
    }
  }

  lemma EndRequestKeeps(s: State, step: Step, s': State)
    requires Inv(s) && step.EndRequest? && Next(s, step, s')
    ensures Inv(s')
  {
    hide Counted, Named, LoadingHeld;
    TableSame(s, s');
    assert s.requests == s'.requests[step.q := s.requests[step.q]];
    CountedStep(s, s', step.q, s.requests[step.q]);
  }

  lemma MoveKeeps(s: State, ref: Ref, served: Name)
    requires Inv(s)
    ensures Inv(Moved(s, ref, served)) && Moved(s, ref, served).resident == s.resident
  {
    hide Counted;
    var a := s.(aliases := s.aliases[ref := served]);
    CountedSame(s, a);
    RetireKeeps(a, served, false);
    var t := Retire(a, served, false);
    if ref in s.aliases { RetireKeeps(t, s.aliases[ref], true); }
  }

  lemma NextKeeps(s: State, step: Step, s': State)
    requires Inv(s) && Next(s, step, s')
    ensures Inv(s')
  {
    hide Inv;
    match step
    case BeginLoad(_, _, _, _) => BeginLoadKeeps(s, step, s');
    case FinishLoad(_, _) => FinishLoadKeeps(s, step, s');
    case MoveAlias(ref, served) => MoveKeeps(s, ref, served);
    case Drain => DrainKeeps(s, s');
    case BeginRequest(_, _, _) => BeginRequestKeeps(s, step, s');
    case EndRequest(_) => EndRequestKeeps(s, step, s');
  }

  // ---- What a step may take out of the table ----

  /** An adapter that finished loading and that an alias pins or a request uses. */
  ghost predicate Kept(s: State, n: Name) {
    Resident(s, n) && !EntryOf(s, n).loading && (Pinned(s, n) || EntryOf(s, n).inflight > 0)
  }

  /** No step removes it: not an eviction, not a drain, not the failed load of anything. */
  lemma KeptStays(s: State, step: Step, s': State, n: Name)
    requires Inv(s) && Next(s, step, s') && Kept(s, n)
    ensures Resident(s', n) && s'.resident[n] == s.resident[n]
    ensures !EntryOf(s', n).loading
  {
    hide Counted;
    var id := s.resident[n];
    match step
    case BeginLoad(_, _, _, _) => KeptByLoad(s, step, s', n);
    case FinishLoad(done, _) =>
      assert done != id && s.entries[done].served != n;
    case MoveAlias(ref, served) => MoveKeeps(s, ref, served); MoveFlags(s, ref, served, id);
    case Drain =>
    case BeginRequest(_, _, _) =>
    case EndRequest(_) =>
  }

  /** A load evicts what is evictable only. */
  lemma KeptByLoad(s: State, step: Step, s': State, n: Name)
    requires step.BeginLoad? && Next(s, step, s') && Kept(s, n)
    ensures Resident(s', n) && s'.resident[n] == s.resident[n] && !EntryOf(s', n).loading
  {
    assert !Evictable(s, n);
  }

  lemma MoveFlags(s: State, ref: Ref, served: Name, id: Id)
    requires id in s.entries
    ensures id in Moved(s, ref, served).entries
    ensures var e, e' := s.entries[id], Moved(s, ref, served).entries[id];
            e'.loading == e.loading && e'.inflight == e.inflight && e'.served == e.served
  {}

  /** A failed load takes out the entry it put in, and nothing else. */
  lemma FailedLoad(s: State, id: Id, s': State)
    requires Inv(s) && Next(s, FinishLoad(id, false), s')
    ensures var n := s.entries[id].served;
            n in s.resident && s.resident[n] == id && s'.resident == s.resident - {n}
  {}

  // ---- Whole runs ----

  /** states[0], then one step to each next state. */
  ghost predicate Run(states: seq<State>, steps: seq<Step>) {
    |states| == |steps| + 1 && forall i :: 0 <= i < |steps| ==> Next(states[i], steps[i], states[i + 1])
  }

  function Start(max: nat): State { State(max, map[], map[], map[], map[]) }

  lemma StartInv(max: nat)
    ensures Inv(Start(max))
  {}

  lemma {:induction false} RunInv(states: seq<State>, steps: seq<Step>, i: nat)
    requires Run(states, steps) && Inv(states[0]) && i < |states|
    ensures Inv(states[i]) && states[i].max == states[0].max
  {
    hide Inv;
    if i > 0 {
      RunInv(states, steps, i - 1);
      assert Next(states[i - 1], steps[i - 1], states[i]);
      NextKeeps(states[i - 1], steps[i - 1], states[i]);
      NextMax(states[i - 1], steps[i - 1], states[i]);
    }
  }

  lemma NextMax(s: State, step: Step, s': State)
    requires Next(s, step, s')
    ensures s'.max == s.max
  {}

  /** In every reachable state at most max adapters are resident and each count is the number of its requests. */
  lemma Reachable(states: seq<State>, steps: seq<Step>, max: nat, i: nat)
    requires Run(states, steps) && states[0] == Start(max) && i < |states|
    ensures |states[i].resident| <= max
    ensures forall id :: id in states[i].entries ==> states[i].entries[id].inflight == |Holding(states[i], id)|
  {
    StartInv(max);
    RunInv(states, steps, i);
  }

  /** An alias names what n serves, or a request holds the object id. */
  ghost predicate Held(s: State, n: Name, id: Id) { Pinned(s, n) || exists q <- s.requests :: s.requests[q] == id }

  /** A loaded adapter that an alias or a request holds before every step of a run, now the one and now the other, is
      the same object in the table at the end. */
  lemma {:induction false} HeldKeepsAdapter(states: seq<State>, steps: seq<Step>, n: Name)
    requires Run(states, steps) && Inv(states[0])
    requires Resident(states[0], n) && !EntryOf(states[0], n).loading
    requires forall i :: 0 <= i < |steps| ==> Held(states[i], n, states[0].resident[n])
    ensures var end := states[|steps|]; Resident(end, n) && end.resident[n] == states[0].resident[n]
    ensures !EntryOf(states[|steps|], n).loading
    decreases |steps|
  {
    hide Next, Held, Inv;
    if steps != [] {
      var k := |steps| - 1;
      assert Run(states[..k + 1], steps[..k]);
      HeldKeepsAdapter(states[..k + 1], steps[..k], n);
      assert states[..k + 1][k] == states[k];
      RunInv(states, steps, k);
      HeldIsKept(states[k], n);
      assert Next(states[k], steps[k], states[k + 1]);
      KeptStays(states[k], steps[k], states[k + 1], n);
    }
  }

  lemma HeldIsKept(s: State, n: Name)
    requires Inv(s) && Resident(s, n) && !EntryOf(s, n).loading && Held(s, n, s.resident[n])
    ensures Kept(s, n)
  {
    if !Pinned(s, n) {
      var q :| q in s.requests && s.requests[q] == s.resident[n];
      InFlight(s, q, n);
    }
  }

  /** A request that holds a loaded adapter through a whole run finds that same object in the table at its end. */
  lemma RequestKeepsAdapter(states: seq<State>, steps: seq<Step>, q: Req, n: Name)
    requires Run(states, steps) && Inv(states[0])
    requires Resident(states[0], n) && !EntryOf(states[0], n).loading
    requires forall i :: 0 <= i < |steps| ==> q in states[i].requests && states[i].requests[q] == states[0].resident[n]
    ensures var end := states[|steps|]; Resident(end, n) && end.resident[n] == states[0].resident[n]
    ensures !EntryOf(states[|steps|], n).loading
  {
    HeldKeepsAdapter(states, steps, n);
  }

  /** A loaded adapter that some alias, not always the same one, names through a whole run is the same object in the
      table at its end: no eviction and no drain takes it out. */
  lemma PinKeepsAdapter(states: seq<State>, steps: seq<Step>, n: Name)
    requires Run(states, steps) && Inv(states[0])
    requires Resident(states[0], n) && !EntryOf(states[0], n).loading
    requires forall i :: 0 <= i < |steps| ==> Pinned(states[i], n)
    ensures var end := states[|steps|]; Resident(end, n) && end.resident[n] == states[0].resident[n]
    ensures !EntryOf(states[|steps|], n).loading
  {
    HeldKeepsAdapter(states, steps, n);
  }

  lemma InFlight(s: State, q: Req, n: Name)
    requires Inv(s) && Resident(s, n) && q in s.requests && s.requests[q] == s.resident[n]
    ensures EntryOf(s, n).inflight > 0
  {
    var id := s.resident[n];
    SubsetSize({q}, Holding(s, id));
  }

  // ---- Readiness ----

  /** Every alias of the tier is resolved, resident and loaded (the engine being up). */
  ghost predicate Ready(s: State, refs: set<Ref>) {
    forall r :: r in refs ==> r in s.aliases && Resident(s, s.aliases[r]) && !EntryOf(s, s.aliases[r]).loading
  }

  /** A tier that is ready stays ready, unless an alias moves to a version that is not resident and loaded. */
  lemma ReadyStays(s: State, step: Step, s': State, refs: set<Ref>)
    requires Inv(s) && Next(s, step, s') && Ready(s, refs)
    ensures Ready(s', refs) <==>
      (step.MoveAlias? && step.ref in refs ==> Resident(s, step.served) && !EntryOf(s, step.served).loading)
  {
    hide Inv;
    forall r | r in refs ensures r in s'.aliases && ((step.MoveAlias? && step.ref == r) || (Resident(s', s'.aliases[r]) && !EntryOf(s', s'.aliases[r]).loading)) {
      StillServed(s, step, s', r);
    }
    if step.MoveAlias? { MovedTo(s, step.ref, step.served); }
  }

  lemma StillServed(s: State, step: Step, s': State, r: Ref)
    requires Inv(s) && Next(s, step, s') && r in s.aliases
    requires Resident(s, s.aliases[r]) && !EntryOf(s, s.aliases[r]).loading
    ensures r in s'.aliases
    ensures !(step.MoveAlias? && step.ref == r) ==>
      s'.aliases[r] == s.aliases[r] && Resident(s', s.aliases[r]) && !EntryOf(s', s.aliases[r]).loading
  {
    var n := s.aliases[r];
    assert Pinned(s, n);
    KeptStays(s, step, s', n);
  }

  lemma MovedTo(s: State, ref: Ref, served: Name)
    requires Inv(s)
    ensures var t := Moved(s, ref, served);
            ref in t.aliases && t.aliases[ref] == served && (Resident(t, served) <==> Resident(s, served))
            && (Resident(s, served) ==> EntryOf(t, served).loading == EntryOf(s, served).loading)
  {
    MoveKeeps(s, ref, served);
    if Resident(s, served) { MoveFlags(s, ref, served, s.resident[served]); }
  }

  /** Between a load and the alias that pins it nothing holds the adapter: another load may evict it first, and the
      alias then names a version that is not resident. */
  lemma PinCanDangle()
    ensures exists states: seq<State>, steps: seq<Step> ::
      Run(states, steps) && states[0] == Start(1) && |steps| == 4
      && steps[0].BeginLoad? && steps[0].served == "a-v1" && steps[1] == FinishLoad(0, true) && steps[3] == MoveAlias("a@prod", "a-v1")
      && !Resident(states[4], "a-v1") && Pinned(states[4], "a-v1")
  {
    var a, b := "a-v1", "b-v1";
    assert a[0] != b[0];
    var s0 := Start(1);
    var s1 := State(1, map[0 := Entry(a, 0, false, 5, true)], map[a := 0], map[], map[]);
    var s2 := State(1, map[0 := Entry(a, 0, false, 5, false)], map[a := 0], map[], map[]);
    var s3 := State(1, map[0 := Entry(a, 0, false, 5, false), 1 := Entry(b, 0, false, 6, true)], map[b := 1], map[], map[]);
    DangleRun(a, b, s0, s1, s2, s3);
  }

  lemma LoadsTwice(a: Name, b: Name, s0: State, s1: State, s2: State, s3: State)
    requires a != b && s0 == Start(1)
    requires s1 == State(1, map[0 := Entry(a, 0, false, 5, true)], map[a := 0], map[], map[])
    requires s2 == State(1, map[0 := Entry(a, 0, false, 5, false)], map[a := 0], map[], map[])
    requires s3 == State(1, map[0 := Entry(a, 0, false, 5, false), 1 := Entry(b, 0, false, 6, true)], map[b := 1], map[], map[])
    ensures Next(s0, BeginLoad(a, 0, None, 5), s1) && Next(s1, FinishLoad(0, true), s2)
    ensures Next(s2, BeginLoad(b, 1, Some(a), 6), s3)
  {
    assert IsVictim(s2, a);
    assert s3.resident == (s2.resident - {a})[b := 1];
  }

  lemma DangleRun(a: Name, b: Name, s0: State, s1: State, s2: State, s3: State)
    requires a == "a-v1" && a != b && s0 == Start(1)
    requires s1 == State(1, map[0 := Entry(a, 0, false, 5, true)], map[a := 0], map[], map[])
    requires s2 == State(1, map[0 := Entry(a, 0, false, 5, false)], map[a := 0], map[], map[])
    requires s3 == State(1, map[0 := Entry(a, 0, false, 5, false), 1 := Entry(b, 0, false, 6, true)], map[b := 1], map[], map[])
    ensures exists states: seq<State>, steps: seq<Step> ::
      Run(states, steps) && states[0] == Start(1) && |steps| == 4
      && steps[0].BeginLoad? && steps[0].served == "a-v1" && steps[1] == FinishLoad(0, true) && steps[3] == MoveAlias("a@prod", "a-v1")
      && !Resident(states[4], "a-v1") && Pinned(states[4], "a-v1")
  {
    hide Start, Next, Moved;
    LoadsTwice(a, b, s0, s1, s2, s3);
    Dangles(s3, a, b);
    var s4 := Moved(s3, "a@prod", a);
    var steps := [BeginLoad(a, 0, None, 5), FinishLoad(0, true), BeginLoad(b, 1, Some(a), 6), MoveAlias("a@prod", a)];
    MoveIsNext(s3, "a@prod", a);
    assert Run([s0, s1, s2, s3, s4], steps);
  }

  lemma Dangles(s: State, a: Name, b: Name)
    requires s.aliases == map[] && s.resident == map[b := 1] && a != b
    ensures var t := Moved(s, "a@prod", a); !Resident(t, a) && Pinned(t, a)
  {
    var t := Moved(s, "a@prod", a);
    assert "a@prod" in t.aliases && t.aliases["a@prod"] == a && t.resident == s.resident;
  }

  lemma MoveIsNext(s: State, ref: Ref, served: Name)
    ensures Next(s, MoveAlias(ref, served), Moved(s, ref, served))
  {}

  // ---- Who may be evicted ----

  /** A victim is idle, loaded and named by no alias, and of all such entries none was used earlier; there is none only
      when every entry of the table is named, in use or loading. */
  lemma VictimIs(s: State)
    requires Named(s)
    ensures forall v :: IsVictim(s, v) ==>
      v in s.resident && var e := s.entries[s.resident[v]];
      !Pinned(s, v) && e.inflight <= 0 && !e.loading
      && forall n :: n in s.resident ==>
           var f := s.entries[s.resident[n]];
           Pinned(s, n) || f.inflight > 0 || f.loading || e.lastUsed <= f.lastUsed
    ensures (forall v :: !Evictable(s, v)) ==>
      forall n :: n in s.resident ==>
        var f := s.entries[s.resident[n]]; Pinned(s, n) || f.inflight > 0 || f.loading
  {
    forall n | n in s.resident
      ensures var f := s.entries[s.resident[n]];
              Evictable(s, n) <==> !(Pinned(s, n) || f.inflight > 0 || f.loading)
    {
      assert Resident(s, n);
    }
  }

  // ---- What a move and a request leave ----

  /** An alias that moves names its new version and nothing else changes hands: the new version's entry is not retired,
      the one the alias left is, unless another alias names it, and every other entry is as it was. */
  lemma MoveRetires(s: State, ref: Ref, served: Name, s': State)
    requires Named(s) && Next(s, MoveAlias(ref, served), s')
    ensures s'.aliases == s.aliases[ref := served] && s'.resident == s.resident && s'.requests == s.requests
    ensures s'.entries.Keys == s.entries.Keys
    ensures forall id <- s.entries :: s'.entries[id] == s.entries[id].(retired := RetiredAfter(s, ref, served, id))
  {
    hide RetiredAfter, Moved, Named;
    MoveKeepsRest(s, ref, served);
    forall id | id in s.entries ensures s'.entries[id] == s.entries[id].(retired := RetiredAfter(s, ref, served, id)) {
      RetiredAt(s, ref, served, id);
    }
  }

  lemma MoveKeepsRest(s: State, ref: Ref, served: Name)
    ensures var t := Moved(s, ref, served);
            t.aliases == s.aliases[ref := served] && t.resident == s.resident && t.requests == s.requests
            && t.entries.Keys == s.entries.Keys
  {
    hide Pinned;
  }

  lemma RetiredAt(s: State, ref: Ref, served: Name, id: Id)
    requires Named(s) && id in s.entries
    ensures var t := Moved(s, ref, served);
            id in t.entries && t.entries[id] == s.entries[id].(retired := RetiredAfter(s, ref, served, id))
  {
    hide Pinned, NamedElsewhere, Named;
    var t := Retire(s.(aliases := s.aliases[ref := served]), served, false);
    NameOf(s, served);
    if ref in s.aliases && s.aliases[ref] != served {
      NameOf(s, s.aliases[ref]);
      PinnedByOthers(s, t, ref, served, s.aliases[ref]);
    }
  }

  lemma NameOf(s: State, n: Name)
    requires Named(s)
    ensures n in s.resident ==> s.resident[n] in s.entries && s.entries[s.resident[n]].served == n
  {}

  lemma PinnedByOthers(s: State, t: State, ref: Ref, served: Name, n: Name)
    requires t.aliases == s.aliases[ref := served] && n != served
    ensures Pinned(t, n) <==> NamedElsewhere(s, ref, n)
  {
    if Pinned(t, n) {
      var r :| r in t.aliases && t.aliases[r] == n;
      assert r != ref && r in s.aliases && s.aliases[r] == n;
    }
    if r :| r in s.aliases && r != ref && s.aliases[r] == n { assert r in t.aliases && t.aliases[r] == n; }
  }

  /** An alias other than ref names n. */
  predicate NamedElsewhere(s: State, ref: Ref, n: Name) { exists r <- s.aliases :: r != ref && s.aliases[r] == n }

  ghost predicate RetiredAfter(s: State, ref: Ref, served: Name, id: Id)
    requires id in s.entries
  {
    var e := s.entries[id];
    var inTable := e.served in s.resident && s.resident[e.served] == id;
    if inTable && e.served == served then false
    else if inTable && ref in s.aliases && s.aliases[ref] == e.served
            && !NamedElsewhere(s, ref, e.served) then true
    else e.retired
  }

  /** Step j of a run uses the object: loads it, or begins a request on it, at time t. */
  ghost predicate Uses(s: State, step: Step, id: Id, t: int) {
    (step.BeginLoad? && step.id == id && step.now == t)
    || (step.BeginRequest? && step.model in s.resident && s.resident[step.model] == id && step.now == t)
  }

  /** The time on an entry is that of its last use. */
  lemma {:induction false} LastUsedIs(states: seq<State>, steps: seq<Step>, i: nat, id: Id) returns (j: nat)
    requires Run(states, steps) && Inv(states[0]) && states[0].entries == map[] && i < |states| && id in states[i].entries
    ensures j < i && Uses(states[j], steps[j], id, states[i].entries[id].lastUsed)
    ensures forall m, t :: j < m < i ==> !Uses(states[m], steps[m], id, t)
  {
    hide Next, Inv;
    var k := i - 1;
    assert Next(states[k], steps[k], states[i]);
    RunInv(states, steps, k);
    if t :| Uses(states[k], steps[k], id, t) {
      UseSets(states[k], steps[k], states[i], id, t);
      j := k;
    } else {
      NoUse(states[k], steps[k], states[i], id);
      j := LastUsedIs(states, steps, k, id);
    }
  }

  lemma UseSets(s: State, step: Step, s': State, id: Id, t: int)
    requires Inv(s) && Next(s, step, s') && Uses(s, step, id, t)
    ensures id in s'.entries && s'.entries[id].lastUsed == t
  {
    hide Inv, Moved, IsVictim, Drainable;
    InvNamed(s);
    if step.BeginRequest? { NameOf(s, step.model); }
  }

  lemma NoUse(s: State, step: Step, s': State, id: Id)
    requires Inv(s) && Next(s, step, s') && id in s'.entries && forall t :: !Uses(s, step, id, t)
    ensures id in s.entries && s'.entries[id].lastUsed == s.entries[id].lastUsed
  {
    hide Inv, Next;
    InvNamed(s);
    match step
    case BeginLoad(_, _, _, now) =>
      assert !Uses(s, step, id, now);
      OtherLoad(s, step, s', id);
    case BeginRequest(_, _, now) =>
      assert !Uses(s, step, id, now);
      OtherRequest(s, step, s', id);
    case EndRequest(_) => OtherRequest(s, step, s', id);
    case MoveAlias(ref, served) => MoveRetires(s, ref, served, s');
    case FinishLoad(_, _) => NoTime(s, step, s');
    case Drain => NoTime(s, step, s');
  }

  lemma NoTime(s: State, step: Step, s': State)
    requires Next(s, step, s') && (step.FinishLoad? || step.Drain?)
    ensures s'.entries.Keys == s.entries.Keys
    ensures forall id <- s.entries :: s'.entries[id].lastUsed == s.entries[id].lastUsed
  {
    hide Drainable;
  }

  lemma OtherLoad(s: State, step: Step, s': State, id: Id)
    requires Next(s, step, s') && step.BeginLoad? && step.id != id
    ensures s'.entries == s.entries[step.id := s'.entries[step.id]]
  {
    hide IsVictim;
  }

  lemma OtherRequest(s: State, step: Step, s': State, id: Id)
    requires Named(s) && Next(s, step, s') && id in s'.entries
    requires step.EndRequest? || (step.BeginRequest? && !(step.model in s.resident && s.resident[step.model] == id))
    ensures id in s.entries && s'.entries[id].lastUsed == s.entries[id].lastUsed
  {}

  lemma InvNamed(s: State)
    requires Inv(s)
    ensures Named(s)
  {}

  // ---- Drains and evictions ----

  /** After a drain nothing left behind by an alias stays idle, and what no alias left behind is untouched. */
  lemma DrainDone(s: State, s': State)
    requires Inv(s) && Next(s, Drain, s')
    ensures forall n :: !Drainable(s', n)
    ensures forall n :: n in s.resident && !s.entries[s.resident[n]].retired ==> n in s'.resident && s'.resident[n] == s.resident[n]
  {
    forall n | n in s'.resident ensures !Drainable(s', n) {
      assert !Drainable(s, n) && Pinned(s', n) == Pinned(s, n);
    }
  }

  // ---- The table ----

  datatype LoadStart = Wait(id: Id) | Overloaded | Started(id: Id)

  class AiTier {
    const maxAdapters: nat
    var entries: map<Id, Entry>
    var resident: map<Name, Id>
    var aliases: map<Ref, Name>
    var nextId: Id
    /** The requests between the two halves of proxy. */
    ghost var requests: map<Req, Id>

    ghost function Now(): State
      reads this
    {
      State(maxAdapters, entries, resident, aliases, requests)
    }

    ghost predicate Valid()
      reads this
    {
      Inv(Now()) && forall id :: id in entries ==> id < nextId
    }

    constructor (max: nat)
      ensures Valid() && Now() == Start(max)
    {
      maxAdapters := max;
      entries, resident, aliases, nextId, requests := map[], map[], map[], 0, map[];
      new;
      StartInv(max);
    }

    /** pinnedLocked: the names an alias serves now. */
    method PinnedNames() returns (names: set<Name>)
      ensures forall n :: n in names <==> Pinned(Now(), n)
    {
      names := set r <- aliases :: aliases[r];
    }

    /** makeRoomLocked, when the table is full: the evictable entry least recently used. */
    method FindVictim() returns (victim: Option<Name>)
      requires Valid()
      ensures victim.None? ==> forall n :: !Evictable(Now(), n)
      ensures victim.Some? ==> IsVictim(Now(), victim.value)
    {
      hide Pinned, LoadingHeld, Counted;
      var pinned := PinnedNames();
      victim := None;
      var left := resident.Keys;
      while left != {}
        invariant left <= resident.Keys
        invariant victim.Some? ==> Evictable(Now(), victim.value)
        invariant forall n :: n in resident && n !in left && Evictable(Now(), n) ==>
          victim.Some? && EntryOf(Now(), victim.value).lastUsed <= EntryOf(Now(), n).lastUsed
        decreases |left|
      {
        var n :| n in left;
        left := left - {n};
        var e := entries[resident[n]];
        if !(n in pinned || e.inflight > 0 || e.loading) {
          if victim.None? || e.lastUsed < entries[resident[victim.value]].lastUsed {
            victim := Some(n);
          }
        }
      }
    }

    /** The first half of ensureLoaded: wait for a load underway, refuse, or start one in a free or freed place. */
    method EnsureLoaded(served: Name, now: int) returns (r: LoadStart)
      requires Valid()
      modifies this
      ensures Valid()
      ensures r.Wait? ==> Now() == old(Now()) && served in resident && r.id == resident[served]
      ensures r.Overloaded? <==> served !in old(resident) && |old(resident)| >= maxAdapters && forall n :: !Evictable(old(Now()), n)
      ensures r.Overloaded? ==> Now() == old(Now())
      ensures r.Started? ==> exists victim :: Next(old(Now()), BeginLoad(served, r.id, victim, now), Now())
    {
      if served in resident {
        return Wait(resident[served]);
      }
      var victim: Option<Name> := None;
      if |resident| >= maxAdapters {
        victim := FindVictim();
        if victim.None? { return Overloaded; }
      }
      r := Started(nextId);
      Insert(served, victim, now);
    }

    method Insert(served: Name, victim: Option<Name>, now: int)
      requires Valid() && served !in resident
      requires if |resident| < maxAdapters then victim.None? else victim.Some? && IsVictim(Now(), victim.value)
      modifies this
      ensures Valid() && Next(old(Now()), BeginLoad(served, old(nextId), victim, now), Now())
    {
      hide Inv, IsVictim;
      ghost var before := Now();
      if victim.Some? { resident := resident - {victim.value}; }
      entries := entries[nextId := Entry(served, 0, false, now, true)];
      resident := resident[served := nextId];
      nextId := nextId + 1;
      NextKeeps(before, BeginLoad(served, nextId - 1, victim, now), Now());
    }

    /** The second half: the load ended; a failed one takes its own entry out again. */
    method FinishLoad(id: Id, ok: bool)
      requires Valid() && id in entries && entries[id].loading
      modifies this
      ensures Valid() && Next(old(Now()), Step.FinishLoad(id, ok), Now())
    {
      hide Inv;
      ghost var before := Now();
      var served := entries[id].served;
      entries := entries[id := entries[id].(loading := false)];
      if !ok { resident := resident - {served}; }
      NextKeeps(before, Step.FinishLoad(id, ok), Now());
    }

    /** The alias half of refreshAliases, for an alias whose version loaded. */
    method MoveAlias(ref: Ref, served: Name)
      requires Valid()
      modifies this
      ensures Valid() && Next(old(Now()), Step.MoveAlias(ref, served), Now())
    {
      hide Inv;
      ghost var before := Now();
      var had := ref in aliases;
      var prev := if had then aliases[ref] else "";
      aliases := aliases[ref := served];
      SetRetired(served, false);
      if had && prev != served {
        var pinned := PinnedNames();
        if prev !in pinned { SetRetired(prev, true); }
      }
      NextKeeps(before, Step.MoveAlias(ref, served), Now());
    }

    method SetRetired(n: Name, retired: bool)
      modifies this`entries
      ensures Now() == Retire(old(Now()), n, retired) && entries.Keys == old(entries.Keys)
    {
      if n in resident && resident[n] in entries {
        entries := entries[resident[n] := entries[resident[n]].(retired := retired)];
      }
    }

    /** drain: what an alias left behind and no request uses leaves the table, to be unloaded. */
    method DrainIdle() returns (gone: set<Name>)
      requires Valid()
      modifies this`resident
      ensures Valid() && Next(old(Now()), Drain, Now())
      ensures forall n :: n in gone <==> n in old(resident) && Drainable(old(Now()), n)
    {
      hide Pinned, LoadingHeld, Counted;
      ghost var before := Now();
      var pinned := PinnedNames();
      gone := set n <- resident | resident[n] in entries &&
        (var e := entries[resident[n]]; e.retired && n !in pinned && e.inflight == 0 && !e.loading);
      resident := map n | n in resident && n !in gone :: resident[n];
      assert resident == map n | n in before.resident && !Drainable(before, n) :: before.resident[n];
      NextKeeps(before, Drain, Now());
    }

    /** proxy counts a request against its adapter, or finds it unloaded. */
    method BeginProxy(model: Name, now: int, ghost q: Req) returns (held: Option<Id>)
      requires Valid() && q !in requests
      modifies this
      ensures Valid() && Next(old(Now()), BeginRequest(q, model, now), Now())
      ensures held == if model in old(resident) then Some(old(resident)[model]) else None
      ensures held.Some? ==> q in requests && requests[q] == held.value
    {
      hide Inv;
      ghost var before := Now();
      held := None;
      TableNamed();
      if model in resident {
        var id := resident[model];
        entries := entries[id := entries[id].(inflight := entries[id].inflight + 1, lastUsed := now)];
        requests := requests[q := id];
        held := Some(id);
      }
      NextKeeps(before, BeginRequest(q, model, now), Now());
    }

    lemma TableNamed()
      requires Inv(Now())
      ensures forall n :: n in resident ==> resident[n] in entries
      ensures forall q :: q in requests ==> requests[q] in entries
    {}

    /** The deferred half: the request gives back the object it held, wherever that is now. */
    method EndProxy(id: Id, ghost q: Req)
      requires Valid() && q in requests && requests[q] == id
      modifies this
      ensures Valid() && Next(old(Now()), EndRequest(q), Now())
    {
      hide Inv;
      ghost var before := Now();
      TableNamed();
      entries := entries[id := entries[id].(inflight := entries[id].inflight - 1)];
      requests := requests - {q};
      NextKeeps(before, EndRequest(q), Now());
    }

    /** ready, the engine being up. */
    method AllReady(refs: seq<Ref>) returns (ok: bool)
      requires Valid()
      ensures ok <==> Ready(Now(), set r | r in refs)
    {
      hide Inv;
      TableNamed();
      for i := 0 to |refs|
        invariant forall j :: 0 <= j < i ==>
          refs[j] in aliases && Resident(Now(), aliases[refs[j]]) && !EntryOf(Now(), aliases[refs[j]]).loading
      {
        if refs[i] !in aliases { return false; }
        var served := aliases[refs[i]];
        if served !in resident || entries[resident[served]].loading { return false; }
      }
      ok := true;
    }
  }
}
