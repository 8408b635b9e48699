/** The buffered analytics writer: a bounded queue, one writer that batches rows into statements, and the shutdown. */
module AnalyticsWriter {
  // Each channel operation, counter update and statement is one atomic step.

  import opened Basics

  type Row = int

  const QUEUE_CAP := 4096
  const BATCH_SIZE := 256

  /** What the writer does when a coalesce or a statement ends. */
  datatype Then = ToSelect | ToDrain | ToFlush | ToReturn
  datatype Pc = Select | Draining | Coalescing(then_: Then) | Writing(then_: Then) | Checking | Returned

  /** One executed statement: its rows, and whether the store took them. */
  datatype Statement = Statement(rows: seq<Row>, ok: bool)

  /** `over` is what an expired shutdown budget counted as dropped while it was still queued, and `refused` what enqueue
      turned away. The other logs (`emitted`, `sent`, `swept`) record the past for the invariant. */
  datatype State = State(
    queue: seq<Row>, batch: seq<Row>, pc: Pc, stopped: bool, stopClosed: bool,
    entering: multiset<Row>, dropped: nat, rows: nat, statements: seq<Statement>,
    emitted: nat, refused: nat, sent: seq<Row>, sweeping: nat, swept: seq<Row>, over: nat)

  const START := State([], [], Select, false, false, multiset{}, 0, 0, [], 0, 0, [], 0, [], 0)

  function Handled(ss: seq<Statement>): seq<Row> {
    if ss == [] then [] else Handled(ss[..|ss| - 1]) + ss[|ss| - 1].rows
  }

  function Stored(ss: seq<Statement>): nat {
    if ss == [] then 0 else Stored(ss[..|ss| - 1]) + if ss[|ss| - 1].ok then |ss[|ss| - 1].rows| else 0
  }

  function Lost(ss: seq<Statement>): nat {
    if ss == [] then 0 else Lost(ss[..|ss| - 1]) + if ss[|ss| - 1].ok then 0 else |ss[|ss| - 1].rows|
  }

  lemma {:induction false} StoredLost(ss: seq<Statement>)
    ensures Stored(ss) + Lost(ss) == |Handled(ss)|
  {
    if ss != [] { StoredLost(ss[..|ss| - 1]); }
  }

  // ---- The steps ----

  datatype Step =
    | EnqueueCheck(r: Row)      // reads stopped
    | EnqueueSend(r: Row)       // the non-blocking send
    | TakeRow                   // the writer receives a row
    | CoalesceEnd               // the batch is full, or the queue was seen empty
    | Execute(ok: bool)         // the statement ends
    | Tick | AcceptFlush | CheckEmpty
    | SetStopped | CloseStop | SeeStop | DrainEmpty
    | SweepTake | SweepEnd | BudgetExpired

  function AfterCoalesce(s: State, t: Then): Pc {
    if t == ToFlush then (if s.batch != [] then Writing(ToFlush) else Checking)
    else if |s.batch| >= BATCH_SIZE then Writing(t) else After(t)
  }

  function After(t: Then): Pc {
    match t
    case ToSelect => Select
    case ToDrain => Draining
    case ToFlush => Checking
    case ToReturn => Returned
  }

  predicate Enabled(s: State, step: Step) {
    match step
    case EnqueueCheck(_) => true
    case EnqueueSend(r) => r in s.entering
    case TakeRow => s.queue != [] && (s.pc == Select || s.pc == Draining || (s.pc.Coalescing? && |s.batch| < BATCH_SIZE))
    case CoalesceEnd => s.pc.Coalescing? && (|s.batch| >= BATCH_SIZE || s.queue == [])
    case Execute(_) => s.pc.Writing?
    case Tick => s.pc == Select
    case AcceptFlush => s.pc == Select
    case CheckEmpty => s.pc == Checking
    case SetStopped => true
    case CloseStop => s.stopped
    case SeeStop => s.pc == Select && s.stopClosed
    case DrainEmpty => s.pc == Draining && s.queue == []
    case SweepTake => s.pc == Returned && s.queue != []
    case SweepEnd => s.pc == Returned && s.queue == []
    case BudgetExpired => s.stopClosed
  }

  function Next(s: State, step: Step): State
    requires Enabled(s, step)
  {
    match step
    case EnqueueCheck(r) =>
      var t := s.(emitted := s.emitted + 1);
      if s.stopped then t.(dropped := t.dropped + 1, refused := t.refused + 1) else t.(entering := t.entering + multiset{r})
    case EnqueueSend(r) =>
      var t := s.(entering := s.entering - multiset{r});
      if |s.queue| < QUEUE_CAP then t.(queue := t.queue + [r], sent := t.sent + [r])
      else t.(dropped := t.dropped + 1, refused := t.refused + 1)
    case TakeRow =>
      var t := s.(queue := s.queue[1..], batch := s.batch + [s.queue[0]]);
      if s.pc == Select then t.(pc := Coalescing(ToSelect))
      else if s.pc == Draining then t.(pc := Coalescing(ToDrain)) else t
    case CoalesceEnd => s.(pc := AfterCoalesce(s, s.pc.then_))
    case Execute(ok) =>
      var t := s.(batch := [], statements := s.statements + [Statement(s.batch, ok)], pc := After(s.pc.then_));
      if ok then t.(rows := t.rows + |s.batch|) else t.(dropped := t.dropped + |s.batch|)
    case Tick => if s.batch == [] then s else s.(pc := Writing(ToSelect))
    case AcceptFlush => s.(pc := Coalescing(ToFlush))
    case CheckEmpty => s.(pc := if s.queue == [] then Select else Coalescing(ToFlush))
    case SetStopped => s.(stopped := true)
    case CloseStop => s.(stopClosed := true)
    case SeeStop => s.(pc := Draining)
    case DrainEmpty => s.(pc := if s.batch == [] then Returned else Writing(ToReturn))
    case SweepTake => s.(queue := s.queue[1..], swept := s.swept + [s.queue[0]], sweeping := s.sweeping + 1)
    case SweepEnd => s.(dropped := s.dropped + s.sweeping, sweeping := 0)
    case BudgetExpired => s.(dropped := s.dropped + |s.queue|, over := s.over + |s.queue|)
  }

  // ---- The laws ----

  /** Every event is written, counted as dropped, or in exactly one of the places a row can be. */
  predicate Conserved(s: State) {
    s.emitted + s.over == s.rows + s.dropped + |s.queue| + |s.batch| + |s.entering| + s.sweeping
  }

  /** Rows leave in the order they were accepted. */
  predicate InOrder(s: State) {
    s.sent == Handled(s.statements) + s.batch + s.swept + s.queue
  }

  /** A statement has 1 to 256 rows. The counter of written rows counts those of the successful statements, and the
      counter of dropped rows those of the failed ones, those refused, those a sweep counted and those counted early. */
  predicate Batched(s: State) {
    s.rows == Stored(s.statements)
    && s.sweeping <= |s.swept| && s.dropped == s.refused + Lost(s.statements) + (|s.swept| - s.sweeping) + s.over
    && forall i :: 0 <= i < |s.statements| ==> 1 <= |s.statements[i].rows| <= BATCH_SIZE
  }

  /** What the writer holds at each place of its loop. */
  predicate Placed(s: State) {
    |s.queue| <= QUEUE_CAP && |s.batch| <= BATCH_SIZE
    && match s.pc
       case Select => |s.batch| < BATCH_SIZE && s.swept == [] && s.sweeping == 0
       case Draining => |s.batch| < BATCH_SIZE && s.swept == [] && s.sweeping == 0
       case Coalescing(t) => t != ToReturn && s.swept == [] && s.sweeping == 0
       case Writing(_) => s.batch != [] && s.swept == [] && s.sweeping == 0
       case Checking => s.batch == [] && s.swept == [] && s.sweeping == 0
       case Returned => s.batch == []
  }

  /** The writer drains only once the stop channel is closed, which is after `stopped` is set. */
  predicate StopsInOrder(s: State) {
    (s.stopClosed ==> s.stopped)
    && (s.pc == Draining || s.pc == Returned
        || ((s.pc.Coalescing? || s.pc.Writing?) && (s.pc.then_ == ToDrain || s.pc.then_ == ToReturn))
        ==> s.stopClosed)
  }

  predicate Inv(s: State) { Conserved(s) && InOrder(s) && Batched(s) && Placed(s) && StopsInOrder(s) }

  lemma NextConserves(s: State, step: Step)
    requires Conserved(s) && Enabled(s, step)
    ensures Conserved(Next(s, step))
  {
    match step
    case EnqueueCheck(r) => CheckConserves(s, r);
    case EnqueueSend(r) => SendConserves(s, r);
    case Execute(ok) => ExecuteConserves(s, ok);
    case _ =>
  }

  lemma CheckConserves(s: State, r: Row)
    requires Conserved(s)
    ensures Conserved(Next(s, EnqueueCheck(r)))
  {}

  lemma SendConserves(s: State, r: Row)
    requires Conserved(s) && r in s.entering
    ensures Conserved(Next(s, EnqueueSend(r)))
  {
    OneFewer(s.entering, r);
  }

  lemma ExecuteConserves(s: State, ok: bool)
    requires Conserved(s) && s.pc.Writing?
    ensures Conserved(Next(s, Execute(ok)))
  {}

  lemma OneFewer(entering: multiset<Row>, r: Row)
    requires r in entering
    ensures |entering - multiset{r}| == |entering| - 1
  {}

  lemma HandledMore(ss: seq<Statement>, x: Statement)
    ensures Handled(ss + [x]) == Handled(ss) + x.rows
    ensures Stored(ss + [x]) == Stored(ss) + if x.ok then |x.rows| else 0
    ensures Lost(ss + [x]) == Lost(ss) + if x.ok then 0 else |x.rows|
  {
    assert (ss + [x])[..|ss|] == ss;
  }

  lemma NextPlaced(s: State, step: Step)
    requires Placed(s) && Enabled(s, step)
    ensures Placed(Next(s, step))
  {
    match step
    case TakeRow => TakePlaced(s);
    case CoalesceEnd => CoalescePlaced(s);
    case Execute(ok) => ExecutePlaced(s, ok);
    case _ =>
  }

  lemma TakePlaced(s: State)
    requires Placed(s) && Enabled(s, TakeRow)
    ensures Placed(Next(s, TakeRow))
  {}

  lemma CoalescePlaced(s: State)
    requires Placed(s) && Enabled(s, CoalesceEnd)
    ensures Placed(Next(s, CoalesceEnd))
  {}

  lemma ExecutePlaced(s: State, ok: bool)
    requires Placed(s) && Enabled(s, Execute(ok))
    ensures Placed(Next(s, Execute(ok)))
  {}

  lemma NextBatched(s: State, step: Step)
    requires Batched(s) && Placed(s) && Enabled(s, step)
    ensures Batched(Next(s, step))
  {
    hide Stored, Handled, Lost;
    match step
    case EnqueueCheck(r) => CheckBatched(s, r);
    case EnqueueSend(r) => SendBatched(s, r);
    case Execute(ok) => ExecuteBatched(s, ok);
    case _ =>
  }

  lemma CheckBatched(s: State, r: Row)
    requires Batched(s)
    ensures Batched(Next(s, EnqueueCheck(r)))
  {
    hide Stored, Lost;
  }

  lemma SendBatched(s: State, r: Row)
    requires Batched(s) && r in s.entering
    ensures Batched(Next(s, EnqueueSend(r)))
  {
    hide Stored, Lost;
  }

  lemma ExecuteBatched(s: State, ok: bool)
    requires Batched(s) && Placed(s) && s.pc.Writing?
    ensures Batched(Next(s, Execute(ok)))
  {
    hide Stored, Handled, Lost;
    HandledMore(s.statements, Statement(s.batch, ok));
  }

  /** A row moves from the head of the queue to the end of what is before it. */
  lemma Shift(front: seq<Row>, queue: seq<Row>)
    requires queue != []
    ensures (front + [queue[0]]) + queue[1..] == front + queue
  {}

  lemma NextInOrder(s: State, step: Step)
    requires InOrder(s) && Placed(s) && Enabled(s, step)
    ensures InOrder(Next(s, step))
  {
    hide Handled, Stored, Lost;
    match step
    case Execute(ok) => ExecuteInOrder(s, ok);
    case TakeRow => TakeInOrder(s);
    case SweepTake => SweepInOrder(s);
    case EnqueueSend(r) => SendInOrder(s, r);
    case _ =>
  }

  lemma ExecuteInOrder(s: State, ok: bool)
    requires InOrder(s) && Placed(s) && s.pc.Writing?
    ensures InOrder(Next(s, Execute(ok)))
  {
    hide Handled, Stored, Lost;
    HandledMore(s.statements, Statement(s.batch, ok));
    assert (Handled(s.statements) + s.batch) + [] == Handled(s.statements) + s.batch;
  }

  lemma TakeInOrder(s: State)
    requires InOrder(s) && Placed(s) && Enabled(s, TakeRow)
    ensures InOrder(Next(s, TakeRow))
  {
    hide Handled, Stored, Lost;
    var done := Handled(s.statements);
    Shift(done + s.batch, s.queue);
    assert done + s.batch + [] == done + s.batch;
    assert done + (s.batch + [s.queue[0]]) + [] == (done + s.batch) + [s.queue[0]];
  }

  lemma SweepInOrder(s: State)
    requires InOrder(s) && Enabled(s, SweepTake)
    ensures InOrder(Next(s, SweepTake))
  {
    hide Handled, Stored, Lost;
    var front := Handled(s.statements) + s.batch;
    Shift(front + s.swept, s.queue);
    assert front + (s.swept + [s.queue[0]]) == (front + s.swept) + [s.queue[0]];
  }

  lemma SendInOrder(s: State, r: Row)
    requires InOrder(s) && Enabled(s, EnqueueSend(r))
    ensures InOrder(Next(s, EnqueueSend(r)))
  {
    hide Handled, Stored, Lost;
    var front := Handled(s.statements) + s.batch + s.swept;
    assert front + (s.queue + [r]) == (front + s.queue) + [r];
  }

  lemma NextStops(s: State, step: Step)
    requires StopsInOrder(s) && Enabled(s, step)
    ensures StopsInOrder(Next(s, step))
  {}

  lemma NextKeeps(s: State, step: Step)
    requires Inv(s) && Enabled(s, step)
    ensures Inv(Next(s, step))
  {
    hide Conserved, InOrder, Batched, Placed, StopsInOrder, Next;
    NextStops(s, step);
    NextConserves(s, step);
    NextPlaced(s, step);
    NextBatched(s, step);
    NextInOrder(s, step);
  }

  // ---- Whole runs ----

  ghost predicate Run(states: seq<State>, steps: seq<Step>) {
    |states| == |steps| + 1
    && forall i :: 0 <= i < |steps| ==> Enabled(states[i], steps[i]) && states[i + 1] == Next(states[i], steps[i])
  }

  lemma {:induction false} RunInv(states: seq<State>, steps: seq<Step>, i: nat)
    requires Run(states, steps) && states[0] == START && i < |states|
    ensures Inv(states[i])
  {
    hide Next, Enabled;
    if i > 0 {
      RunInv(states, steps, i - 1);
      assert Enabled(states[i - 1], steps[i - 1]);
      NextKeeps(states[i - 1], steps[i - 1]);
    } else {
      assert Inv(START);
    }
  }

  /** No shutdown budget expires. */
  predicate NoBudget(steps: seq<Step>) { forall j :: 0 <= j < |steps| ==> !steps[j].BudgetExpired? }

  /** Until a shutdown budget expires: emitted = written + dropped + queued + in the batch + between check and send
      + swept and not yet counted. */
  lemma Conservation(states: seq<State>, steps: seq<Step>, i: nat)
    requires Run(states, steps) && states[0] == START && i < |states|
    requires NoBudget(steps)
    ensures var s := states[i]; s.emitted == s.rows + s.dropped + |s.queue| + |s.batch| + |s.entering| + s.sweeping
  {
    RunInv(states, steps, i);
    NoOver(states, steps, i);
  }

  lemma {:induction false} NoOver(states: seq<State>, steps: seq<Step>, i: nat)
    requires Run(states, steps) && states[0] == START && i < |states|
    requires NoBudget(steps)
    ensures states[i].over == 0
  {
    if i > 0 {
      NoOver(states, steps, i - 1);
      assert Enabled(states[i - 1], steps[i - 1]) && !steps[i - 1].BudgetExpired?;
    }
  }

  // ---- The shutdown ----

  /** A send that the queue takes. */
  predicate Accepted(s: State, step: Step) { step.EnqueueSend? && |s.queue| < QUEUE_CAP }

  /** Of the steps from a to b, how many are sends that the queue took. */
  ghost function Late(states: seq<State>, steps: seq<Step>, a: nat, b: nat): nat
    requires a <= b <= |steps| <= |states|
  {
    if a == b then 0 else Late(states, steps, a, b - 1) + if Accepted(states[b - 1], steps[b - 1]) then 1 else 0
  }

  lemma {:induction false} NoneLate(states: seq<State>, steps: seq<Step>, a: nat, b: nat)
    requires a <= b <= |steps| <= |states|
    ensures Late(states, steps, a, b) == 0 <==> forall m :: a <= m < b ==> !Accepted(states[m], steps[m])
  {
    if a < b { NoneLate(states, steps, a, b - 1); }
  }

  /** After a sweep: the writer is gone, nothing is admitted any more, and what is queued or swept since was sent late. */
  predicate Swept(s: State, late: nat) {
    s.pc == Returned && s.stopped && |s.queue| + s.sweeping == late
  }

  lemma NextSwept(s: State, step: Step, late: nat)
    requires Swept(s, late) && Enabled(s, step) && !step.SweepEnd?
    ensures Swept(Next(s, step), late + if Accepted(s, step) then 1 else 0)
    ensures Next(s, step).entering <= s.entering
  {}

  lemma {:induction false} AfterSweep(states: seq<State>, steps: seq<Step>, k: nat, j: nat)
    requires Run(states, steps) && states[0] == START && k < j <= |steps| && steps[k].SweepEnd?
    requires forall m :: k < m < j ==> !steps[m].SweepEnd?
    ensures Swept(states[j], Late(states, steps, k + 1, j)) && states[j].entering <= states[k].entering
    decreases j
  {
    hide Next, Enabled, Swept, Inv;
    assert Enabled(states[j - 1], steps[j - 1]);
    if j == k + 1 {
      RunInv(states, steps, k);
      SweepEnds(states[k]);
    } else {
      AfterSweep(states, steps, k, j - 1);
      NextSwept(states[j - 1], steps[j - 1], Late(states, steps, k + 1, j - 1));
    }
  }

  lemma SweepEnds(s: State)
    requires Inv(s) && Enabled(s, SweepEnd)
    ensures Swept(Next(s, SweepEnd), 0) && Next(s, SweepEnd).entering == s.entering
  {
    hide Conserved, InOrder, Batched;
  }

  /** Since the last sweep, what is not accounted for is exactly the enqueues underway and the sends accepted since. */
  lemma Unaccounted(states: seq<State>, steps: seq<Step>, k: nat, j: nat)
    requires Run(states, steps) && states[0] == START && k < j <= |steps| && steps[k].SweepEnd?
    requires forall m :: k < m < j ==> !steps[m].SweepEnd?
    ensures var s := states[j]; s.emitted + s.over == s.rows + s.dropped + Late(states, steps, k + 1, j) + |s.entering|
  {
    hide InOrder, Batched, Next, Enabled;
    RunInv(states, steps, j);
    AfterSweep(states, steps, k, j);
  }

  /** A shutdown is clean at j, every event written or counted as dropped, exactly when no enqueue is between its check
      and its send any more and no send since the last sweep, at k, found room. */
  lemma CleanShutdown(states: seq<State>, steps: seq<Step>, k: nat, j: nat)
    requires Run(states, steps) && states[0] == START && NoBudget(steps)
    requires k < j <= |steps| && steps[k].SweepEnd? && forall m :: k < m < j ==> !steps[m].SweepEnd?
    ensures states[j].emitted == states[j].rows + states[j].dropped
       <==> states[j].entering == multiset{} && forall m :: k < m < j ==> !Accepted(states[m], steps[m])
  {
    hide Enabled, Next, Late, Accepted;
    Unaccounted(states, steps, k, j);
    NoneLate(states, steps, k + 1, j);
    NoOver(states, steps, j);
    if |states[j].entering| == 0 { assert states[j].entering == multiset{}; }
  }

  /** With no enqueue underway when a sweep ends, the shutdown is clean from then on, at every later state, whatever
      else is emitted or swept. */
  lemma {:induction false} CleanForGood(states: seq<State>, steps: seq<Step>, k: nat, j: nat)
    requires Run(states, steps) && states[0] == START && NoBudget(steps)
    requires k < j <= |steps| && steps[k].SweepEnd? && states[k].entering == multiset{}
    ensures states[j].emitted == states[j].rows + states[j].dropped
    ensures states[j].entering == multiset{}
    decreases j
  {
    hide Enabled, Next, Late;
    var last := LastSweep(steps, k, j);
    if last > k { CleanForGood(states, steps, k, last); }
    AfterSweep(states, steps, last, j);
    forall m | last < m < j ensures !Accepted(states[m], steps[m]) {
      AfterSweep(states, steps, last, m);
      NoSend(states, steps, m);
    }
    CleanShutdown(states, steps, last, j);
  }

  lemma NoSend(states: seq<State>, steps: seq<Step>, m: nat)
    requires Run(states, steps) && m < |steps| && states[m].entering == multiset{}
    ensures !steps[m].EnqueueSend?
  {
    assert Enabled(states[m], steps[m]);
  }

  /** The last sweep's end before j. */
  lemma {:induction false} LastSweep(steps: seq<Step>, k: nat, j: nat) returns (last: nat)
    requires k < j <= |steps| && steps[k].SweepEnd?
    ensures k <= last < j && steps[last].SweepEnd? && forall m :: last < m < j ==> !steps[m].SweepEnd?
    decreases j
  {
    if steps[j - 1].SweepEnd? { last := j - 1; } else { last := LastSweep(steps, k, j - 1); }
  }

  /** When budgets expired on the way, dropped is a ceiling: it counts what was still queued then, and may have been
      written since. */
  lemma ExpiredIsCeiling(states: seq<State>, steps: seq<Step>, k: nat, j: nat)
    requires Run(states, steps) && states[0] == START
    requires k < j <= |steps| && steps[k].SweepEnd? && forall m :: k < m < j ==> !steps[m].SweepEnd?
    requires states[j].entering == multiset{} && forall m :: k < m < j ==> !Accepted(states[m], steps[m])
    ensures states[j].emitted + states[j].over == states[j].rows + states[j].dropped
  {
    hide Enabled, Next, Late, Accepted;
    Unaccounted(states, steps, k, j);
    NoneLate(states, steps, k + 1, j);
  }

  /** A shutdown that is not clean: an enqueue reads `stopped` before it is set and sends after the sweep has ended. */
  lemma LateRow() returns (states: seq<State>, steps: seq<Step>)
    ensures Run(states, steps) && states[0] == START && NoBudget(steps) && |steps| == 7
    ensures steps[0] == EnqueueCheck(7) && steps[5] == SweepEnd && steps[6] == EnqueueSend(7) && Accepted(states[6], steps[6])
    ensures states[7].emitted == 1 && states[7].rows == states[7].dropped == 0
  {
    var s1 := START.(emitted := 1, entering := multiset{7});
    var s5 := s1.(stopped := true, stopClosed := true, pc := Returned);
    var s7 := s5.(entering := multiset{}, queue := [7], sent := [7]);
    states, steps := UpToSweep(s1, s5);
    SentLate(s5, s7);
    hide Run, NoBudget, Enabled, Next;
    states, steps := Extend(states, steps, EnqueueSend(7), s7);
  }

  lemma UpToSweep(s1: State, s5: State) returns (states: seq<State>, steps: seq<Step>)
    requires s1 == START.(emitted := 1, entering := multiset{7})
    requires s5 == s1.(stopped := true, stopClosed := true, pc := Returned)
    ensures Run(states, steps) && NoBudget(steps) && |steps| == 6
    ensures steps[0] == EnqueueCheck(7) && steps[5] == SweepEnd && states[0] == START && states[6] == s5
  {
    var s2 := s1.(stopped := true);
    var s3 := s2.(stopClosed := true);
    var s4 := s3.(pc := Draining);
    Admitted(s1);
    Stops(s1, s2, s3, s4, s5);
    states, steps := [START], [];
    hide Run, NoBudget, Enabled, Next;
    RunStarts(START);
    states, steps := Extend(states, steps, EnqueueCheck(7), s1);
    states, steps := Extend(states, steps, SetStopped, s2);
    states, steps := Extend(states, steps, CloseStop, s3);
    states, steps := Extend(states, steps, SeeStop, s4);
    states, steps := Extend(states, steps, DrainEmpty, s5);
    states, steps := Extend(states, steps, SweepEnd, s5);
  }

  lemma RunStarts(s: State)
    ensures Run([s], []) && NoBudget([])
  {}

  /** A run goes on. */
  lemma Extend(states: seq<State>, steps: seq<Step>, step: Step, next: State) returns (states': seq<State>, steps': seq<Step>)
    requires Run(states, steps) && NoBudget(steps) && |states| == |steps| + 1 && !step.BudgetExpired?
    requires Enabled(states[|steps|], step) && next == Next(states[|steps|], step)
    ensures Run(states', steps') && NoBudget(steps') && |states'| == |steps'| + 1 && |steps'| == |steps| + 1
    ensures forall i :: 0 <= i < |states| ==> states'[i] == states[i]
    ensures forall i :: 0 <= i < |steps| ==> steps'[i] == steps[i]
    ensures steps'[|steps|] == step && states'[|steps'|] == next
  {
    hide Enabled, Next;
    states', steps' := states + [next], steps + [step];
    forall i | 0 <= i < |steps'| ensures Enabled(states'[i], steps'[i]) && states'[i + 1] == Next(states'[i], steps'[i]) {
      if i < |steps| { assert states'[i] == states[i] && states'[i + 1] == states[i + 1]; }
    }
  }

  lemma Admitted(s1: State)
    requires s1 == START.(emitted := 1, entering := multiset{7})
    ensures Enabled(START, EnqueueCheck(7)) && s1 == Next(START, EnqueueCheck(7))
  {
    assert multiset{} + multiset{7} == multiset{7};
  }

  lemma Stops(s1: State, s2: State, s3: State, s4: State, s5: State)
    requires s1.queue == s1.batch == [] && s1.pc == Select && s1.sweeping == 0
    requires s2 == s1.(stopped := true) && s3 == s2.(stopClosed := true) && s4 == s3.(pc := Draining) && s5 == s4.(pc := Returned)
    ensures Enabled(s1, SetStopped) && s2 == Next(s1, SetStopped) && Enabled(s2, CloseStop) && s3 == Next(s2, CloseStop)
    ensures Enabled(s3, SeeStop) && s4 == Next(s3, SeeStop) && Enabled(s4, DrainEmpty) && s5 == Next(s4, DrainEmpty)
    ensures Enabled(s5, SweepEnd) && s5 == Next(s5, SweepEnd)
  {}

  lemma SentLate(s: State, s': State)
    requires s.entering == multiset{7} && s.queue == s.sent == []
    requires s' == s.(entering := multiset{}, queue := [7], sent := [7])
    ensures Enabled(s, EnqueueSend(7)) && s' == Next(s, EnqueueSend(7))
  {
    assert multiset{7} - multiset{7} == multiset{} && s.queue + [7] == [7] && s.sent + [7] == [7];
  }

  // ---- Flushes ----

  /** When the writer signals a flush done, every row accepted so far has been through a statement, in order, and is in
      the counter of written rows or, with what was refused and what was counted early, in that of dropped ones. */
  lemma FlushDone(s: State)
    requires Inv(s) && Enabled(s, CheckEmpty) && Next(s, CheckEmpty).pc == Select
    ensures Handled(s.statements) == s.sent
    ensures s.dropped == s.refused + Lost(s.statements) + s.over && s.rows == Stored(s.statements)
    ensures s.rows + (s.dropped - s.refused - s.over) == |s.sent|
  {
    assert Handled(s.statements) + [] + [] + [] == Handled(s.statements);
    StoredLost(s.statements);
  }

  /** Accepted rows and executed statements are never taken back. */
  lemma LogsGrow(s: State, step: Step)
    requires Enabled(s, step)
    ensures s.sent <= Next(s, step).sent && s.statements <= Next(s, step).statements
  {}

  lemma {:induction false} SentGrows(states: seq<State>, steps: seq<Step>, i: nat, j: nat)
    requires Run(states, steps) && i <= j < |states|
    ensures states[i].sent <= states[j].sent
    decreases j - i
  {
    hide Next, Enabled;
    if i < j {
      SentGrows(states, steps, i, j - 1);
      assert Enabled(states[j - 1], steps[j - 1]);
      LogsGrow(states[j - 1], steps[j - 1]);
    }
  }

  /** Read your writes: every row accepted before a flush was asked for at i has, when the flush is signalled at j,
      been through a statement, in order; what follows it was accepted since. All of them are written or counted as
      dropped. */
  lemma FlushCovers(states: seq<State>, steps: seq<Step>, i: nat, j: nat)
    requires Run(states, steps) && states[0] == START && i < j < |steps|
    requires steps[j].CheckEmpty? && states[j + 1].pc == Select
    ensures var s := states[j];
            states[i].sent <= Handled(s.statements) && s.rows + (s.dropped - s.refused - s.over) == |Handled(s.statements)|
  {
    hide Inv;
    RunInv(states, steps, j);
    assert Enabled(states[j], steps[j]);
    FlushDone(states[j]);
    SentGrows(states, steps, i, j);
  }

  // ---- The writer ----

  lemma SendIs(s: State, r: Row)
    requires r in s.entering
    ensures Enabled(s, EnqueueSend(r))
    ensures var t := s.(entering := s.entering - multiset{r});
            Next(s, EnqueueSend(r)) == if |s.queue| < QUEUE_CAP then t.(queue := t.queue + [r], sent := t.sent + [r])
                                       else t.(dropped := t.dropped + 1, refused := t.refused + 1)
  {}

  lemma ExecuteIs(s: State, ok: bool)
    requires s.pc.Writing?
    ensures Enabled(s, Execute(ok))
    ensures var t := s.(batch := [], statements := s.statements + [Statement(s.batch, ok)], pc := After(s.pc.then_));
            Next(s, Execute(ok)) == if ok then t.(rows := t.rows + |s.batch|) else t.(dropped := t.dropped + |s.batch|)
  {}

  function Ceil(n: nat): nat { (n + (BATCH_SIZE - 1)) / BATCH_SIZE }

  /** The fewest full statements that hold n rows. */
  lemma CeilIs(n: nat)
    ensures n <= 256 * Ceil(n) && (n > 0 ==> 256 * (Ceil(n) - 1) < n) && (n == 0 ==> Ceil(n) == 0)
  {}

  /** One statement takes a batch of b filled up from q queued rows. */
  lemma CeilRound(b: nat, q: nat)
    requires b <= BATCH_SIZE
    ensures var k := Min(BATCH_SIZE - b, q);
            Ceil(b + q) == Ceil(q - k) + (if b + k > 0 then 1 else 0)
            && (b + k >= BATCH_SIZE ==> Ceil(b + q) == 1 + Ceil(q - k)) && Ceil(0) == 0
  {}

  class Writer {
    var queue: seq<Row>
    var batch: seq<Row>
    var stopped: bool
    var stopClosed: bool
    var dropped: nat
    var rows: nat
    var statements: nat
    ghost var pc: Pc
    ghost var entering: multiset<Row>
    ghost var log: seq<Statement>
    ghost var emitted: nat
    ghost var refused: nat
    ghost var sent: seq<Row>
    ghost var sweeping: nat
    ghost var swept: seq<Row>
    ghost var over: nat

    ghost function Now(): State
      reads this
    {
      State(queue, batch, pc, stopped, stopClosed, entering, dropped, rows, log, emitted, refused, sent, sweeping, swept, over)
    }

    ghost predicate Valid()
      reads this
    {
      Inv(Now()) && statements == |log|
    }

    constructor ()
      ensures Valid() && Now() == START
    {
      queue, batch, stopped, stopClosed, dropped, rows, statements := [], [], false, false, 0, 0, 0;
      pc, entering, log, emitted, refused, sent, sweeping, swept, over := Select, multiset{}, [], 0, 0, [], 0, [], 0;
    }

    /** enqueue, when nothing comes between its check and its send: accepted, or refused and counted. */
    method Enqueue(r: Row) returns (ok: bool)
      requires Valid()
      modifies this
      ensures Valid()
      ensures ok <==> !old(stopped) && |old(queue)| < QUEUE_CAP
      ensures queue == (if ok then old(queue) + [r] else old(queue)) && dropped == (if ok then old(dropped) else old(dropped) + 1)
    {
      hide Inv, Next;
      var admitted := Admit(r);
      if admitted { ok := Send(r); } else { ok := false; }
    }

    /** The check of `stopped`. */
    method Admit(r: Row) returns (ok: bool)
      requires Valid()
      modifies this`emitted, this`refused, this`dropped, this`entering
      ensures Valid() && Now() == Next(old(Now()), EnqueueCheck(r))
      ensures ok == !stopped && dropped == (if ok then old(dropped) else old(dropped) + 1) && (ok ==> r in entering)
    {
      hide Inv;
      NextKeeps(Now(), EnqueueCheck(r));
      emitted := emitted + 1;
      ok := !stopped;
      if ok { entering := entering + multiset{r}; } else { dropped, refused := dropped + 1, refused + 1; }
    }

    /** The non-blocking send. */
    method Send(r: Row) returns (ok: bool)
      requires Valid() && r in entering
      modifies this`queue, this`sent, this`refused, this`dropped, this`entering
      ensures Now() == Next(old(Now()), EnqueueSend(r))
      ensures Valid()
      ensures ok <==> |old(queue)| < QUEUE_CAP
      ensures queue == (if ok then old(queue) + [r] else old(queue)) && dropped == (if ok then old(dropped) else old(dropped) + 1)
    {
      hide Inv, Next;
      ok := |queue| < QUEUE_CAP;
      if ok { Accept(r); } else { Refuse(r); }
    }

    method Accept(r: Row)
      requires Valid() && r in entering && |queue| < QUEUE_CAP
      modifies this`queue, this`sent, this`entering
      ensures Now() == Next(old(Now()), EnqueueSend(r))
      ensures Valid() && queue == old(queue) + [r]
    {
      hide Inv, Next, Enabled;
      SendIs(Now(), r);
      NextKeeps(Now(), EnqueueSend(r));
      entering, queue, sent := entering - multiset{r}, queue + [r], sent + [r];
    }

    method Refuse(r: Row)
      requires Valid() && r in entering && |queue| >= QUEUE_CAP
      modifies this`refused, this`dropped, this`entering
      ensures Now() == Next(old(Now()), EnqueueSend(r))
      ensures Valid() && dropped == old(dropped) + 1
    {
      hide Inv, Next, Enabled;
      SendIs(Now(), r);
      NextKeeps(Now(), EnqueueSend(r));
      entering, dropped, refused := entering - multiset{r}, dropped + 1, refused + 1;
    }

    /** One row from the queue into the batch. */
    method Take()
      requires Valid() && Enabled(Now(), TakeRow)
      modifies this`queue, this`batch, this`pc
      ensures Valid() && Now() == Next(old(Now()), TakeRow)
    {
      hide Inv;
      NextKeeps(Now(), TakeRow);
      queue, batch, pc := queue[1..], batch + [queue[0]],
        if pc == Select then Coalescing(ToSelect) else if pc == Draining then Coalescing(ToDrain) else pc;
    }

    /** coalesce, when nothing is sent meanwhile: everything queued, up to a full batch. */
    method Coalesce()
      requires Valid() && pc.Coalescing?
      modifies this`queue, this`batch, this`pc
      ensures Valid()
      ensures var k := Min(BATCH_SIZE - |old(batch)|, |old(queue)|);
              batch == old(batch) + old(queue)[..k] && queue == old(queue)[k..]
      ensures pc == AfterCoalesce(Now().(pc := old(pc)), old(pc).then_)
    {
      hide Inv;
      PlacedNow();
      ghost var k := 0;
      while |batch| < BATCH_SIZE && queue != []
        invariant Valid() && pc == old(pc) && k <= |old(queue)| && |batch| <= BATCH_SIZE
        invariant batch == old(batch) + old(queue)[..k] && queue == old(queue)[k..]
        decreases |queue|
      {
        assert old(queue)[..k + 1] == old(queue)[..k] + [old(queue)[k]];
        Take();
        k := k + 1;
      }
      NextKeeps(Now(), CoalesceEnd);
      pc := AfterCoalesce(Now(), pc.then_);
    }

    lemma PlacedNow()
      requires Inv(Now())
      ensures Placed(Now()) && |batch| <= BATCH_SIZE
    {}

    /** writeBatch: one statement for the whole batch; a failed one is a loss, counted. */
    method WriteBatch(ok: bool)
      requires Valid() && pc.Writing?
      modifies this`batch, this`pc, this`log, this`statements, this`rows, this`dropped
      ensures Now() == Next(old(Now()), Execute(ok))
      ensures Valid() && statements == old(statements) + 1
    {
      hide Inv, Next, After;
      if ok { Written(); } else { Failed(); }
    }

    method Written()
      requires Valid() && pc.Writing?
      modifies this`batch, this`pc, this`log, this`statements, this`rows
      ensures Now() == Next(old(Now()), Execute(true))
      ensures Valid() && statements == old(statements) + 1
    {
      hide Inv, Next, Enabled, After;
      ExecuteIs(Now(), true);
      NextKeeps(Now(), Execute(true));
      batch, pc, log, statements, rows := [], After(pc.then_), log + [Statement(batch, true)], statements + 1, rows + |batch|;
    }

    method Failed()
      requires Valid() && pc.Writing?
      modifies this`batch, this`pc, this`log, this`statements, this`dropped
      ensures Now() == Next(old(Now()), Execute(false))
      ensures Valid() && statements == old(statements) + 1
    {
      hide Inv, Next, Enabled, After;
      ExecuteIs(Now(), false);
      NextKeeps(Now(), Execute(false));
      batch, pc, log, statements, dropped := [], After(pc.then_), log + [Statement(batch, false)], statements + 1, dropped + |batch|;
    }

    /** A flush request, when nothing is sent meanwhile: N pending rows go in exactly ceil(N / 256) statements.
        store(i) says whether the i-th statement succeeds. */
    method ServeFlush(store: nat -> bool)
      requires Valid() && pc == Select
      modifies this`queue, this`batch, this`pc, this`log, this`statements, this`rows, this`dropped
      ensures Valid() && pc == Select && queue == [] && batch == []
      ensures statements == old(statements) + Ceil(|old(batch)| + |old(queue)|)
      ensures Handled(log) == sent
    {
      hide Inv, Next, Enabled, Handled;
      BeginFlush();
      var go := true;
      while go
        invariant Valid() && |batch| < BATCH_SIZE
        invariant if go then pc == Coalescing(ToFlush) else pc == Checking && queue == []
        invariant statements + Ceil(|batch| + |queue|) == old(statements) + Ceil(|old(batch)| + |old(queue)|)
        decreases go, |queue|, |batch|
      {
        go := FlushRound(store);
      }
      EndFlush();
    }

    method BeginFlush()
      requires Valid() && pc == Select
      modifies this`pc
      ensures Valid() && pc == Coalescing(ToFlush) && |batch| < BATCH_SIZE
    {
      hide Inv;
      PlacedNow();
      NextKeeps(Now(), AcceptFlush);
      pc := Coalescing(ToFlush);
    }

    method EndFlush()
      requires Valid() && pc == Checking && queue == []
      modifies this`pc
      ensures Valid() && pc == Select && batch == [] && Handled(log) == sent
    {
      hide Inv;
      PlacedNow();
      FinishFlush(Now());
      NextKeeps(Now(), CheckEmpty);
      pc := Select;
    }

    method FlushRound(store: nat -> bool) returns (go: bool)
      requires Valid() && pc == Coalescing(ToFlush) && |batch| < BATCH_SIZE
      modifies this`queue, this`batch, this`pc, this`log, this`statements, this`rows, this`dropped
      ensures Valid() && batch == [] && (if go then pc == Coalescing(ToFlush) else pc == Checking && queue == [])
      ensures statements + Ceil(|queue|) == old(statements) + Ceil(|old(batch)| + |old(queue)|)
      ensures go ==> |queue| < |old(queue)|
    {
      hide Inv, Next, Enabled, Ceil, Placed;
      PlacedNow();
      CeilRound(|batch|, |queue|);
      Coalesce();
      if batch != [] { ExecuteBatch(store(statements)); }
      go := queue != [];
      if go { MoreToFlush(); }
    }

    method MoreToFlush()
      requires Valid() && pc == Checking && queue != []
      modifies this`pc
      ensures Valid() && pc == Coalescing(ToFlush)
    {
      hide Inv;
      NextKeeps(Now(), CheckEmpty);
      pc := Coalescing(ToFlush);
    }

    /** WriteBatch, as the loops use it. */
    method ExecuteBatch(ok: bool)
      requires Valid() && pc.Writing?
      modifies this`batch, this`pc, this`log, this`statements, this`rows, this`dropped
      ensures Valid() && batch == [] && pc == After(old(pc).then_) && statements == old(statements) + 1
    {
      hide Inv;
      WriteBatch(ok);
    }

    lemma FinishFlush(s: State)
      requires Inv(s) && s.pc == Checking && s.queue == []
      ensures Handled(s.statements) == s.sent
    {
      FlushDone(s);
    }

    /** The final drain: everything that reached the queue goes out, and the writer returns. */
    method FinalDrain(store: nat -> bool)
      requires Valid() && pc == Select && stopClosed
      modifies this`queue, this`batch, this`pc, this`log, this`statements, this`rows, this`dropped
      ensures Valid() && pc == Returned && queue == [] && batch == []
      ensures statements == old(statements) + Ceil(|old(batch)| + |old(queue)|)
    {
      hide Inv;
      NextKeeps(Now(), SeeStop);
      pc := Draining;
      while queue != []
        invariant Valid() && pc == Draining && stopClosed == old(stopClosed)
        invariant statements + Ceil(|batch| + |queue|) == old(statements) + Ceil(|old(batch)| + |old(queue)|)
        decreases |queue|
      {
        DrainRound(store);
      }
      LastBatch(store);
    }

    method LastBatch(store: nat -> bool)
      requires Valid() && pc == Draining && queue == []
      modifies this`batch, this`pc, this`log, this`statements, this`rows, this`dropped
      ensures Valid() && pc == Returned && batch == [] && statements == old(statements) + Ceil(|old(batch)|)
    {
      hide Inv;
      PlacedNow();
      NextKeeps(Now(), DrainEmpty);
      if batch != [] {
        pc := Writing(ToReturn);
        ExecuteBatch(store(statements));
      } else {
        pc := Returned;
      }
    }

    /** Take, as the drain uses it. */
    method TakeOne()
      requires Valid() && pc == Draining && queue != []
      modifies this`queue, this`batch, this`pc
      ensures Valid() && pc == Coalescing(ToDrain) && queue == old(queue)[1..] && |batch| == |old(batch)| + 1 <= BATCH_SIZE
    {
      hide Inv;
      PlacedNow();
      Take();
    }

    method DrainRound(store: nat -> bool)
      requires Valid() && pc == Draining && queue != []
      modifies this`queue, this`batch, this`pc, this`log, this`statements, this`rows, this`dropped
      ensures Valid() && pc == Draining && |queue| < |old(queue)|
      ensures statements + Ceil(|batch| + |queue|) == old(statements) + Ceil(|old(batch)| + |old(queue)|)
    {
      hide Inv, Next, Ceil;
      PlacedNow();
      TakeOne();
      CeilRound(|batch|, |queue|);
      Coalesce();
      if |batch| >= BATCH_SIZE { ExecuteBatch(store(statements)); }
    }

    /** The sweep after the writer returned: what is left is counted as dropped. */
    method Sweep() returns (n: nat)
      requires Valid() && pc == Returned && sweeping == 0
      modifies this`queue, this`swept, this`sweeping, this`dropped
      ensures Valid() && queue == [] && sweeping == 0
      ensures n == |old(queue)| && dropped == old(dropped) + n
    {
      hide Inv, Next;
      n := 0;
      while queue != []
        invariant Valid() && pc == Returned && sweeping == n && n + |queue| == |old(queue)| && dropped == old(dropped)
        decreases |queue|
      {
        SweepRow();
        n := n + 1;
      }
      CountSwept(n);
    }

    /** One row left in the queue. */
    method SweepRow()
      requires Valid() && Enabled(Now(), SweepTake)
      modifies this`queue, this`swept, this`sweeping
      ensures Valid() && |queue| == |old(queue)| - 1 && sweeping == old(sweeping) + 1
    {
      hide Inv;
      NextKeeps(Now(), SweepTake);
      swept, queue, sweeping := swept + [queue[0]], queue[1..], sweeping + 1;
    }

    method CountSwept(n: nat)
      requires Valid() && Enabled(Now(), SweepEnd) && n == sweeping
      modifies this`sweeping, this`dropped
      ensures Valid() && dropped == old(dropped) + n && sweeping == 0
    {
      hide Inv;
      NextKeeps(Now(), SweepEnd);
      dropped, sweeping := dropped + n, 0;
    }
  }
}
