/** The training schedule: one permutation of the rows per epoch, from a seeded splitmix64, laid end to end.

    An epoch's order depends on the seed and the epoch alone, so entry q of the schedule is entry q mod rows of the
    order of epoch q / rows, and the loop that keeps one order at a time is proved to give just that.
    */
module Schedule {
  import opened Arithmetic

  const WORD := 0x1_0000_0000_0000_0000   // 2^64

  // ---- The generator ----

  type Word = n: nat | n < WORD

  function Finalize(z: bv64): bv64 {
    var a := (z ^ (z >> 30)) * 0xBF58476D1CE4E5B9;
    var b := (a ^ (a >> 27)) * 0x94D049BB133111EB;
    b ^ (b >> 31)
  }

  const GAMMA := 0x9E3779B97F4A7C15

  /** The state after a call, and what the call gives. */
  function Step(s: Word): Word { (s + GAMMA) % WORD }

  function ToWord(b: bv64): Word { b as nat }

  function FromWord(s: Word): bv64 { s as bv64 }

  function Output(s: Word): Word { ToWord(Finalize(FromWord(s))) }

  /** The state an epoch starts from; seed is a 64-bit integer in two's complement. */
  function EpochSeed(seed: int, epoch: nat): Word { (seed % WORD * 1000003 + epoch) % WORD }

  /** bits.Mul64's high word. */
  function HighWord(x: Word, n: nat): nat { x * n / WORD }

  /** The first outputs of splitmix64 from the state 0, as published. */
  lemma PublishedOutputs()
    ensures Output(Step(0)) == 0xE220A8397B1DCDAF
    ensures Output(Step(Step(0))) == 0x6E789E6AA1B965F4
    ensures Output(Step(Step(Step(0)))) == 0x06C45D188009454F
    ensures Output(Step(Step(Step(Step(0))))) == 0xF88BB8A8724C81EC
  {
    hide Output;
    OutputOf(0x9E3779B97F4A7C15, 0xE220A8397B1DCDAF);
    OutputOf(0x3C6EF372FE94F82A, 0x6E789E6AA1B965F4);
    OutputOf(0xDAA66D2C7DDF743F, 0x06C45D188009454F);
    OutputOf(0x78DDE6E5FD29F054, 0xF88BB8A8724C81EC);
    Literals();
  }

  lemma OutputOf(z: bv64, out: bv64)
    requires Finalize(z) == out
    ensures Output(ToWord(z)) == ToWord(out)
  {
    hide Finalize, ToWord, FromWord;
    FromToWord(z);
  }

  lemma FromToWord(b: bv64)
    ensures FromWord(ToWord(b)) == b
  {}

  lemma Literals()
    ensures ToWord(0x9E3779B97F4A7C15) == 0x9E3779B97F4A7C15 && ToWord(0xE220A8397B1DCDAF) == 0xE220A8397B1DCDAF
    ensures ToWord(0x3C6EF372FE94F82A) == 0x3C6EF372FE94F82A && ToWord(0x6E789E6AA1B965F4) == 0x6E789E6AA1B965F4
    ensures ToWord(0xDAA66D2C7DDF743F) == 0xDAA66D2C7DDF743F && ToWord(0x06C45D188009454F) == 0x06C45D188009454F
    ensures ToWord(0x78DDE6E5FD29F054) == 0x78DDE6E5FD29F054 && ToWord(0xF88BB8A8724C81EC) == 0xF88BB8A8724C81EC
  {}

  /** The state after k calls. */
  function Nth(s: Word, k: nat): Word { (s + k * GAMMA) % WORD }

  lemma NthStep(s: Word, k: nat)
    ensures Nth(s, 0) == s && Nth(s, k + 1) == Step(Nth(s, k)) == Nth(Step(s), k)
  {
    ModAdd(s + k * GAMMA, GAMMA);
    ModAdd(s + GAMMA, k * GAMMA);
    assert s + (k + 1) * GAMMA == s + k * GAMMA + GAMMA;
  }

  lemma ModAdd(a: nat, b: nat)
    ensures (a % WORD + b) % WORD == (a + b) % WORD
  {
    var q := (a % WORD + b) / WORD;
    DivUnique(a + b, WORD, a / WORD + q, (a % WORD + b) % WORD);
  }

  /** Each epoch starts one state further on, each seed 1000003. */
  lemma EpochSeedIs(seed: int, epoch: nat)
    ensures EpochSeed(0, 0) == 0
    ensures EpochSeed(seed, epoch + 1) == (EpochSeed(seed, epoch) + 1) % WORD
    ensures EpochSeed(seed + 1, epoch) == (EpochSeed(seed, epoch) + 1000003) % WORD
  {
    var m: nat := seed % WORD;
    ModAdd(m * 1000003 + epoch, 1);
    ModAdd(m * 1000003 + epoch, 1000003);
    NextSeed(seed);
    if m + 1 == WORD { ModWrap(epoch); }
  }

  lemma NextSeed(seed: int)
    ensures (seed + 1) % WORD == if seed % WORD + 1 == WORD then 0 else seed % WORD + 1
  {}

  lemma ModWrap(epoch: nat)
    ensures ((WORD - 1) * 1000003 + epoch + 1000003) % WORD == epoch % WORD
  {
    DivMod(epoch, WORD);
    DivUnique((WORD - 1) * 1000003 + epoch + 1000003, WORD, 1000003 + epoch / WORD, epoch % WORD);
  }

  /** So no two epochs of a run start from the same state. */
  lemma EpochsDiffer(seed: int, e: nat, e': nat)
    requires e < e' < WORD
    ensures EpochSeed(seed, e) != EpochSeed(seed, e')
  {}

  /** It is below n: the draw is always an index. */
  lemma HighWordBelow(x: Word, n: nat)
    requires n > 0
    ensures HighWord(x, n) < n
  {
    MulLe(x, WORD - 1, n);
    assert x * n < n * WORD;
    DivBelow(x * n, n);
  }

  lemma DivBelow(a: nat, n: nat)
    requires a < n * WORD
    ensures a / WORD < n
  {}

  // ---- One epoch ----

  function Identity(n: nat): (s: seq<nat>)
    ensures |s| == n && forall k :: 0 <= k < n ==> s[k] == k
  {
    seq(n, k => k)
  }

  function Swap(s: seq<nat>, i: nat, j: nat): (t: seq<nat>)
    requires i < |s| && j < |s|
    ensures |t| == |s|
  {
    s[i := s[j]][j := s[i]]
  }

  /** Fisher-Yates from place i down. */
  function Shuffle(s: seq<nat>, i: nat, state: Word): (t: seq<nat>)
    requires i < |s| || i == 0
    ensures |t| == |s|
    decreases i
  {
    if i == 0 then s else
    HighWordBelow(Output(Step(state)), i + 1);
    var j := HighWord(Output(Step(state)), i + 1);
    Shuffle(Swap(s, i, j), i - 1, Step(state))
  }

  function EpochOrder(n: nat, seed: int, epoch: nat): (order: seq<nat>)
    ensures |order| == n
  {
    Shuffle(Identity(n), if n == 0 then 0 else n - 1, EpochSeed(seed, epoch))
  }

  lemma ShuffleStep(s: seq<nat>, i: nat, state: Word)
    requires 0 < i < |s|
    ensures var j := HighWord(Output(Step(state)), i + 1);
            j <= i && Shuffle(s, i, state) == Shuffle(Swap(s, i, j), i - 1, Step(state))
  {
    HighWordBelow(Output(Step(state)), i + 1);
  }

  lemma ShuffleDone(s: seq<nat>, state: Word)
    ensures Shuffle(s, 0, state) == s
  {}

  /** t is s with places i and j exchanged. */
  ghost predicate Exchanged(s: seq<nat>, t: seq<nat>, i: nat, j: nat) {
    i < |s| && j < |s| && |t| == |s| && t[i] == s[j] && t[j] == s[i]
    && forall k :: 0 <= k < |s| && k != i && k != j ==> t[k] == s[k]
  }

  /** For place i - k: it and place floor(u * (i - k + 1) / 2^64) exchange, u the next output. */
  ghost predicate Drawn(trace: seq<seq<nat>>, i: nat, state: Word, k: nat)
    requires k < i < |trace|
  {
    var u := Output(Nth(state, k + 1));
    u * (i - k + 1) / WORD >= 0 && Exchanged(trace[k], trace[k + 1], i - k, u * (i - k + 1) / WORD)
  }

  /** The places from i down to 1 are drawn in turn. */
  ghost predicate FisherYates(trace: seq<seq<nat>>, i: nat, state: Word) {
    |trace| == i + 1 && forall k :: 0 <= k < i ==> Drawn(trace, i, state, k)
  }

  lemma {:induction false} ShuffleIs(s: seq<nat>, i: nat, state: Word) returns (trace: seq<seq<nat>>)
    requires i < |s| || i == 0
    ensures FisherYates(trace, i, state) && trace[0] == s && trace[i] == Shuffle(s, i, state)
    decreases i
  {
    hide Output, Step, Nth, Shuffle;
    if i == 0 {
      ShuffleDone(s, state);
      trace := [s];
    } else {
      ShuffleStep(s, i, state);
      var t := Swap(s, i, HighWord(Output(Step(state)), i + 1));
      var rest := ShuffleIs(t, i - 1, Step(state));
      trace := [s] + rest;
      NthStep(state, 0);
      forall k | 0 <= k < i ensures Drawn(trace, i, state, k) {
        if k > 0 {
          NthStep(state, k);
          assert Drawn(rest, i - 1, Step(state), k - 1);
        }
      }
    }
  }

  /** The epoch's order is what drawing every place in turn makes of 0, 1, 2 and so on. */
  ghost predicate Drawing(trace: seq<seq<nat>>, n: nat, seed: int, epoch: nat, order: seq<nat>) {
    FisherYates(trace, if n == 0 then 0 else n - 1, EpochSeed(seed, epoch))
    && |trace[0]| == n && (forall k :: 0 <= k < n ==> trace[0][k] == k)
    && trace[|trace| - 1] == order
  }

  lemma EpochOrderIs(n: nat, seed: int, epoch: nat)
    ensures exists trace :: Drawing(trace, n, seed, epoch, EpochOrder(n, seed, epoch))
  {
    hide Shuffle, EpochSeed, FisherYates;
    var trace := ShuffleIs(Identity(n), if n == 0 then 0 else n - 1, EpochSeed(seed, epoch));
    assert FisherYates(trace, if n == 0 then 0 else n - 1, EpochSeed(seed, epoch));
    LastOf(trace, if n == 0 then 0 else n - 1, EpochSeed(seed, epoch));
    assert Drawing(trace, n, seed, epoch, EpochOrder(n, seed, epoch));
  }

  lemma LastOf(trace: seq<seq<nat>>, i: nat, state: Word)
    requires FisherYates(trace, i, state)
    ensures |trace| == i + 1
  {}

  method ShuffleInPlace(n: nat, seed: int, epoch: nat) returns (order: array<nat>)
    ensures fresh(order) && order[..] == EpochOrder(n, seed, epoch)
    ensures exists trace :: Drawing(trace, n, seed, epoch, order[..])
  {
    hide Output, HighWord, Step, Shuffle, Drawing;
    EpochOrderIs(n, seed, epoch);
    order := new nat[n](k => k);
    assert order[..] == Identity(n);
    var src := EpochSeed(seed, epoch);
    var i := n - 1;
    while i > 0
      invariant n == 0 || 0 <= i < n
      invariant EpochOrder(n, seed, epoch) == Shuffle(order[..], if n == 0 then 0 else i, src)
      decreases i
    {
      ShuffleStep(order[..], i, src);
      src := Step(src);
      var j := HighWord(Output(src), i + 1);
      ghost var before := order[..];
      order[i], order[j] := order[j], order[i];
      assert order[..] == Swap(before, i, j);
      i := i - 1;
    }
    ShuffleDone(order[..], src);
  }

  // ---- Permutations ----

  /** s holds each of 0..n-1 exactly once. */
  predicate Permutation(s: seq<nat>, n: nat) { multiset(s) == multiset(Identity(n)) }

  lemma SwapPermutes(s: seq<nat>, i: nat, j: nat)
    requires i < |s| && j < |s|
    ensures multiset(Swap(s, i, j)) == multiset(s)
  {}

  lemma {:induction false} ShufflePermutes(s: seq<nat>, i: nat, state: Word)
    requires i < |s| || i == 0
    ensures multiset(Shuffle(s, i, state)) == multiset(s)
    decreases i
  {
    hide Output, HighWord, Step, Swap;
    if i > 0 {
      HighWordBelow(Output(Step(state)), i + 1);
      var j := HighWord(Output(Step(state)), i + 1);
      SwapPermutes(s, i, j);
      ShufflePermutes(Swap(s, i, j), i - 1, Step(state));
    }
  }

  lemma EpochPermutes(n: nat, seed: int, epoch: nat)
    ensures Permutation(EpochOrder(n, seed, epoch), n)
  {
    ShufflePermutes(Identity(n), if n == 0 then 0 else n - 1, EpochSeed(seed, epoch));
  }

  lemma {:induction false} IdentityCount(n: nat, r: nat)
    ensures multiset(Identity(n))[r] == if r < n then 1 else 0
  {
    if n > 0 {
      IdentityCount(n - 1, r);
      assert Identity(n) == Identity(n - 1) + [n - 1];
    }
  }

  // ---- The schedule ----

  /** The row at place q. */
  function RowAt(rows: nat, seed: int, q: nat): nat
    requires rows > 0
  {
    EpochOrder(rows, seed, q / rows)[q % rows]
  }

  function Order(rows: int, rowsPerStep: nat, steps: nat, seed: int): (s: seq<nat>)
    ensures |s| == if rows <= 0 then 0 else rowsPerStep * steps
  {
    if rows <= 0 then [] else seq(rowsPerStep * steps, q requires 0 <= q => RowAt(rows, seed, q))
  }

  lemma Divided(q: nat, rows: nat)
    requires rows > 0
    ensures q / rows >= 0 && 0 <= q % rows < rows
  {
    DivMod(q, rows);
  }

  lemma RowIs(rows: nat, seed: int, q: nat, order: seq<nat>)
    requires rows > 0 && q / rows >= 0 && order == EpochOrder(rows, seed, q / rows)
    ensures |order| == rows && 0 <= q % rows < rows && order[q % rows] == RowAt(rows, seed, q)
  {
    hide EpochOrder;
    Divided(q, rows);
  }

  /** The loop keeps the order of the current epoch and makes the next one when it comes. */
  method OrderSchedule(rows: int, rowsPerStep: nat, steps: nat, seed: int) returns (out: seq<nat>)
    ensures out == Order(rows, rowsPerStep, steps, seed)
  {
    hide EpochOrder, RowAt;
    if rows <= 0 { return []; }
    out := [];
    var epoch := -1;
    var order := new nat[0];
    var total := rowsPerStep * steps;
    for q := 0 to total
      invariant |out| == q && forall k :: 0 <= k < q ==> out[k] == RowAt(rows, seed, k)
      invariant epoch >= 0 ==> order[..] == EpochOrder(rows, seed, epoch)
    {
      Divided(q, rows);
      var e := q / rows;
      if e != epoch {
        epoch := e;
        order := ShuffleInPlace(rows, seed, e);
      }
      RowIs(rows, seed, q, order[..]);
      out := out + [order[q % rows]];
    }
  }

  /** Every aligned window of `rows` entries is its epoch's permutation. */
  lemma WindowPermutes(rows: nat, rowsPerStep: nat, steps: nat, seed: int, e: nat)
    requires rows > 0 && e * rows + rows <= rowsPerStep * steps
    ensures var w := Order(rows, rowsPerStep, steps, seed)[e * rows..e * rows + rows];
            w == EpochOrder(rows, seed, e) && Permutation(w, rows)
  {
    hide EpochOrder, Permutation;
    EpochPermutes(rows, seed, e);
    var s := Order(rows, rowsPerStep, steps, seed);
    forall k | 0 <= k < rows ensures s[e * rows + k] == EpochOrder(rows, seed, e)[k] {
      DivUnique(e * rows + k, rows, e, k);
    }
    assert s[e * rows..e * rows + rows] == EpochOrder(rows, seed, e);
  }

  /** A run that stops early read the start of the longer run's schedule. */
  lemma ShorterIsPrefix(rows: int, rowsPerStep: nat, steps: nat, more: nat, seed: int)
    requires steps <= more
    ensures Order(rows, rowsPerStep, steps, seed) <= Order(rows, rowsPerStep, more, seed)
  {
    hide RowAt;
    MulLe(steps, more, rowsPerStep);
  }

  // ---- How many steps ----

  function Max(a: int, b: int): int { if a < b then b else a }

  function TotalSteps(maxSteps: int, epochs: int, rows: nat, rowsPerStep: int): int {
    if maxSteps > 0 then maxSteps else
    var perStep := Max(1, rowsPerStep);
    Max(1, (Max(1, epochs) * rows + perStep - 1) / perStep)
  }

  /** A limit is kept as it is; fewer than one row in a step counts as one; and there is always a step. */
  lemma TotalStepsIs(maxSteps: int, epochs: int, rows: nat, rowsPerStep: int)
    ensures TotalSteps(maxSteps, epochs, rows, rowsPerStep) ==
            if maxSteps > 0 then maxSteps else TotalSteps(0, epochs, rows, rowsPerStep)
    ensures rowsPerStep < 1 ==> TotalSteps(0, epochs, rows, rowsPerStep) == TotalSteps(0, epochs, rows, 1)
    ensures epochs < 1 ==> TotalSteps(0, epochs, rows, rowsPerStep) == TotalSteps(0, 1, rows, rowsPerStep)
    ensures TotalSteps(0, epochs, 0, rowsPerStep) == 1
  {
    DivMod(Max(1, rowsPerStep) - 1, Max(1, rowsPerStep));
    DivUnique(Max(1, rowsPerStep) - 1, Max(1, rowsPerStep), 0, Max(1, rowsPerStep) - 1);
    assert Max(1, epochs) * 0 == 0;
  }

  /** Without a limit of its own, the run is as many whole steps as the epochs need, and no more. */
  lemma StepsCoverEpochs(epochs: int, rows: nat, rowsPerStep: nat)
    requires rows > 0 && rowsPerStep > 0
    ensures var steps, need := TotalSteps(0, epochs, rows, rowsPerStep), Max(1, epochs) * rows;
            steps >= 1 && (steps - 1) * rowsPerStep < need <= steps * rowsPerStep
  {
    var need := Max(1, epochs) * rows;
    MulLe(1, Max(1, epochs), rows);
    var q := (need + rowsPerStep - 1) / rowsPerStep;
    DivMod(need + rowsPerStep - 1, rowsPerStep);
    MulNext(q - 1, rowsPerStep);
    if q < 1 { MulLe(q, 0, rowsPerStep); }
  }

  lemma CountSplit(s: seq<nat>, a: nat, n: nat, r: nat)
    requires a + n <= |s|
    ensures multiset(s[..a + n])[r] == multiset(s[..a])[r] + multiset(s[a..a + n])[r]
  {
    assert s[..a + n] == s[..a] + s[a..a + n];
  }

  lemma CountOne(s: seq<nat>, n: nat, r: nat)
    requires Permutation(s, n) && r < n
    ensures multiset(s)[r] == 1
  {
    IdentityCount(n, r);
  }

  /** The first e windows hold each row e times. */
  lemma {:induction false} CountInWindows(rows: nat, rowsPerStep: nat, steps: nat, seed: int, e: nat, r: nat)
    requires r < rows && e * rows <= rowsPerStep * steps
    ensures multiset(Order(rows, rowsPerStep, steps, seed)[..e * rows])[r] == e
    decreases e
  {
    hide Order, EpochOrder, Permutation;
    var s := Order(rows, rowsPerStep, steps, seed);
    if e == 0 {
      assert s[..0] == [];
    } else {
      MulNext(e - 1, rows);
      CountInWindows(rows, rowsPerStep, steps, seed, e - 1, r);
      WindowPermutes(rows, rowsPerStep, steps, seed, e - 1);
      var a := (e - 1) * rows;
      CountSplit(s, a, rows, r);
      CountOne(s[a..a + rows], rows, r);
    }
  }

  /** A run over whole epochs trains on every row at least once per epoch. */
  lemma EveryRowTrained(epochs: int, rows: nat, rowsPerStep: nat, seed: int, r: nat)
    requires r < rows && rowsPerStep > 0
    ensures var steps := TotalSteps(0, epochs, rows, rowsPerStep);
            steps >= 1 && multiset(Order(rows, rowsPerStep, steps, seed))[r] >= Max(1, epochs)
  {
    hide Order, TotalSteps;
    StepsCoverEpochs(epochs, rows, rowsPerStep);
    var steps: nat := TotalSteps(0, epochs, rows, rowsPerStep);
    var e: nat := Max(1, epochs);
    CountInWindows(rows, rowsPerStep, steps, seed, e, r);
    var s := Order(rows, rowsPerStep, steps, seed);
    assert s == s[..e * rows] + s[e * rows..];
  }
}
