/** The writer's multi-row INSERT and its renumbering for PostgreSQL: the j-th placeholder must name the j-th argument. */
module Placeholders {
  import opened Arithmetic
  import opened Basics

  const COLUMNS := 6
  const PREFIX := "INSERT INTO analytics_events " + ("(ts, anonymous_id, user_id, " + "event, props, context) VALUES ")

  /** strconv.Itoa on a count. */
  function Decimal(n: nat): string {
    if n < 10 then [['0', '1', '2', '3', '4', '5', '6', '7', '8', '9'][n]] else Decimal(n / 10) + Decimal(n % 10)
  }

  function Pow10(n: nat): (p: nat)
    ensures p > 0
  {
    if n == 0 then 1 else 10 * Pow10(n - 1)
  }

  /** As many digits as the number needs, the last one that of the units. */
  lemma {:induction false} DecimalIs(n: nat)
    ensures |Decimal(n)| > 0 && n < Pow10(|Decimal(n)|) && (n >= 10 ==> Pow10(|Decimal(n)| - 1) <= n)
    ensures n < 10 ==> |Decimal(n)| == 1
  {
    if n >= 10 {
      DecimalIs(n / 10);
      assert |Decimal(n)| == |Decimal(n / 10)| + 1;
    }
  }

  lemma {:induction false} DecimalAt(n: nat, k: nat)
    requires k < |Decimal(n)|
    ensures Decimal(n)[|Decimal(n)| - 1 - k] as int == '0' as int + n / Pow10(k) % 10
  {
    LastDigit(n);
    if k > 0 {
      hide Decimal;
      DecimalAt(n / 10, k - 1);
      DivDiv(n, Pow10(k - 1), 10);
    } else {
      assert Pow10(0) == 1;
    }
  }

  /** The last digit, behind the digits of n / 10 if there are more. */
  lemma LastDigit(n: nat)
    ensures var d := Decimal(n);
            |d| > 0 && d[|d| - 1] as int == '0' as int + n % 10 && (|d| > 1 ==> d[..|d| - 1] == Decimal(n / 10))
  {
    OneDigit(n % 10);
    if n >= 10 {
      hide Decimal;
      DecimalIs(n / 10);
      MoreDigits(n);
    }
  }

  lemma OneDigit(n: nat)
    requires n < 10
    ensures |Decimal(n)| == 1 && Decimal(n)[0] as int == '0' as int + n
  {}

  lemma MoreDigits(n: nat)
    requires n >= 10
    ensures Decimal(n) == Decimal(n / 10) + Decimal(n % 10)
  {}

  // ---- Renumbering ----

  function Marks(s: string): nat {
    if s == "" then 0 else Marks(s[..|s| - 1]) + if s[|s| - 1] == '?' then 1 else 0
  }

  /** The n-th '?' becomes $n, counting from after n0. */
  function Renumbered(s: string, n0: nat): string {
    if s == "" then "" else
    var rest, c := s[..|s| - 1], s[|s| - 1];
    Renumbered(rest, n0) + Mark(c, n0 + Marks(rest))
  }

  /** A question mark behind n others gets its number; any other character stays. */
  function Mark(c: char, n: nat): string { if c == '?' then "$" + Decimal(n + 1) else [c] }

  lemma RenumberedLast(s: string, n0: nat)
    requires s != ""
    ensures var rest, c := s[..|s| - 1], s[|s| - 1];
            Marks(s) == Marks(rest) + (if c == '?' then 1 else 0)
            && Renumbered(s, n0) == Renumbered(rest, n0) + Mark(c, n0 + Marks(rest))
  {
    hide Mark;
  }

  lemma RenumberedNext(s: string, i: nat)
    requires i < |s|
    ensures Marks(s[..i + 1]) == Marks(s[..i]) + if s[i] == '?' then 1 else 0
    ensures Renumbered(s[..i + 1], 0) == Renumbered(s[..i], 0) + Mark(s[i], Marks(s[..i]))
  {
    hide Mark, Renumbered, Marks;
    RenumberedLast(s[..i + 1], 0);
    assert s[..i + 1][..i] == s[..i];
  }

  lemma NoneNumbered(n0: nat)
    ensures Marks("") == 0 && Renumbered("", n0) == ""
  {}

  method QFor(driver: string, sql: string) returns (out: string)
    ensures out == if driver != "pgx" then sql else Renumbered(sql, 0)
  {
    if driver != "pgx" { return sql; }
    out := "";
    var n := 0;
    NoneNumbered(0);
    assert sql[..0] == "";
    hide Renumbered, Marks, Decimal;
    for i := 0 to |sql|
      invariant n == Marks(sql[..i]) && out == Renumbered(sql[..i], 0)
    {
      RenumberedNext(sql, i);
      if sql[i] == '?' {
        n := n + 1;
        Associates(out, "$", Decimal(n));
        out := out + "$" + Decimal(n);
      } else {
        out := out + [sql[i]];
      }
    }
    assert sql[..|sql|] == sql;
  }

  lemma {:induction false} RenumberedConcat(a: string, b: string, n0: nat)
    ensures Marks(a + b) == Marks(a) + Marks(b)
    ensures Renumbered(a + b, n0) == Renumbered(a, n0) + Renumbered(b, n0 + Marks(a))
    decreases |b|
  {
    hide Renumbered, Marks, Mark;
    if b == "" {
      assert a + b == a && Renumbered(a, n0) + "" == Renumbered(a, n0);
      NoneNumbered(n0 + Marks(a));
    } else {
      var c, x := b[..|b| - 1], b[|b| - 1];
      RenumberedConcat(a, c, n0);
      RenumberedLast(b, n0 + Marks(a));
      LastOfConcat(a, b, n0);
      Associates(Renumbered(a, n0), Renumbered(c, n0 + Marks(a)), Mark(x, n0 + Marks(a) + Marks(c)));
    }
  }

  lemma LastOfConcat(a: string, b: string, n0: nat)
    requires b != ""
    ensures var c, x := b[..|b| - 1], b[|b| - 1];
            Marks(a + b) == Marks(a + c) + (if x == '?' then 1 else 0)
            && Renumbered(a + b, n0) == Renumbered(a + c, n0) + Mark(x, n0 + Marks(a + c))
  {
    hide Renumbered, Marks, Mark;
    RenumberedLast(a + b, n0);
    assert (a + b)[..|a + b| - 1] == a + b[..|b| - 1];
  }

  lemma {:induction false} NothingToNumber(s: string, n0: nat)
    requires Unmarked(s)
    ensures Marks(s) == 0 && Renumbered(s, n0) == s
    decreases |s|
  {
    if s != "" {
      NothingToNumber(s[..|s| - 1], n0);
      assert s == s[..|s| - 1] + [s[|s| - 1]];
    }
  }

  // ---- The statement ----

  const MARKS := "(?,?,?,?,?,?)"

  /** The text before renumbering, with k rows. */
  function InsertText(k: nat): string {
    if k == 0 then PREFIX
    else if k == 1 then PREFIX + MARKS
    else InsertText(k - 1) + ("," + MARKS)
  }

  /** Two parameters, $n+1 and $n+2. */
  function TwoText(n: nat, close: char): string { "$" + Decimal(n + 1) + "," + ("$" + Decimal(n + 2) + [close]) }

  /** Row i of the statement PostgreSQL must see: its six parameters are 6i + 1 to 6i + 6. */
  function RowText(i: nat): string {
    var n := COLUMNS * i;
    "(" + (TwoText(n, ',') + (TwoText(n + 2, ',') + TwoText(n + 4, ')')))
  }

  function PgText(k: nat): string {
    if k == 0 then PREFIX
    else if k == 1 then PREFIX + RowText(0)
    else PgText(k - 1) + ("," + RowText(k - 1))
  }

  lemma RenumberedChar(c: char, n0: nat)
    ensures Marks([c]) == if c == '?' then 1 else 0
    ensures Renumbered([c], n0) == if c == '?' then "$" + Decimal(n0 + 1) else [c]
  {
    assert [c][..0] == "";
    assert Renumbered([c][..0], n0) == "";
  }

  /** "?," or "?)" and the like: one placeholder, then one character. */
  lemma RenumberedPair(d: char, n0: nat)
    requires d != '?'
    ensures Marks(['?', d]) == 1
    ensures Renumbered(['?', d], n0) == "$" + Decimal(n0 + 1) + [d]
  {
    hide Renumbered, Marks;
    RenumberedConcat(['?'], [d], n0);
    RenumberedChar('?', n0);
    RenumberedChar(d, n0 + 1);
    assert ['?', d] == ['?'] + [d];
  }

  lemma RenumberedTwo(n0: nat, close: char)
    requires close != '?'
    ensures Marks("?," + ['?', close]) == 2 && Renumbered("?," + ['?', close], n0) == TwoText(n0, close)
  {
    hide Renumbered, Marks, Decimal;
    RenumberedPair(',', n0);
    RenumberedPair(close, n0 + 1);
    RenumberedConcat("?,", ['?', close], n0);
  }

  lemma RenumberedRow(i: nat)
    ensures Marks(MARKS) == COLUMNS && Renumbered(MARKS, COLUMNS * i) == RowText(i)
  {
    hide Renumbered, Marks, Decimal, TwoText;
    var n := COLUMNS * i;
    RenumberedChar('(', n);
    RenumberedTwo(n, ',');
    RenumberedTwo(n + 2, ',');
    RenumberedTwo(n + 4, ')');
    var more, last := "?," + ['?', ','], "?," + ['?', ')'];
    assert MARKS == "(" + (more + (more + last));
    RenumberedConcat(more, last, n + 2);
    RenumberedConcat(more, more + last, n);
    RenumberedConcat("(", more + (more + last), n);
  }

  predicate Unmarked(s: string) { forall i :: 0 <= i < |s| ==> s[i] != '?' }

  lemma PrefixUnmarked()
    ensures Unmarked(PREFIX)
  {
    var a, b, c := "INSERT INTO analytics_events ", "(ts, anonymous_id, user_id, ", "event, props, context) VALUES ";
    assert Unmarked(a) && Unmarked(b) && Unmarked(c);
    assert Unmarked(b + c) && PREFIX == a + (b + c);
  }

  lemma {:induction false} RenumberedInsert(k: nat)
    ensures Marks(InsertText(k)) == COLUMNS * k && Renumbered(InsertText(k), 0) == PgText(k)
  {
    hide Renumbered, Marks, RowText;
    PrefixUnmarked();
    NothingToNumber(PREFIX, 0);
    if k == 1 {
      RenumberedRow(0);
      RenumberedConcat(PREFIX, MARKS, 0);
    } else if k > 1 {
      RenumberedInsert(k - 1);
      RenumberedRow(k - 1);
      RenumberedChar(',', COLUMNS * (k - 1));
      RenumberedConcat(",", MARKS, COLUMNS * (k - 1));
      RenumberedConcat(InsertText(k - 1), "," + MARKS, 0);
    }
  }

  // ---- The statement and its arguments ----

  datatype Row<V> = Row(ts: V, anonId: V, userId: V, event: V, props: V, context: V)

  /** A row's value in a column, as the column list of the statement orders them. */
  function Column<V>(r: Row<V>, c: nat): V
    requires c < COLUMNS
  {
    if c == 0 then r.ts else if c == 1 then r.anonId else if c == 2 then r.userId
    else if c == 3 then r.event else if c == 4 then r.props else r.context
  }

  /** For PostgreSQL, row i column c is written $p and bound to the p-th argument, p = 6i + c + 1; there are no others. */
  method InsertStatement<V>(driver: string, batch: seq<Row<V>>) returns (sql: string, args: seq<V>)
    ensures sql == if driver == "pgx" then PgText(|batch|) else InsertText(|batch|)
    ensures |args| == COLUMNS * |batch|
    ensures forall i, c :: 0 <= i < |batch| && 0 <= c < COLUMNS ==> args[COLUMNS * i + c] == Column(batch[i], c)
    ensures forall i :: 0 <= i < |batch| ==> RowBound(args, batch, i)
  {
    hide PgText;
    var b := PREFIX;
    args := [];
    for i := 0 to |batch|
      invariant b == InsertText(i) && |args| == COLUMNS * i
      invariant forall k, c :: 0 <= k < i && 0 <= c < COLUMNS ==> args[COLUMNS * k + c] == Column(batch[k], c)
    {
      if i > 0 { b := b + ","; }
      b := b + MARKS;
      var r := batch[i];
      args := args + [r.ts, r.anonId, r.userId, r.event, r.props, r.context];
    }
    sql := QFor(driver, b);
    RenumberedInsert(|batch|);
    forall i | 0 <= i < |batch| ensures RowBound(args, batch, i) { InColumns(args, batch, i); }
  }

  /** The six arguments of row i. */
  ghost predicate RowBound<V>(args: seq<V>, batch: seq<Row<V>>, i: nat)
    requires i < |batch| && |args| == COLUMNS * |batch|
  {
    var r, a := batch[i], COLUMNS * i;
    args[a] == r.ts && args[a + 1] == r.anonId && args[a + 2] == r.userId && args[a + 3] == r.event
    && args[a + 4] == r.props && args[a + 5] == r.context
  }

  lemma InColumns<V>(args: seq<V>, batch: seq<Row<V>>, i: nat)
    requires i < |batch| && |args| == COLUMNS * |batch|
    requires forall c :: 0 <= c < COLUMNS ==> args[COLUMNS * i + c] == Column(batch[i], c)
    ensures RowBound(args, batch, i)
  {
    var r := batch[i];
    assert Column(r, 0) == r.ts && Column(r, 1) == r.anonId && Column(r, 2) == r.userId;
    assert Column(r, 3) == r.event && Column(r, 4) == r.props && Column(r, 5) == r.context;
  }
}
