/** What the store's queries and the statistics compute, stated once over a
    list of transactions: which transactions a query looks at (a `Window`),
    which kinds it adds up (a `Side`), the sum it forms (`Total`, `Net`) and the
    order-preserving selection a filter returns (`Select`). */
module Ledger {
  import opened Timestamps
  import opened Transactions

  /** Which kinds a sum takes in. The source tests `== INCOME` and lets every
      other code fall to the `else` branch (NonIncome), except the expense
      breakdown, which tests `== EXPENSE` (ExpenseOnly). */
  datatype Side = AnyKind | IncomeOnly | NonIncome | ExpenseOnly

  predicate OnSide(t: Transaction, side: Side) {
    match side
    case AnyKind => true
    case IncomeOnly => t.kind == INCOME
    case NonIncome => t.kind != INCOME
    case ExpenseOnly => t.kind == EXPENSE
  }

  /** `isTransactionInMonth`: the timestamp's calendar month and year. Only a
      month of a real year (not year 0, the null date's) holds valid
      timestamps, and every such month lies in 1..12. */
  predicate IsTransactionInMonth(t: Transaction, month: int, year: int)
    ensures IsTransactionInMonth(t, month, year) ==> DateOf(t.timestamp).year == year
    ensures IsTransactionInMonth(t, month, year) && year != 0 ==> t.timestamp.At? && 1 <= month <= 12
  {
    DateOf(t.timestamp).month == month && DateOf(t.timestamp).year == year
  }

  /** `isTransactionInYear`: the timestamp's calendar year. A transaction in a
      year other than 0 has a valid timestamp and so lies in one of its twelve
      months. */
  predicate IsTransactionInYear(t: Transaction, year: int)
    ensures IsTransactionInYear(t, year) && year != 0 ==>
      t.timestamp.At? && 1 <= DateOf(t.timestamp).month <= 12
  {
    DateOf(t.timestamp).year == year
  }

  /** The transactions a query looks at. */
  datatype Window =
    | Everything
    | Between(start: Timestamp, end: Timestamp)
    | AmountBetween(min: real, max: real)
    | InCategory(category: string)
    | InMonth(month: int, year: int)
    | InYear(year: int)
    | OnDay(start: Timestamp, end: Timestamp, date: Date)

  predicate InWindow(t: Transaction, w: Window) {
    match w
    case Everything => true
    case Between(start, end) => Le(start, t.timestamp) && Le(t.timestamp, end)
    case AmountBetween(min, max) => min <= t.amount <= max
    case InCategory(c) => t.category == c
    case InMonth(month, year) => IsTransactionInMonth(t, month, year)
    case InYear(year) => IsTransactionInYear(t, year)
    case OnDay(start, end, date) =>
      Le(start, t.timestamp) && Le(t.timestamp, end) && DateOf(t.timestamp) == date
  }

  /** What one transaction adds to a sum. */
  function Share(t: Transaction, w: Window, side: Side): real {
    if InWindow(t, w) && OnSide(t, side) then t.amount else 0.0
  }

  /** The sum of the amounts of the transactions in the window, on the side. */
  function Total(s: seq<Transaction>, w: Window, side: Side): real {
    if s == [] then 0.0 else Total(s[..|s| - 1], w, side) + Share(s[|s| - 1], w, side)
  }

  /** Income added, every other kind subtracted: the balance of the window. */
  function Net(s: seq<Transaction>, w: Window): real {
    Total(s, w, IncomeOnly) - Total(s, w, NonIncome)
  }

  /** What one transaction adds to the balance. */
  function Signed(t: Transaction): real {
    if t.kind == INCOME then t.amount else -t.amount
  }

  /** The transactions in the window, in their original order. */
  function Select(s: seq<Transaction>, w: Window): (r: seq<Transaction>)
    ensures |r| <= |s|
    ensures forall i :: 0 <= i < |r| ==> InWindow(r[i], w)
  {
    if s == [] then []
    else Select(s[..|s| - 1], w) + (if InWindow(s[|s| - 1], w) then [s[|s| - 1]] else [])
  }

  /** `a` is `b` with some elements left out, the others kept in order. */
  ghost predicate SubsequenceOf<T>(a: seq<T>, b: seq<T>)
    decreases |b|
  {
    if a == [] then true
    else if b == [] then false
    else (a[|a| - 1] == b[|b| - 1] && SubsequenceOf(a[..|a| - 1], b[..|b| - 1]))
         || SubsequenceOf(a, b[..|b| - 1])
  }

  // ---------------------------------------------------------------------------
  // Sums

  lemma TotalSnoc(s: seq<Transaction>, t: Transaction, w: Window, side: Side)
    ensures Total(s + [t], w, side) == Total(s, w, side) + Share(t, w, side)
  {
    assert (s + [t])[..|s|] == s;
  }

  /** Sums over a concatenation add up. */
  lemma {:induction false} TotalConcat(a: seq<Transaction>, b: seq<Transaction>, w: Window, side: Side)
    ensures Total(a + b, w, side) == Total(a, w, side) + Total(b, w, side)
    decreases |b|
  {
    if b == [] {
      assert a + b == a;
    } else {
      var b', x := b[..|b| - 1], b[|b| - 1];
      assert a + b == (a + b') + [x];
      assert b == b' + [x];
      TotalConcat(a, b', w, side);
      TotalSnoc(a + b', x, w, side);
      TotalSnoc(b', x, w, side);
    }
  }

  /** Every transaction is either income or falls to the `else` branch, so the
      kind-blind sum is the income sum plus the non-income sum. */
  lemma {:induction false} TotalSplit(s: seq<Transaction>, w: Window)
    ensures Total(s, w, AnyKind) == Total(s, w, IncomeOnly) + Total(s, w, NonIncome)
  {
    if s != [] {
      TotalSplit(s[..|s| - 1], w);
    }
  }

  /** When every kind is INCOME or EXPENSE, "not income" and "expense" agree. */
  lemma {:induction false} TwoKinds(s: seq<Transaction>, w: Window)
    requires forall i :: 0 <= i < |s| ==> s[i].kind == INCOME || s[i].kind == EXPENSE
    ensures Total(s, w, NonIncome) == Total(s, w, ExpenseOnly)
    ensures Total(s, w, AnyKind) == Total(s, w, IncomeOnly) + Total(s, w, ExpenseOnly)
  {
    if s != [] {
      TwoKinds(s[..|s| - 1], w);
    }
    TotalSplit(s, w);
  }

  /** A window no transaction falls in sums to zero. */
  lemma {:induction false} TotalWithoutMatches(s: seq<Transaction>, w: Window, side: Side)
    requires forall i :: 0 <= i < |s| ==> !InWindow(s[i], w)
    ensures Total(s, w, side) == 0.0
  {
    if s != [] {
      TotalWithoutMatches(s[..|s| - 1], w, side);
    }
  }

  /** The magnitude total exceeds the balance by twice the non-income sum. */
  lemma TotalMinusBalance(s: seq<Transaction>)
    ensures Total(s, Everything, AnyKind) - Net(s, Everything) == 2.0 * Total(s, Everything, NonIncome)
  {
    TotalSplit(s, Everything);
  }

  /** The balance grows by each transaction's signed amount. */
  lemma {:induction false} NetConcat(a: seq<Transaction>, b: seq<Transaction>)
    ensures Net(a + b, Everything) == Net(a, Everything) + Net(b, Everything)
    ensures Net([], Everything) == 0.0
    ensures |b| == 1 ==> Net(b, Everything) == Signed(b[0])
  {
    TotalConcat(a, b, Everything, IncomeOnly);
    TotalConcat(a, b, Everything, NonIncome);
    if |b| == 1 {
      assert b[..0] == [];
    }
  }

  // ---------------------------------------------------------------------------
  // Selections

  /** A selection holds each transaction of the window exactly as often as the
      list does, and nothing else. */
  lemma {:induction false} SelectCount(s: seq<Transaction>, w: Window, x: Transaction)
    ensures multiset(Select(s, w))[x] == if InWindow(x, w) then multiset(s)[x] else 0
    ensures x in Select(s, w) <==> x in s && InWindow(x, w)
  {
    if s != [] {
      var p, y := s[..|s| - 1], s[|s| - 1];
      assert s == p + [y];
      SelectCount(p, w, x);
    }
  }

  /** A selection keeps the list's order. */
  lemma {:induction false} SelectSubsequence(s: seq<Transaction>, w: Window)
    ensures SubsequenceOf(Select(s, w), s)
  {
    if s != [] {
      var p, y := s[..|s| - 1], s[|s| - 1];
      SelectSubsequence(p, w);
      var r := Select(s, w);
      if InWindow(y, w) {
        assert r[..|r| - 1] == Select(p, w);
      } else {
        assert r == Select(p, w);
        SubsequenceDrop(r, p, y);
      }
    }
  }

  lemma SubsequenceDrop<T>(a: seq<T>, b: seq<T>, y: T)
    requires SubsequenceOf(a, b)
    ensures SubsequenceOf(a, b + [y])
  {
    assert (b + [y])[..|b|] == b;
  }

  /** Filtering a filtered list again changes nothing. */
  lemma {:induction false} SelectIdempotent(s: seq<Transaction>, w: Window)
    ensures Select(Select(s, w), w) == Select(s, w)
  {
    if s != [] {
      var p, y := s[..|s| - 1], s[|s| - 1];
      SelectIdempotent(p, w);
      var r := Select(s, w);
      if InWindow(y, w) {
        assert r == Select(p, w) + [y];
        assert r[..|r| - 1] == Select(p, w) && r[|r| - 1] == y;
        assert Select(r, w) == Select(Select(p, w), w) + [y];
      } else {
        assert r == Select(p, w);
      }
    }
  }

  /** Summing a selection is summing over its window. */
  lemma {:induction false} SelectTotal(s: seq<Transaction>, w: Window, side: Side)
    ensures Total(Select(s, w), Everything, side) == Total(s, w, side)
  {
    if s != [] {
      var p, y := s[..|s| - 1], s[|s| - 1];
      assert s == p + [y];
      SelectTotal(p, w, side);
      TotalSnoc(p, y, w, side);
      if InWindow(y, w) {
        assert Select(s, w) == Select(p, w) + [y];
        TotalSnoc(Select(p, w), y, Everything, side);
        assert Share(y, Everything, side) == Share(y, w, side);
      } else {
        assert Select(s, w) == Select(p, w);
        assert Share(y, w, side) == 0.0;
      }
    }
  }
}
