/** `calculateTotals`: income, expense and balance of a list of records. */
module Aggregate {
  import opened Sums
  import opened Records

  datatype Totals = Totals(income: real, expense: real, balance: real)

  /** Income is the total of the income records, expense the total of the
      expense records, and the balance their difference. */
  function CalculateTotals(ts: seq<Transaction>): (r: Totals)
    ensures r.balance == r.income - r.expense
  {
    var income := Total(OfKind(ts, Income));
    var expense := Total(OfKind(ts, Expense));
    Totals(income, expense, income - expense)
  }

  /** The typed sums of one record: its amount lands in the field its type selects. */
  lemma TotalsSingle(t: Transaction)
    ensures CalculateTotals([t]).income == (if t.kind == Income then t.amount else 0.0)
    ensures CalculateTotals([t]).expense == (if t.kind == Expense then t.amount else 0.0)
  {
    FilterSingle(t, IsKind(Income));
    FilterSingle(t, IsKind(Expense));
    TotalSingle(t);
  }

  /** An empty list has all totals zero. */
  lemma TotalsEmpty()
    ensures CalculateTotals([]) == Totals(0.0, 0.0, 0.0)
  {
  }

  /** Income and expense are additive over concatenation. */
  lemma TotalsConcat(a: seq<Transaction>, b: seq<Transaction>)
    ensures CalculateTotals(a + b).income == CalculateTotals(a).income + CalculateTotals(b).income
    ensures CalculateTotals(a + b).expense == CalculateTotals(a).expense + CalculateTotals(b).expense
    ensures CalculateTotals(a + b).balance == CalculateTotals(a).balance + CalculateTotals(b).balance
  {
    FilterConcat(a, b, IsKind(Income));
    FilterConcat(a, b, IsKind(Expense));
    TotalConcat(OfKind(a, Income), OfKind(b, Income));
    TotalConcat(OfKind(a, Expense), OfKind(b, Expense));
  }

  /** The predicate `t => !p(t)`. */
  function Not(p: Transaction -> bool): Transaction -> bool
  {
    (t: Transaction) => !p(t)
  }

  /** Splitting the records by any predicate splits each type's total between
      the two parts. */
  lemma {:induction false} TotalsPartition(ts: seq<Transaction>, p: Transaction -> bool, kind: Kind)
    ensures Total(OfKind(Filter(ts, p), kind)) + Total(OfKind(Filter(ts, Not(p)), kind))
            == Total(OfKind(ts, kind))
  {
    if |ts| > 0 {
      var t, rest := ts[0], ts[1..];
      assert ts == [t] + rest;
      TotalsPartition(rest, p, kind);
      var yes := if p(t) then [t] else [];
      var no := if Not(p)(t) then [t] else [];
      TotalsConcat(yes, Filter(rest, p));
      TotalsConcat(no, Filter(rest, Not(p)));
      TotalsConcat([t], rest);
      TotalsSingle(t);
    }
  }

  /** Income plus expense accounts for every record's amount. */
  lemma {:induction false} IncomePlusExpense(ts: seq<Transaction>)
    ensures CalculateTotals(ts).income + CalculateTotals(ts).expense == Total(ts)
  {
    if |ts| > 0 {
      var t, rest := ts[0], ts[1..];
      assert ts == [t] + rest;
      IncomePlusExpense(rest);
      TotalsConcat([t], rest);
      TotalConcat([t], rest);
      TotalsSingle(t);
      TotalSingle(t);
    }
  }
}
