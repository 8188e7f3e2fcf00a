/** Worked examples of the ledger and the aggregates, written as lemmas. */
module Scenarios {
  import opened Records
  import opened Aggregate
  import opened Grouping
  import opened Reports
  import opened Ledger

  /** An empty ledger: zero totals, no chart rows, no months. */
  lemma EmptyLedger(monthOf: string -> string)
    ensures CalculateTotals(Initial.transactions) == Totals(0.0, 0.0, 0.0)
    ensures CategoryBreakdown(Initial.transactions) == []
    ensures MonthlySummary(Initial.transactions, monthOf) == []
  {
  }

  /** One 12.50 lunch expense: expense 12.50, balance -12.50, and a single food
      row holding 100 percent. */
  lemma SingleLunch(id: int, date: string)
    ensures var r := Add(Initial, AddRequest("Lunch", Num(12.5), "food", Expense), id, date);
            && r.status == Added
            && CalculateTotals(r.state.transactions).expense == 12.5
            && CalculateTotals(r.state.transactions).balance == -12.5
            && CategoryBreakdown(r.state.transactions) == [CategoryRow("food", 12.5, Percent(100.0))]
  {
    var r := Add(Initial, AddRequest("Lunch", Num(12.5), "food", Expense), id, date);
    var t := Transaction(id, "Lunch", 12.5, "food", Expense, date);
    assert r.state.transactions == [t];
    TotalsSingle(t);
    FilterSingle(t, IsKind(Expense));
    assert GroupBy([t], ByCategory) == Insert(GroupBy([t][..0], ByCategory), "food", t);
    assert [t][..0] == [];
    assert Keys([]) == [];
  }

  /** Salary of 1000, then a 300 expense: the balance is 700. */
  lemma SalaryThenRent(id1: int, id2: int, d1: string, d2: string)
    ensures var r1 := Add(Initial, AddRequest("Salary", Num(1000.0), "salary", Income), id1, d1);
            var r2 := Add(r1.state, AddRequest("Rent", Num(300.0), "bills", Expense), id2, d2);
            CalculateTotals(r2.state.transactions).balance == 700.0
  {
    var a := Transaction(id1, "Salary", 1000.0, "salary", Income, d1);
    var b := Transaction(id2, "Rent", 300.0, "bills", Expense, d2);
    var r1 := Add(Initial, AddRequest("Salary", Num(1000.0), "salary", Income), id1, d1);
    var r2 := Add(r1.state, AddRequest("Rent", Num(300.0), "bills", Expense), id2, d2);
    assert r1.state.transactions == [a];
    assert r2.state.transactions == [b] + [a];
    TotalsConcat([b], [a]);
    TotalsSingle(a);
    TotalsSingle(b);
  }

  /** Records from seven distinct months: only six months are shown. */
  lemma SevenMonths(ts: seq<Transaction>, monthOf: string -> string)
    requires |MonthsOf(ts, monthOf)| == 7
    ensures |MonthlySummary(ts, monthOf)| == 6
  {
    SummaryLength(ts, monthOf);
  }

  /** Switching to an unknown code is accepted; the code then has no symbol. */
  lemma UnknownCurrencyAccepted(s: State)
    ensures ChangeCurrency(s, "XYZ").currency == "XYZ"
    ensures ChangeCurrency(s, "EUR").currency == "EUR"
    ensures Catalog.Symbol(ChangeCurrency(s, "XYZ").currency).None?
  {
  }
}
