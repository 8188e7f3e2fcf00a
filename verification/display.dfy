/** The sign rules of the dashboard and the history list: the only logic of
    `updateUI`, `updateMonthlySummary` and `updateTransactionHistory` that is not
    markup. */
module Display {
  import opened Sums
  import opened Records
  import opened Aggregate
  import opened Grouping
  import opened Reports

  /** The balance card gets the `negative` class. */
  function BalanceIsNegative(balance: real): (negative: bool)
    ensures negative <==> !NetIsPositive(balance)
  {
    balance < 0.0
  }

  /** A month's net is printed in the positive colour. */
  function NetIsPositive(net: real): (positive: bool)
    ensures net == 0.0 ==> positive
  {
    net >= 0.0
  }

  /** The sign in front of a history row's amount. */
  function SignPrefix(t: Transaction): (p: string)
    ensures t.kind == Income ==> p == "+"
    ensures t.kind == Expense ==> p == "-"
  {
    if t.kind == Income then "+" else "-"
  }

  /** The amount each history row shows, with its printed sign applied. */
  function Signed(ts: seq<Transaction>): (xs: seq<real>)
    ensures |xs| == |ts|
  {
    seq(|ts|, i requires 0 <= i < |ts| => if SignPrefix(ts[i]) == "+" then ts[i].amount else -ts[i].amount)
  }

  /** Appending a record appends its signed amount. */
  lemma SignedSnoc(init: seq<Transaction>, t: Transaction)
    ensures Sum(Signed(init + [t])) == Sum(Signed(init)) + (if t.kind == Income then t.amount else -t.amount)
  {
    var xs := Signed(init + [t]);
    var n := |init|;
    assert xs[..n] == Signed(init);
    assert xs[n] == (if t.kind == Income then t.amount else -t.amount);
  }

  /** The signed amounts of the history add up to the balance. */
  lemma {:induction false} SignedSumIsBalance(ts: seq<Transaction>)
    ensures Sum(Signed(ts)) == CalculateTotals(ts).balance
  {
    if |ts| > 0 {
      var n := |ts| - 1;
      var init, t := ts[..n], ts[n];
      assert ts == init + [t];
      SignedSumIsBalance(init);
      SignedSnoc(init, t);
      TotalsConcat(init, [t]);
      TotalsSingle(t);
    }
  }

  /** The balance card is flagged negative exactly when the signed amounts of
      the history add up to less than zero, that is, when expense exceeds income. */
  lemma BalanceFlag(ts: seq<Transaction>)
    ensures BalanceIsNegative(CalculateTotals(ts).balance) <==> Sum(Signed(ts)) < 0.0
    ensures BalanceIsNegative(CalculateTotals(ts).balance) <==> CalculateTotals(ts).expense > CalculateTotals(ts).income
  {
    SignedSumIsBalance(ts);
  }

  /** A month's net is shown in the positive colour exactly when the signed
      amounts of that month's records add up to zero or more. */
  lemma MonthColour(ts: seq<Transaction>, monthOf: string -> string)
    ensures var rows := MonthlySummary(ts, monthOf);
            forall i :: 0 <= i < |rows| ==>
              (NetIsPositive(rows[i].net) <==> Sum(Signed(Filter(ts, HasKey(ByMonth(monthOf), rows[i].month)))) >= 0.0)
  {
    var rows := MonthlySummary(ts, monthOf);
    SummarySums(ts, monthOf);
    forall i | 0 <= i < |rows|
      ensures rows[i].net == Sum(Signed(Filter(ts, HasKey(ByMonth(monthOf), rows[i].month))))
    {
      SignedSumIsBalance(Filter(ts, HasKey(ByMonth(monthOf), rows[i].month)));
    }
  }
}
