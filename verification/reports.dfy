/** The two grouped views of the dashboard: the expense breakdown by
    category and the per-month summary. */
module Reports {
  import opened Sums
  import opened Records
  import opened Aggregate
  import opened Grouping

  /** `(amount / totalExpense) * 100`. Dividing by a zero total yields a
      non-finite number (Infinity or NaN) in JavaScript. */
  datatype Share = Percent(value: real) | NotFinite

  /** One line of the category chart. */
  datatype CategoryRow = CategoryRow(category: string, amount: real, share: Share)

  /** The share of `amount` in `total`, in percent. */
  function ShareOf(amount: real, total: real): (s: Share)
    ensures s.Percent? <==> total != 0.0
    ensures s.Percent? ==> s.value * total == amount * 100.0
  {
    if total == 0.0 then NotFinite else Percent(amount / total * 100.0)
  }

  /** The key `t => t.category`. */
  const ByCategory: Transaction -> string := (t: Transaction) => t.category

  /** `updateCategoryChart` as `updateUI` calls it, with the expense total of
      `calculateTotals`: group the expense records by category in first-seen
      order, sum each group, and take each sum's share of the total. */
  function CategoryBreakdown(ts: seq<Transaction>): (rows: seq<CategoryRow>)
    ensures |rows| == |GroupBy(OfKind(ts, Expense), ByCategory)|
  {
    var total := CalculateTotals(ts).expense;
    var g := GroupBy(OfKind(ts, Expense), ByCategory);
    seq(|g|, i requires 0 <= i < |g| => CategoryRow(g[i].key, g[i].expense, ShareOf(g[i].expense, total)))
  }

  /** The categories of the chart, top to bottom. */
  function CategoriesOf(rows: seq<CategoryRow>): (cs: seq<string>)
    ensures |cs| == |rows|
    ensures forall i :: 0 <= i < |rows| ==> cs[i] == rows[i].category
  {
    seq(|rows|, i requires 0 <= i < |rows| => rows[i].category)
  }

  /** The amounts of the chart, top to bottom. */
  function AmountsOf(rows: seq<CategoryRow>): (xs: seq<real>)
    ensures |xs| == |rows|
    ensures forall i :: 0 <= i < |rows| ==> xs[i] == rows[i].amount
  {
    seq(|rows|, i requires 0 <= i < |rows| => rows[i].amount)
  }

  /** The percentages of the chart, top to bottom (zero for a non-finite one). */
  function PercentagesOf(rows: seq<CategoryRow>): (xs: seq<real>)
    ensures |xs| == |rows|
  {
    seq(|rows|, i requires 0 <= i < |rows| => if rows[i].share.Percent? then rows[i].share.value else 0.0)
  }

  /** A record is an expense record of `ts` exactly when it survives the type filter. */
  lemma ExpenseMembers(ts: seq<Transaction>)
    ensures forall t :: t in OfKind(ts, Expense) <==> t in ts && t.kind == Expense
  {
  }

  /** The chart shows its empty state exactly when there is no expense record;
      a zero expense total is not what decides it. */
  lemma BreakdownEmptyIff(ts: seq<Transaction>)
    ensures |CategoryBreakdown(ts)| == 0 <==> forall t :: t in ts ==> t.kind != Expense
  {
    var e := OfKind(ts, Expense);
    var g := GroupBy(e, ByCategory);
    ExpenseMembers(ts);
    if |e| > 0 {
      assert e[0] in e;
      assert Labels(e, ByCategory)[0] in Labels(e, ByCategory);
      assert Labels(e, ByCategory)[0] in Keys(g);
    }
  }

  /** Each category of an expense record appears exactly once, every row names
      such a category, and rows follow the order in which categories are first
      met in the newest-first list. */
  lemma BreakdownCategories(ts: seq<Transaction>)
    ensures var rows := CategoryBreakdown(ts);
            && NoDup(CategoriesOf(rows))
            && (forall t :: t in ts && t.kind == Expense ==> t.category in CategoriesOf(rows))
            && (forall c :: c in CategoriesOf(rows) ==> exists t :: t in ts && t.kind == Expense && t.category == c)
            && (forall i, j :: 0 <= i < j < |rows| ==>
                  FirstIndex(Labels(OfKind(ts, Expense), ByCategory), rows[i].category)
                  < FirstIndex(Labels(OfKind(ts, Expense), ByCategory), rows[j].category))
  {
    var e := OfKind(ts, Expense);
    var g := GroupBy(e, ByCategory);
    var rows := CategoryBreakdown(ts);
    var L := Labels(e, ByCategory);
    ExpenseMembers(ts);
    assert CategoriesOf(rows) == Keys(g);
    GroupByFirstSeen(e, ByCategory);
    forall t | t in ts && t.kind == Expense
      ensures t.category in CategoriesOf(rows)
    {
      var i :| 0 <= i < |e| && e[i] == t;
      assert L[i] == t.category;
    }
    forall c | c in CategoriesOf(rows)
      ensures exists t :: t in ts && t.kind == Expense && t.category == c
    {
      assert c in L;
      var i :| 0 <= i < |L| && L[i] == c;
      assert e[i] in e;
    }
  }

  /** Filters commute. */
  lemma {:induction false} FilterCommute(ts: seq<Transaction>, p: Transaction -> bool, q: Transaction -> bool)
    ensures Filter(Filter(ts, p), q) == Filter(Filter(ts, q), p)
  {
    if |ts| > 0 {
      var t, rest := ts[0], ts[1..];
      FilterCommute(rest, p, q);
      var hp := if p(t) then [t] else [];
      var hq := if q(t) then [t] else [];
      FilterConcat(hp, Filter(rest, p), q);
      FilterConcat(hq, Filter(rest, q), p);
      FilterSingle(t, p);
      FilterSingle(t, q);
    }
  }

  /** Summing a key's records of one type is the same whether or not the list
      was first narrowed to that type. */
  lemma SumForOfKind(ts: seq<Transaction>, key: Transaction -> string, k: string, kind: Kind)
    ensures SumFor(OfKind(ts, kind), key, k, kind) == SumFor(ts, key, k, kind)
  {
    var p, q := IsKind(kind), HasKey(key, k);
    FilterCommute(Filter(ts, p), q, p);
    FilterIdempotent(ts, p);
    FilterCommute(ts, p, q);
  }

  /** Each row's amount is the total of the expense records of its category. */
  lemma BreakdownAmounts(ts: seq<Transaction>)
    ensures var rows := CategoryBreakdown(ts);
            forall i :: 0 <= i < |rows| ==> rows[i].amount == SumFor(ts, ByCategory, rows[i].category, Expense)
  {
    var e := OfKind(ts, Expense);
    var g := GroupBy(e, ByCategory);
    GroupBySums(e, ByCategory);
    forall i | 0 <= i < |g|
      ensures g[i].expense == SumFor(ts, ByCategory, g[i].key, Expense)
    {
      assert g[i].Of(Expense) == SumFor(e, ByCategory, g[i].key, Expense);
      SumForOfKind(ts, ByCategory, g[i].key, Expense);
    }
  }

  /** The rows add up to the expense total of `calculateTotals`. */
  lemma BreakdownSumsToExpense(ts: seq<Transaction>)
    ensures Sum(AmountsOf(CategoryBreakdown(ts))) == CalculateTotals(ts).expense
  {
    var e := OfKind(ts, Expense);
    var g := GroupBy(e, ByCategory);
    GroupByTotal(e, ByCategory, Expense);
    FilterIdempotent(ts, IsKind(Expense));
    assert AmountsOf(CategoryBreakdown(ts)) == Column(g, Expense);
  }

  /** Income records have no effect on the chart. */
  lemma BreakdownIgnoresIncome(ts: seq<Transaction>)
    ensures CategoryBreakdown(OfKind(ts, Expense)) == CategoryBreakdown(ts)
  {
    FilterIdempotent(ts, IsKind(Expense));
  }

  /** Positive expense amounts, at least one of them, make a positive expense total. */
  lemma ExpenseTotalPositive(ts: seq<Transaction>)
    requires forall t :: t in ts && t.kind == Expense ==> t.amount > 0.0
    requires exists t :: t in ts && t.kind == Expense
    ensures CalculateTotals(ts).expense > 0.0
  {
    var e := OfKind(ts, Expense);
    ExpenseMembers(ts);
    var w :| w in ts && w.kind == Expense;
    assert w in e;
    forall i | 0 <= i < |e| ensures Amounts(e)[i] > 0.0 {
      assert e[i] in e;
    }
    SumPositive(Amounts(e));
  }

  /** Dividing by the total and multiplying by 100 is scaling by 100 / total. */
  lemma PercentIsScaling(amount: real, total: real)
    requires total != 0.0
    ensures amount / total * 100.0 == amount * (100.0 / total)
  {
  }

  /** Rows whose shares are all taken of one non-zero total have percentages
      that are the amounts scaled by 100 / total. */
  lemma RowsScale(rows: seq<CategoryRow>, total: real)
    requires total != 0.0
    requires forall i :: 0 <= i < |rows| ==> rows[i].share == ShareOf(rows[i].amount, total)
    ensures Sum(PercentagesOf(rows)) == Sum(AmountsOf(rows)) * (100.0 / total)
  {
    var c := 100.0 / total;
    forall i | 0 <= i < |rows|
      ensures PercentagesOf(rows)[i] == AmountsOf(rows)[i] * c
    {
      PercentIsScaling(rows[i].amount, total);
    }
    SumScale(AmountsOf(rows), PercentagesOf(rows), c);
  }

  /** Every share of the chart is taken of the expense total of `calculateTotals`. */
  lemma BreakdownShares(ts: seq<Transaction>)
    ensures var rows := CategoryBreakdown(ts);
            forall i :: 0 <= i < |rows| ==> rows[i].share == ShareOf(rows[i].amount, CalculateTotals(ts).expense)
  {
  }

  /** With a non-zero expense total, every share is finite and the percentages
      are the amounts scaled by 100 / total. */
  lemma PercentagesScale(ts: seq<Transaction>)
    requires CalculateTotals(ts).expense != 0.0
    ensures forall i :: 0 <= i < |CategoryBreakdown(ts)| ==> CategoryBreakdown(ts)[i].share.Percent?
    ensures Sum(PercentagesOf(CategoryBreakdown(ts)))
            == Sum(AmountsOf(CategoryBreakdown(ts))) * (100.0 / CalculateTotals(ts).expense)
  {
    BreakdownShares(ts);
    RowsScale(CategoryBreakdown(ts), CalculateTotals(ts).expense);
  }

  /** A total scaled by 100 over itself is 100. */
  lemma HundredPercent(percentages: real, amounts: real, total: real)
    requires total != 0.0
    requires amounts == total
    requires percentages == amounts * (100.0 / total)
    ensures percentages == 100.0
  {
  }

  /** Rows whose shares are taken over their own amounts' sum have finite
      shares that add up to 100. */
  lemma RowsSumToHundred(rows: seq<CategoryRow>, total: real)
    requires total != 0.0
    requires forall i :: 0 <= i < |rows| ==> rows[i].share == ShareOf(rows[i].amount, total)
    requires Sum(AmountsOf(rows)) == total
    ensures forall i :: 0 <= i < |rows| ==> rows[i].share.Percent?
    ensures Sum(PercentagesOf(rows)) == 100.0
  {
    RowsScale(rows, total);
    HundredPercent(Sum(PercentagesOf(rows)), Sum(AmountsOf(rows)), total);
  }

  /** When every expense amount is positive and there is at least one expense,
      every share is finite and the shares add up to 100. */
  lemma SharesSumToHundred(ts: seq<Transaction>)
    requires forall t :: t in ts && t.kind == Expense ==> t.amount > 0.0
    requires exists t :: t in ts && t.kind == Expense
    ensures forall i :: 0 <= i < |CategoryBreakdown(ts)| ==> CategoryBreakdown(ts)[i].share.Percent?
    ensures Sum(PercentagesOf(CategoryBreakdown(ts))) == 100.0
  {
    var rows, total := CategoryBreakdown(ts), CalculateTotals(ts).expense;
    assert total > 0.0 by { ExpenseTotalPositive(ts); }
    assert Sum(AmountsOf(rows)) == total by { BreakdownSumsToExpense(ts); }
    BreakdownShares(ts);
    RowsSumToHundred(rows, total);
  }

  /** With positive expense amounts, the chart's "No expenses yet" state is
      shown exactly when the expense total is zero. */
  lemma PositiveExpensesEmptyIff(ts: seq<Transaction>)
    requires forall t :: t in ts && t.kind == Expense ==> t.amount > 0.0
    ensures |CategoryBreakdown(ts)| == 0 <==> CalculateTotals(ts).expense == 0.0
  {
    BreakdownEmptyIff(ts);
    if exists t :: t in ts && t.kind == Expense {
      ExpenseTotalPositive(ts);
    } else {
      ExpenseMembers(ts);
      assert OfKind(ts, Expense) == [];
    }
  }

  /** Because negative amounts are accepted, two expenses can cancel: the chart
      then has rows while the total is zero, and every share is non-finite. */
  lemma CancellingExpensesGiveNonFiniteShares(a: Transaction, b: Transaction)
    requires a.kind == Expense && b.kind == Expense
    requires b.amount == -a.amount
    ensures |CategoryBreakdown([a, b])| > 0
    ensures forall i :: 0 <= i < |CategoryBreakdown([a, b])| ==> CategoryBreakdown([a, b])[i].share == NotFinite
  {
    assert [a, b] == [a] + [b];
    TotalsConcat([a], [b]);
    TotalsSingle(a);
    TotalsSingle(b);
    BreakdownEmptyIff([a, b]);
    assert a in [a, b];
  }

  /** One line of the monthly summary. */
  datatype MonthRow = MonthRow(month: string, income: real, expense: real, net: real)

  /** `Object.keys(months).slice(0, 6)`: at most this many months are shown. */
  const MaxMonths: nat := 6

  /** The key `t => monthLabel(t.date)`. */
  function ByMonth(monthOf: string -> string): Transaction -> string
  {
    (t: Transaction) => monthOf(t.date)
  }

  /** `updateMonthlySummary`: group every record by the month label of its
      date in first-seen order, keep the first `MaxMonths` groups, and derive
      each month's net. `monthOf` stands for the locale date formatting. */
  function MonthlySummary(ts: seq<Transaction>, monthOf: string -> string): (rows: seq<MonthRow>)
    ensures |rows| <= MaxMonths
  {
    var g := GroupBy(ts, ByMonth(monthOf));
    var kept := if |g| <= MaxMonths then g else g[..MaxMonths];
    seq(|kept|, i requires 0 <= i < |kept| =>
      MonthRow(kept[i].key, kept[i].income, kept[i].expense, kept[i].income - kept[i].expense))
  }

  /** The month labels of the summary, top to bottom. */
  function LabelsOf(rows: seq<MonthRow>): (ls: seq<string>)
    ensures |ls| == |rows|
    ensures forall i :: 0 <= i < |rows| ==> ls[i] == rows[i].month
  {
    seq(|rows|, i requires 0 <= i < |rows| => rows[i].month)
  }

  /** The summary rows are the first groups, in group order. */
  lemma SummaryPrefix(ts: seq<Transaction>, monthOf: string -> string)
    ensures var g := GroupBy(ts, ByMonth(monthOf));
            var rows := MonthlySummary(ts, monthOf);
            && |rows| == (if |g| <= MaxMonths then |g| else MaxMonths)
            && forall i :: 0 <= i < |rows| ==>
                 rows[i].month == g[i].key && rows[i].income == g[i].income && rows[i].expense == g[i].expense
  {
  }

  /** The month labels that occur in `ts`. */
  ghost function MonthsOf(ts: seq<Transaction>, monthOf: string -> string): set<string>
  {
    set t | t in ts :: monthOf(t.date)
  }

  /** The summary shows one row per distinct month, but never more than six. */
  lemma SummaryLength(ts: seq<Transaction>, monthOf: string -> string)
    ensures var months := MonthsOf(ts, monthOf);
            |MonthlySummary(ts, monthOf)| == if |months| < MaxMonths then |months| else MaxMonths
  {
    var key := ByMonth(monthOf);
    var g := GroupBy(ts, key);
    var L := Labels(ts, key);
    NoDupCard(Keys(g));
    forall k ensures k in (set k | k in Keys(g)) <==> k in MonthsOf(ts, monthOf) {
      if k in MonthsOf(ts, monthOf) {
        var t :| t in ts && monthOf(t.date) == k;
        var i :| 0 <= i < |ts| && ts[i] == t;
        assert L[i] == k;
      }
      if k in Keys(g) {
        assert k in L;
        var i :| 0 <= i < |L| && L[i] == k;
        assert ts[i] in ts;
      }
    }
    assert (set k | k in Keys(g)) == MonthsOf(ts, monthOf);
  }

  /** The summary is empty exactly when there are no records. */
  lemma SummaryEmptyIff(ts: seq<Transaction>, monthOf: string -> string)
    ensures |MonthlySummary(ts, monthOf)| == 0 <==> |ts| == 0
  {
    var key := ByMonth(monthOf);
    var g := GroupBy(ts, key);
    if |ts| > 0 {
      assert Labels(ts, key)[0] in Labels(ts, key);
      assert Labels(ts, key)[0] in Keys(g);
    }
  }

  /** Each month appears once, with the income and expense sums of exactly
      its records and net = income - expense. */
  lemma SummarySums(ts: seq<Transaction>, monthOf: string -> string)
    ensures var rows := MonthlySummary(ts, monthOf);
            && NoDup(LabelsOf(rows))
            && forall i :: 0 <= i < |rows| ==>
                 && rows[i].income == SumFor(ts, ByMonth(monthOf), rows[i].month, Income)
                 && rows[i].expense == SumFor(ts, ByMonth(monthOf), rows[i].month, Expense)
                 && rows[i].net == rows[i].income - rows[i].expense
  {
    var key := ByMonth(monthOf);
    var g := GroupBy(ts, key);
    var rows := MonthlySummary(ts, monthOf);
    GroupBySums(ts, key);
    forall i | 0 <= i < |rows|
      ensures LabelsOf(rows)[i] == Keys(g)[i]
      ensures rows[i].income == g[i].Of(Income) && rows[i].expense == g[i].Of(Expense)
    {
    }
  }

  /** The rows follow first-seen order, and the months left out are all first
      met later than every month shown. */
  lemma SummaryFirstSeen(ts: seq<Transaction>, monthOf: string -> string)
    ensures var rows := MonthlySummary(ts, monthOf);
            var L := Labels(ts, ByMonth(monthOf));
            && (forall i :: 0 <= i < |rows| ==> rows[i].month in L)
            && (forall i, j :: 0 <= i < j < |rows| ==> FirstIndex(L, rows[i].month) < FirstIndex(L, rows[j].month))
            && (forall i, k :: 0 <= i < |rows| && k in L && k !in LabelsOf(rows) ==>
                  FirstIndex(L, rows[i].month) < FirstIndex(L, k))
  {
    var key := ByMonth(monthOf);
    var g := GroupBy(ts, key);
    var rows := MonthlySummary(ts, monthOf);
    var L := Labels(ts, key);
    var m := |rows|;
    GroupByFirstSeen(ts, key);
    SummaryPrefix(ts, monthOf);
    PrefixFirstSeen(g, L, m);
    assert LabelsOf(rows) == Keys(g[..m]);
  }
}
