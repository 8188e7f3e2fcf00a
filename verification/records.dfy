/** The transaction record and the two list primitives applied to it:
    `Array.prototype.filter` and the `reduce` that sums amounts. */
module Records {
  import opened Sums

  /** A record's `type` field. The model assumes it holds only these two values. */
  datatype Kind = Income | Expense

  /** One ledger entry `{id, description, amount, category, type, date}`.
      `date` is the ISO-8601 creation timestamp, kept as text. */
  datatype Transaction = Transaction(
    id: int,
    description: string,
    amount: real,
    category: string,
    kind: Kind,
    date: string)

  /** `ts.filter(p)`: the records satisfying `p`, in their original order. */
  function Filter(ts: seq<Transaction>, p: Transaction -> bool): (r: seq<Transaction>)
    ensures |r| <= |ts|
    ensures forall t :: t in r <==> t in ts && p(t)
  {
    if |ts| == 0 then []
    else
      assert ts == [ts[0]] + ts[1..];
      (if p(ts[0]) then [ts[0]] else []) + Filter(ts[1..], p)
  }

  /** The predicate `t => t.type === kind`. */
  function IsKind(kind: Kind): Transaction -> bool
  {
    (t: Transaction) => t.kind == kind
  }

  /** `ts.filter(t => t.type === kind)`. */
  function OfKind(ts: seq<Transaction>, kind: Kind): seq<Transaction>
  {
    Filter(ts, IsKind(kind))
  }

  /** The amounts of `ts`, position by position. */
  function Amounts(ts: seq<Transaction>): (xs: seq<real>)
    ensures |xs| == |ts|
  {
    seq(|ts|, i requires 0 <= i < |ts| => ts[i].amount)
  }

  /** `ts.reduce((sum, t) => sum + t.amount, 0)`. */
  function Total(ts: seq<Transaction>): (r: real)
    ensures |ts| == 0 ==> r == 0.0
    ensures |ts| == 1 ==> r == ts[0].amount
  {
    assert |ts| == 1 ==> Amounts(ts)[..0] == [] && Sum(Amounts(ts)) == Sum(Amounts(ts)[..0]) + Amounts(ts)[0];
    Sum(Amounts(ts))
  }

  /** Filtering commutes with concatenation, so it keeps relative order. */
  lemma {:induction false} FilterConcat(a: seq<Transaction>, b: seq<Transaction>, p: Transaction -> bool)
    ensures Filter(a + b, p) == Filter(a, p) + Filter(b, p)
  {
    if |a| > 0 {
      assert (a + b)[0] == a[0];
      assert (a + b)[1..] == a[1..] + b;
      FilterConcat(a[1..], b, p);
    } else {
      assert a + b == b;
    }
  }

  /** Filtering a single record keeps it exactly when it satisfies the predicate. */
  lemma FilterSingle(t: Transaction, p: Transaction -> bool)
    ensures Filter([t], p) == if p(t) then [t] else []
  {
    assert [t][1..] == [];
  }

  /** Filtering twice by the same predicate is filtering once. */
  lemma {:induction false} FilterIdempotent(ts: seq<Transaction>, p: Transaction -> bool)
    ensures Filter(Filter(ts, p), p) == Filter(ts, p)
  {
    if |ts| > 0 {
      var head := if p(ts[0]) then [ts[0]] else [];
      FilterConcat(head, Filter(ts[1..], p), p);
      FilterSingle(ts[0], p);
      FilterIdempotent(ts[1..], p);
    }
  }

  /** A predicate every record satisfies filters nothing out. */
  lemma {:induction false} FilterKeepsAll(ts: seq<Transaction>, p: Transaction -> bool)
    requires forall t :: t in ts ==> p(t)
    ensures Filter(ts, p) == ts
  {
    if |ts| > 0 {
      assert ts[0] in ts;
      assert forall t :: t in ts[1..] ==> t in ts;
      FilterKeepsAll(ts[1..], p);
      assert ts == [ts[0]] + ts[1..];
    }
  }

  /** Total amount is additive over concatenation. */
  lemma TotalConcat(a: seq<Transaction>, b: seq<Transaction>)
    ensures Total(a + b) == Total(a) + Total(b)
  {
    assert Amounts(a + b) == Amounts(a) + Amounts(b);
    SumConcat(Amounts(a), Amounts(b));
  }

  /** The total of one record is its amount. */
  lemma TotalSingle(t: Transaction)
    ensures Total([t]) == t.amount
  {
    var xs := Amounts([t]);
    assert xs[0] == t.amount;
    assert xs[..0] == [];
    assert Sum(xs) == Sum(xs[..0]) + xs[0];
  }
}
