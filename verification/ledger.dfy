/** The ledger: the newest-first list of records plus the active currency
    code, and the three mutations the user can trigger on it. Persistence,
    the clock and the form fields are outside the model: the new record's id
    and timestamp, and the raw form values, arrive as parameters. */
module Ledger {
  import opened Records
  import opened Aggregate
  import Catalog

  /** What `parseFloat` makes of the amount field: a number, or NaN when the
      text does not start with one. */
  datatype Parsed = NaN | Num(value: real)

  /** The form values `addTransaction` reads. */
  datatype AddRequest = AddRequest(description: string, amount: Parsed, category: string, kind: Kind)

  /** The global `transactions` list (newest first) and `currency` code. */
  datatype State = State(transactions: seq<Transaction>, currency: string)

  datatype Status = Added | Rejected

  /** The ledger after an add attempt, and whether the attempt was accepted. */
  datatype AddOutcome = AddOutcome(state: State, status: Status)

  /** State before anything has been loaded or added. */
  const Initial: State := State([], Catalog.DefaultCurrency)

  /** The guard `!description || !amount` negated: JavaScript treats the empty
      string, 0 and NaN as false, so those are the only inputs it turns away. */
  predicate Filled(req: AddRequest)
  {
    req.description != "" && req.amount.Num? && req.amount.value != 0.0
  }

  /** `addTransaction`: reject an unfilled form with the ledger untouched;
      otherwise build the record from the form, the id and the timestamp
      given, and put it in front (`unshift`). */
  function Add(s: State, req: AddRequest, id: int, date: string): (r: AddOutcome)
    ensures r.status == Rejected <==> req.description == [] || req.amount.NaN? || req.amount.value == 0.0
    ensures r.status == Rejected ==> r.state == s
    ensures r.status == Added ==>
      && |r.state.transactions| == |s.transactions| + 1
      && r.state.transactions[0] == Transaction(id, req.description, req.amount.value, req.category, req.kind, date)
      && r.state.transactions[1..] == s.transactions
      && r.state.currency == s.currency
  {
    if !Filled(req) then AddOutcome(s, Rejected)
    else
      var t := Transaction(id, req.description, req.amount.value, req.category, req.kind, date);
      AddOutcome(s.(transactions := [t] + s.transactions), Added)
  }

  /** The predicate `t => t.id !== id`. */
  function Keeps(id: int): Transaction -> bool
  {
    (t: Transaction) => t.id != id
  }

  /** `deleteTransaction`: drop every record carrying `id`, keep the rest. */
  function Delete(s: State, id: int): (r: State)
    ensures r.currency == s.currency
    ensures |r.transactions| <= |s.transactions|
    ensures forall t :: t in r.transactions <==> t in s.transactions && t.id != id
  {
    s.(transactions := Filter(s.transactions, Keeps(id)))
  }

  /** `changeCurrency`: the code from the selector is stored as it is, with no
      check that the catalog knows it. */
  function ChangeCurrency(s: State, code: string): (r: State)
    ensures r.transactions == s.transactions
    ensures r.currency == code
  {
    s.(currency := code)
  }

  /** After a switch, the header shows a symbol exactly when the new code is one
      the currency table knows; for any other code it shows nothing. */
  lemma SymbolAfterChange(s: State, code: string)
    ensures Catalog.Symbol(ChangeCurrency(s, code).currency).Some? <==> code in Catalog.Currencies
    ensures code in Catalog.Currencies ==>
              Catalog.Symbol(ChangeCurrency(s, code).currency) == Catalog.Some(Catalog.Currencies[code])
  {
  }

  /** Every record of `ts` carries a different id. */
  ghost predicate UniqueIds(ts: seq<Transaction>)
  {
    forall i, j :: 0 <= i < j < |ts| ==> ts[i].id != ts[j].id
  }

  /** No record of `ts` carries `id`. */
  ghost predicate Fresh(ts: seq<Transaction>, id: int)
  {
    forall t :: t in ts ==> t.id != id
  }

  /** Deleting an id nobody carries changes nothing. */
  lemma DeleteAbsent(s: State, id: int)
    requires Fresh(s.transactions, id)
    ensures Delete(s, id) == s
  {
    FilterKeepsAll(s.transactions, Keeps(id));
  }

  /** Deleting twice is deleting once. */
  lemma DeleteTwice(s: State, id: int)
    ensures Delete(Delete(s, id), id) == Delete(s, id)
  {
    FilterIdempotent(s.transactions, Keeps(id));
  }

  /** Delete works piecewise on any split of the list, so the surviving
      records keep their relative order. */
  lemma DeleteKeepsOrder(a: seq<Transaction>, b: seq<Transaction>, c: string, id: int)
    ensures Delete(State(a + b, c), id).transactions
            == Delete(State(a, c), id).transactions + Delete(State(b, c), id).transactions
  {
    FilterConcat(a, b, Keeps(id));
  }

  /** Deleting the record an add just created, when its id was fresh, restores the ledger. */
  lemma DeleteUndoesAdd(s: State, req: AddRequest, id: int, date: string)
    requires Fresh(s.transactions, id)
    ensures Delete(Add(s, req, id, date).state, id) == s
  {
    var r := Add(s, req, id, date);
    if r.status == Added {
      var t := r.state.transactions[0];
      assert r.state.transactions == [t] + s.transactions;
      FilterConcat([t], s.transactions, Keeps(id));
      FilterSingle(t, Keeps(id));
    }
    DeleteAbsent(s, id);
  }

  /** Adding with an id no record carries keeps ids unique; the code itself
      draws ids from the clock and does not guarantee this. */
  lemma AddKeepsIdsUnique(s: State, req: AddRequest, id: int, date: string)
    requires UniqueIds(s.transactions)
    requires Fresh(s.transactions, id)
    ensures UniqueIds(Add(s, req, id, date).state.transactions)
  {
    var ts := Add(s, req, id, date).state.transactions;
    if Add(s, req, id, date).status == Added {
      forall i, j | 0 <= i < j < |ts|
        ensures ts[i].id != ts[j].id
      {
        if i == 0 {
          assert ts[j] == s.transactions[j - 1];
        } else {
          assert ts[i] == s.transactions[i - 1] && ts[j] == s.transactions[j - 1];
        }
      }
    }
  }

  /** Two records with one id (two adds in the same millisecond) are both removed by one delete. */
  lemma DuplicateIdsDeletedTogether(a: Transaction, b: Transaction)
    requires a.id == b.id
    ensures !UniqueIds([a, b])
    ensures Delete(State([a, b], Catalog.DefaultCurrency), a.id).transactions == []
  {
    assert [a, b][0].id == [a, b][1].id;
    assert [a, b] == [a] + [b];
    FilterConcat([a], [b], Keeps(a.id));
    FilterSingle(a, Keeps(a.id));
    FilterSingle(b, Keeps(a.id));
  }

  /** Every record that remains still has a unique id after a delete. */
  lemma {:induction false} DeleteKeepsIdsUnique(s: State, id: int)
    requires UniqueIds(s.transactions)
    ensures UniqueIds(Delete(s, id).transactions)
    decreases |s.transactions|
  {
    var ts := s.transactions;
    if |ts| > 0 {
      var rest := ts[1..];
      assert UniqueIds(rest) by {
        forall i, j | 0 <= i < j < |rest| ensures rest[i].id != rest[j].id {
          assert rest[i] == ts[i + 1] && rest[j] == ts[j + 1];
        }
      }
      DeleteKeepsIdsUnique(State(rest, s.currency), id);
      var tail := Filter(rest, Keeps(id));
      var r := Delete(s, id).transactions;
      if Keeps(id)(ts[0]) {
        assert r == [ts[0]] + tail;
        forall j | 1 <= j < |r| ensures r[0].id != r[j].id {
          assert r[j] in tail;
          var k :| 0 <= k < |rest| && rest[k] == r[j];
          assert rest[k] == ts[k + 1];
        }
      } else {
        assert r == tail;
      }
    }
  }

  /** The guard only looks at emptiness and zero: a negative amount is stored. */
  lemma AddAcceptsNegativeAmount(s: State, id: int, date: string)
    ensures Add(s, AddRequest("Refund", Num(-5.0), "food", Expense), id, date).status == Added
    ensures Add(s, AddRequest("Refund", Num(-5.0), "food", Expense), id, date).state.transactions[0].amount < 0.0
  {
  }

  /** All stored amounts stay positive when the caller only adds positive amounts. */
  lemma AddKeepsPositive(s: State, req: AddRequest, id: int, date: string)
    requires forall t :: t in s.transactions ==> t.amount > 0.0
    requires req.amount.Num? ==> req.amount.value > 0.0
    ensures forall t :: t in Add(s, req, id, date).state.transactions ==> t.amount > 0.0
  {
  }

  /** An accepted add moves exactly the new amount into the total its type selects. */
  lemma TotalsAfterAdd(s: State, req: AddRequest, id: int, date: string)
    requires Filled(req)
    ensures var before := CalculateTotals(s.transactions);
            var after := CalculateTotals(Add(s, req, id, date).state.transactions);
            && after.income == before.income + (if req.kind == Income then req.amount.value else 0.0)
            && after.expense == before.expense + (if req.kind == Expense then req.amount.value else 0.0)
  {
    var t := Transaction(id, req.description, req.amount.value, req.category, req.kind, date);
    TotalsConcat([t], s.transactions);
    TotalsSingle(t);
  }
}
