/** Grouping records by a string key in first-seen order, with running
    income and expense sums per group. This is what the category chart and
    the monthly summary do with a plain object: `if (!groups[k]) groups[k] = …;
    groups[k] … += t.amount;` inside `forEach`, read back with `Object.keys`,
    whose order is insertion order for non-numeric keys. */
module Grouping {
  import opened Sums
  import opened Records

  /** One group: its key and the sums of its income and expense amounts. */
  datatype Bucket = Bucket(key: string, income: real, expense: real) {
    /** `bucket[type]`. */
    function Of(kind: Kind): real
    {
      if kind == Income then income else expense
    }
  }

  /** `bucket[t.type] += t.amount`. */
  function Credit(b: Bucket, t: Transaction): (r: Bucket)
    ensures r.key == b.key
    ensures forall kind :: r.Of(kind) == b.Of(kind) + (if kind == t.kind then t.amount else 0.0)
  {
    if t.kind == Income then b.(income := b.income + t.amount)
    else b.(expense := b.expense + t.amount)
  }

  /** The keys of the groups, in order. */
  function Keys(bs: seq<Bucket>): (ks: seq<string>)
    ensures |ks| == |bs|
    ensures forall i :: 0 <= i < |bs| ==> ks[i] == bs[i].key
  {
    seq(|bs|, i requires 0 <= i < |bs| => bs[i].key)
  }

  /** No key occurs twice. */
  ghost predicate NoDup(ks: seq<string>)
  {
    forall i, j :: 0 <= i < j < |ks| ==> ks[i] != ks[j]
  }

  /** The key of every record, in list order. */
  function Labels(ts: seq<Transaction>, key: Transaction -> string): (ks: seq<string>)
    ensures |ks| == |ts|
    ensures forall i :: 0 <= i < |ts| ==> ks[i] == key(ts[i])
  {
    seq(|ts|, i requires 0 <= i < |ts| => key(ts[i]))
  }

  /** Position of the first occurrence of `k` in `ks`, or `|ks|` when there is none. */
  function FirstIndex(ks: seq<string>, k: string): (r: nat)
    ensures r <= |ks|
    ensures r < |ks| <==> k in ks
    ensures r < |ks| ==> ks[r] == k
    ensures forall j :: 0 <= j < r ==> ks[j] != k
  {
    if |ks| == 0 then 0
    else if ks[0] == k then 0
    else 1 + FirstIndex(ks[1..], k)
  }

  /** One step of the `forEach`: credit `t` to the group keyed `k`, opening a
      zeroed group at the end when `k` has not been seen. */
  function Insert(bs: seq<Bucket>, k: string, t: Transaction): (r: seq<Bucket>)
    ensures k in Keys(bs) ==> Keys(r) == Keys(bs)
    ensures k !in Keys(bs) ==> Keys(r) == Keys(bs) + [k]
    ensures forall i, kind :: 0 <= i < |bs| ==>
      r[i].Of(kind) == bs[i].Of(kind) + (if bs[i].key == k && kind == t.kind then t.amount else 0.0)
    ensures k !in Keys(bs) ==> forall kind :: r[|bs|].Of(kind) == (if kind == t.kind then t.amount else 0.0)
  {
    if k in Keys(bs) then
      seq(|bs|, i requires 0 <= i < |bs| => if bs[i].key == k then Credit(bs[i], t) else bs[i])
    else
      bs + [Credit(Bucket(k, 0.0, 0.0), t)]
  }

  /** The groups of `ts` under `key`, built by visiting the records in order. */
  function GroupBy(ts: seq<Transaction>, key: Transaction -> string): (g: seq<Bucket>)
    ensures NoDup(Keys(g))
    ensures forall k :: k in Keys(g) <==> k in Labels(ts, key)
  {
    if |ts| == 0 then []
    else
      var n := |ts| - 1;
      assert Labels(ts, key) == Labels(ts[..n], key) + [key(ts[n])];
      Insert(GroupBy(ts[..n], key), key(ts[n]), ts[n])
  }

  /** Appending a record does not move the first occurrence of a key already seen,
      and a key first seen in the appended record sits at the end. */
  lemma FirstIndexSnoc(ks: seq<string>, x: string, k: string)
    ensures k in ks ==> FirstIndex(ks + [x], k) == FirstIndex(ks, k)
    ensures k !in ks && k == x ==> FirstIndex(ks + [x], k) == |ks|
  {
    var r, r' := FirstIndex(ks, k), FirstIndex(ks + [x], k);
    if k in ks {
      assert (ks + [x])[r] == k;
    } else if k == x {
      assert (ks + [x])[|ks|] == k;
    }
  }

  /** Keys of `bs` ordered by their first position in `ks`. */
  ghost predicate OrderedBy(bs: seq<Bucket>, ks: seq<string>)
  {
    forall i, j :: 0 <= i < j < |bs| ==> FirstIndex(ks, bs[i].key) < FirstIndex(ks, bs[j].key)
  }

  /** One `forEach` step keeps the groups in first-seen order. */
  lemma InsertKeepsOrder(g0: seq<Bucket>, L0: seq<string>, x: string, t: Transaction)
    requires OrderedBy(g0, L0)
    requires forall k :: k in Keys(g0) <==> k in L0
    ensures OrderedBy(Insert(g0, x, t), L0 + [x])
  {
    var g, L := Insert(g0, x, t), L0 + [x];
    forall i | 0 <= i < |g0|
      ensures g[i].key == g0[i].key
      ensures FirstIndex(L, g[i].key) == FirstIndex(L0, g0[i].key) < |L0|
    {
      assert Keys(g)[i] == Keys(g0)[i];
      assert g0[i].key in Keys(g0);
      FirstIndexSnoc(L0, x, g0[i].key);
    }
    if x !in Keys(g0) {
      assert Keys(g)[|g0|] == x;
      FirstIndexSnoc(L0, x, x);
    }
  }

  /** Groups appear in the order their keys are first met in the list. */
  lemma {:induction false} GroupByFirstSeen(ts: seq<Transaction>, key: Transaction -> string)
    ensures OrderedBy(GroupBy(ts, key), Labels(ts, key))
  {
    if |ts| > 0 {
      var n := |ts| - 1;
      var init, t := ts[..n], ts[n];
      GroupByFirstSeen(init, key);
      assert Labels(ts, key) == Labels(init, key) + [key(t)];
      InsertKeepsOrder(GroupBy(init, key), Labels(init, key), key(t), t);
    }
  }

  /** Cutting the groups after the first `m` keeps them in first-seen order,
      and every key past the cut is first met after every key before it. */
  lemma PrefixFirstSeen(g: seq<Bucket>, L: seq<string>, m: nat)
    requires OrderedBy(g, L)
    requires forall k :: k in Keys(g) <==> k in L
    requires m <= |g|
    ensures forall i :: 0 <= i < m ==> g[i].key in L
    ensures forall i, j :: 0 <= i < j < m ==> FirstIndex(L, g[i].key) < FirstIndex(L, g[j].key)
    ensures forall i, k :: 0 <= i < m && k in L && k !in Keys(g[..m]) ==> FirstIndex(L, g[i].key) < FirstIndex(L, k)
  {
    forall i | 0 <= i < m ensures g[i].key in L {
      assert Keys(g)[i] == g[i].key;
    }
    forall i, k | 0 <= i < m && k in L && k !in Keys(g[..m])
      ensures FirstIndex(L, g[i].key) < FirstIndex(L, k)
    {
      var j :| 0 <= j < |g| && Keys(g)[j] == k;
    }
  }

  /** The sum of the `kind` amounts of the records of `ts` whose key is `k`. */
  function SumFor(ts: seq<Transaction>, key: Transaction -> string, k: string, kind: Kind): real
  {
    Total(OfKind(Filter(ts, HasKey(key, k)), kind))
  }

  /** The predicate `t => key(t) === k`. */
  function HasKey(key: Transaction -> string, k: string): Transaction -> bool
  {
    (t: Transaction) => key(t) == k
  }

  /** Appending one record adds its amount to the sum of its own key and type only. */
  lemma SumForSnoc(ts: seq<Transaction>, t: Transaction, key: Transaction -> string, k: string, kind: Kind)
    ensures SumFor(ts + [t], key, k, kind)
            == SumFor(ts, key, k, kind) + (if key(t) == k && t.kind == kind then t.amount else 0.0)
  {
    var p := HasKey(key, k);
    FilterConcat(ts, [t], p);
    FilterSingle(t, p);
    var sel := if p(t) then [t] else [];
    FilterConcat(Filter(ts, p), sel, IsKind(kind));
    if p(t) {
      FilterSingle(t, IsKind(kind));
      TotalSingle(t);
    }
    TotalConcat(OfKind(Filter(ts, p), kind), OfKind(sel, kind));
  }

  /** A key no record carries has nothing summed under it. */
  lemma SumForAbsent(ts: seq<Transaction>, key: Transaction -> string, k: string, kind: Kind)
    requires k !in Labels(ts, key)
    ensures SumFor(ts, key, k, kind) == 0.0
  {
  }

  /** Every group of `bs` holds the typed sums of the records of `ts` carrying its key. */
  ghost predicate SumsMatch(bs: seq<Bucket>, ts: seq<Transaction>, key: Transaction -> string)
  {
    forall i, kind :: 0 <= i < |bs| ==> bs[i].Of(kind) == SumFor(ts, key, bs[i].key, kind)
  }

  /** One `forEach` step keeps every group's sums exact. */
  lemma InsertKeepsSums(g0: seq<Bucket>, init: seq<Transaction>, t: Transaction, key: Transaction -> string)
    requires SumsMatch(g0, init, key)
    requires forall k :: k in Keys(g0) <==> k in Labels(init, key)
    ensures SumsMatch(Insert(g0, key(t), t), init + [t], key)
  {
    var g, x := Insert(g0, key(t), t), key(t);
    forall i, kind | 0 <= i < |g|
      ensures g[i].Of(kind) == SumFor(init + [t], key, g[i].key, kind)
    {
      SumForSnoc(init, t, key, g[i].key, kind);
      if i < |g0| {
        assert Keys(g)[i] == Keys(g0)[i];
      } else {
        assert Keys(g)[i] == x;
        SumForAbsent(init, key, x, kind);
      }
    }
  }

  /** Each group holds exactly the typed sums of the records carrying its key. */
  lemma {:induction false} GroupBySums(ts: seq<Transaction>, key: Transaction -> string)
    ensures SumsMatch(GroupBy(ts, key), ts, key)
  {
    if |ts| > 0 {
      var n := |ts| - 1;
      var init, t := ts[..n], ts[n];
      assert ts == init + [t];
      GroupBySums(init, key);
      InsertKeepsSums(GroupBy(init, key), init, t, key);
    }
  }

  /** The `kind` sums of the groups, in group order. */
  function Column(bs: seq<Bucket>, kind: Kind): (xs: seq<real>)
    ensures |xs| == |bs|
    ensures forall i :: 0 <= i < |bs| ==> xs[i] == bs[i].Of(kind)
  {
    seq(|bs|, i requires 0 <= i < |bs| => bs[i].Of(kind))
  }

  /** One `forEach` step adds the record's amount to the column of its type, once. */
  lemma InsertColumn(g0: seq<Bucket>, x: string, t: Transaction, kind: Kind)
    requires NoDup(Keys(g0))
    ensures Sum(Column(Insert(g0, x, t), kind)) == Sum(Column(g0, kind)) + (if t.kind == kind then t.amount else 0.0)
  {
    var g := Insert(g0, x, t);
    var d := if t.kind == kind then t.amount else 0.0;
    var a, b := Column(g0, kind), Column(g, kind);
    if x in Keys(g0) {
      var m :| 0 <= m < |g0| && Keys(g0)[m] == x;
      forall i | 0 <= i < |a|
        ensures b[i] == a[i] + (if i == m then d else 0.0)
      {
        assert Keys(g0)[i] == g0[i].key;
      }
      SumShift(a, b, m, d);
    } else {
      assert b == a + [d];
      assert b[..|b| - 1] == a;
    }
  }

  /** Appending a record adds its amount to the total of its own type only. */
  lemma TotalOfKindSnoc(init: seq<Transaction>, t: Transaction, kind: Kind)
    ensures Total(OfKind(init + [t], kind)) == Total(OfKind(init, kind)) + (if t.kind == kind then t.amount else 0.0)
  {
    FilterConcat(init, [t], IsKind(kind));
    FilterSingle(t, IsKind(kind));
    TotalConcat(OfKind(init, kind), OfKind([t], kind));
    if t.kind == kind {
      TotalSingle(t);
    }
  }

  /** The groups together hold every record's amount exactly once. */
  lemma {:induction false} GroupByTotal(ts: seq<Transaction>, key: Transaction -> string, kind: Kind)
    ensures Sum(Column(GroupBy(ts, key), kind)) == Total(OfKind(ts, kind))
  {
    if |ts| > 0 {
      var n := |ts| - 1;
      var init, t := ts[..n], ts[n];
      assert ts == init + [t];
      GroupByTotal(init, key, kind);
      InsertColumn(GroupBy(init, key), key(t), t, kind);
      TotalOfKindSnoc(init, t, kind);
    }
  }

  /** A sequence without repeats has as many elements as the set of its elements. */
  lemma {:induction false} NoDupCard(ks: seq<string>)
    requires NoDup(ks)
    ensures |set k | k in ks| == |ks|
  {
    if |ks| > 0 {
      var n := |ks| - 1;
      var init := ks[..n];
      assert NoDup(init);
      NoDupCard(init);
      assert (set k | k in ks) == (set k | k in init) + {ks[n]};
      assert ks[n] !in init;
    }
  }
}
