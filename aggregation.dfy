/**
 * The RFM table: `df.groupby("master_id").agg(...)` with Recency the days
 * from the reference date to the customer's latest `last_order_date`,
 * Frequency the sum of the omnichannel order counts and Monetary the sum
 * of the omnichannel spends. `groupby` sorts its keys, so the table is in
 * rising `master_id` order.
 */
module Aggregation {
  import opened Preparation
  import opened Ordering

  /** One row of the RFM table, keyed by `master_id`. */
  datatype RfmRecord = RfmRecord(masterId: string, recency: int, frequency: int, monetary: real)

  /** Some row of the table belongs to customer `id`. */
  predicate HasCustomer(rows: seq<CustomerRow>, id: string) {
    exists i :: 0 <= i < |rows| && rows[i].masterId == id
  }

  /** The distinct `master_id` values, in rising order. */
  function Keys(rows: seq<CustomerRow>): (ks: seq<string>)
    ensures StrictlySorted(ks)
    ensures forall x :: x in ks <==> HasCustomer(rows, x)
  {
    if rows == [] then []
    else
      var init := rows[..|rows| - 1];
      var ks := InsertKey(rows[|rows| - 1].masterId, Keys(init));
      assert forall x :: HasCustomer(rows, x) <==> HasCustomer(init, x) || x == rows[|rows| - 1].masterId by {
        forall x ensures HasCustomer(rows, x) <==> HasCustomer(init, x) || x == rows[|rows| - 1].masterId {
          if HasCustomer(rows, x) {
            var i :| 0 <= i < |rows| && rows[i].masterId == x;
            if i < |rows| - 1 { assert init[i] == rows[i]; }
          }
          if HasCustomer(init, x) {
            var i :| 0 <= i < |init| && init[i].masterId == x;
            assert rows[i] == init[i];
          }
        }
      }
      ks
  }

  /** The rows of customer `id`, in table order. */
  function Group(rows: seq<CustomerRow>, id: string): (g: seq<CustomerRow>)
    ensures forall r :: r in g <==> r in rows && r.masterId == id
  {
    if rows == [] then []
    else (if rows[0].masterId == id then [rows[0]] else []) + Group(rows[1..], id)
  }

  /**
   * A group holds each of its customer's rows as often as the table does,
   * so duplicate rows are all summed, and no row of another customer.
   */
  lemma {:induction false} GroupMultiplicity(rows: seq<CustomerRow>, id: string)
    ensures forall r :: multiset(Group(rows, id))[r] == if r.masterId == id then multiset(rows)[r] else 0
  {
    if rows != [] {
      GroupMultiplicity(rows[1..], id);
      assert rows == [rows[0]] + rows[1..];
    }
  }

  /** The latest `last_order_date` of a group: at least every row's, and some row's. */
  function LatestOrder(g: seq<CustomerRow>): (m: int)
    requires |g| > 0
    ensures forall r :: r in g ==> r.lastOrderDate <= m
    ensures exists r :: r in g && r.lastOrderDate == m
  {
    if |g| == 1 then g[0].lastOrderDate
    else
      var rest := LatestOrder(g[1..]);
      assert forall r :: r in g[1..] ==> r in g;
      if g[0].lastOrderDate >= rest then g[0].lastOrderDate else rest
  }

  function SumOrders(g: seq<CustomerRow>): int {
    if g == [] then 0 else g[0].orderNumTotalEverOmnichannel + SumOrders(g[1..])
  }

  function SumValue(g: seq<CustomerRow>): real {
    if g == [] then 0.0 else g[0].customerValueTotalEverOmnichannel + SumValue(g[1..])
  }

  /** The sums of two row lists laid end to end are the sums of each. */
  lemma {:induction false} SumsAppend(a: seq<CustomerRow>, b: seq<CustomerRow>)
    ensures SumOrders(a + b) == SumOrders(a) + SumOrders(b)
    ensures SumValue(a + b) == SumValue(a) + SumValue(b)
  {
    if a == [] {
      assert a + b == b;
    } else {
      assert (a + b)[1..] == a[1..] + b;
      SumsAppend(a[1..], b);
    }
  }

  /**
   * The sums depend only on which rows a group holds and how often, not on
   * their order: `sum` over a group is a sum over its multiset of rows.
   */
  lemma {:induction false} SumsPermutation(a: seq<CustomerRow>, b: seq<CustomerRow>)
    requires multiset(a) == multiset(b)
    ensures SumOrders(a) == SumOrders(b) && SumValue(a) == SumValue(b)
    decreases |a|
  {
    if a == [] {
      assert |b| == |multiset(b)| == 0;
    } else {
      assert a[0] in multiset(b);
      var k :| 0 <= k < |b| && b[k] == a[0];
      var rest := b[..k] + b[k + 1..];
      assert multiset(a) == multiset{a[0]} + multiset(a[1..]) by { assert a == [a[0]] + a[1..]; }
      RemoveOneMultiset(b, k);
      MultisetCancel(a[0], multiset(a[1..]), multiset(rest));
      SumsPermutation(a[1..], rest);
      RemoveOneSums(b, k);
    }
  }

  lemma MultisetCancel(x: CustomerRow, m: multiset<CustomerRow>, m': multiset<CustomerRow>)
    requires multiset{x} + m == multiset{x} + m'
    ensures m == m'
  {
    forall y ensures m[y] == m'[y] {
      assert (multiset{x} + m)[y] == (multiset{x} + m')[y];
    }
  }

  /** The rows without the one at k, as a multiset. */
  lemma RemoveOneMultiset(b: seq<CustomerRow>, k: int)
    requires 0 <= k < |b|
    ensures multiset(b) == multiset{b[k]} + multiset(b[..k] + b[k + 1..])
  {
    assert b == b[..k] + [b[k]] + b[k + 1..];
  }

  /** The sums without the row at k. */
  lemma RemoveOneSums(b: seq<CustomerRow>, k: int)
    requires 0 <= k < |b|
    ensures SumOrders(b) == b[k].orderNumTotalEverOmnichannel + SumOrders(b[..k] + b[k + 1..])
    ensures SumValue(b) == b[k].customerValueTotalEverOmnichannel + SumValue(b[..k] + b[k + 1..])
  {
    var front, back := b[..k], b[k + 1..];
    var tail := [b[k]] + back;
    assert b == front + tail;
    assert tail != [] && tail[0] == b[k] && tail[1..] == back;
    assert SumOrders(tail) == b[k].orderNumTotalEverOmnichannel + SumOrders(back);
    assert SumValue(tail) == b[k].customerValueTotalEverOmnichannel + SumValue(back);
    SumsAppend(front, tail);
    SumsAppend(front, back);
  }

  /** Reordering the table's rows changes no customer's Frequency or Monetary. */
  lemma GroupSumsOrderFree(rows: seq<CustomerRow>, rows': seq<CustomerRow>, id: string)
    requires multiset(rows) == multiset(rows')
    ensures SumOrders(Group(rows, id)) == SumOrders(Group(rows', id))
    ensures SumValue(Group(rows, id)) == SumValue(Group(rows', id))
  {
    GroupMultiplicity(rows, id);
    GroupMultiplicity(rows', id);
    assert multiset(Group(rows, id)) == multiset(Group(rows', id)) by {
      forall r ensures multiset(Group(rows, id))[r] == multiset(Group(rows', id))[r] { }
    }
    SumsPermutation(Group(rows, id), Group(rows', id));
  }

  lemma GroupNonEmpty(rows: seq<CustomerRow>, id: string)
    requires HasCustomer(rows, id)
    ensures |Group(rows, id)| > 0
  {
    var i :| 0 <= i < |rows| && rows[i].masterId == id;
    assert rows[i] in Group(rows, id);
  }

  /** The aggregated record of one customer. */
  function RecordOf(rows: seq<CustomerRow>, id: string, today: int): (r: RfmRecord)
    requires HasCustomer(rows, id)
    ensures |Group(rows, id)| > 0
    ensures r.masterId == id
  {
    GroupNonEmpty(rows, id);
    var g := Group(rows, id);
    RfmRecord(id, today - LatestOrder(g), SumOrders(g), SumValue(g))
  }

  /**
   * The RFM table without the trailing `.head()`: one record per distinct
   * `master_id`, in rising key order, holding that customer's aggregates.
   */
  function Aggregate(rows: seq<CustomerRow>, today: int): (t: seq<RfmRecord>)
    ensures |t| == |Keys(rows)|
    ensures forall i :: 0 <= i < |t| ==> t[i].masterId == Keys(rows)[i]
    ensures forall i :: 0 <= i < |t| ==>
      var g := Group(rows, t[i].masterId);
      && |g| > 0
      && t[i].recency == today - LatestOrder(g)
      && t[i].frequency == SumOrders(g)
      && t[i].monetary == SumValue(g)
  {
    var ks := Keys(rows);
    seq(|ks|, i requires 0 <= i < |ks| => RecordOf(rows, ks[i], today))
  }

  /**
   * The table is in strictly rising `master_id` order, and it has a record
   * for a key exactly when some input row has that key.
   */
  lemma AggregateKeys(rows: seq<CustomerRow>, today: int)
    ensures forall i, j :: 0 <= i < j < |Aggregate(rows, today)| ==>
      LexLess(Aggregate(rows, today)[i].masterId, Aggregate(rows, today)[j].masterId)
    ensures forall x :: HasCustomer(rows, x) <==>
      exists i :: 0 <= i < |Aggregate(rows, today)| && Aggregate(rows, today)[i].masterId == x
  {
    var t, ks := Aggregate(rows, today), Keys(rows);
    forall x | HasCustomer(rows, x) ensures exists i :: 0 <= i < |t| && t[i].masterId == x {
      assert x in ks;
      var i :| 0 <= i < |ks| && ks[i] == x;
    }
    forall x | exists i :: 0 <= i < |t| && t[i].masterId == x ensures HasCustomer(rows, x) {
      var i :| 0 <= i < |t| && t[i].masterId == x;
      assert ks[i] in ks;
    }
  }

  /** Each customer of the table has exactly one record. */
  lemma OneRecordPerCustomer(rows: seq<CustomerRow>, today: int, i: int, j: int)
    requires 0 <= i < |Aggregate(rows, today)| && 0 <= j < |Aggregate(rows, today)|
    requires Aggregate(rows, today)[i].masterId == Aggregate(rows, today)[j].masterId
    ensures i == j
  {
    StrictlySortedDistinct(Keys(rows), i, j);
  }

  /** When no order is later than the reference date, no Recency is negative. */
  lemma RecencyNonNegative(rows: seq<CustomerRow>, today: int)
    requires forall r :: r in rows ==> r.lastOrderDate <= today
    ensures forall i :: 0 <= i < |Aggregate(rows, today)| ==> Aggregate(rows, today)[i].recency >= 0
  {
    var t := Aggregate(rows, today);
    forall i | 0 <= i < |t| ensures t[i].recency >= 0 {
      var g := Group(rows, t[i].masterId);
      var r :| r in g && r.lastOrderDate == LatestOrder(g);
    }
  }

  /** A customer with a single row gets that row's values. */
  lemma SingleRowCustomer(rows: seq<CustomerRow>, today: int, k: int)
    requires 0 <= k < |rows|
    requires forall j :: 0 <= j < |rows| && rows[j].masterId == rows[k].masterId ==> j == k
    ensures exists i :: (0 <= i < |Aggregate(rows, today)| && Aggregate(rows, today)[i] ==
      RfmRecord(rows[k].masterId, today - rows[k].lastOrderDate,
                rows[k].orderNumTotalEverOmnichannel, rows[k].customerValueTotalEverOmnichannel))
  {
    var t := Aggregate(rows, today);
    AggregateKeys(rows, today);
    assert HasCustomer(rows, rows[k].masterId);
    var i :| 0 <= i < |t| && t[i].masterId == rows[k].masterId;
    GroupSingleton(rows, k);
    var g := Group(rows, rows[k].masterId);
    assert g[1..] == [];
    assert SumOrders(g) == rows[k].orderNumTotalEverOmnichannel;
    assert SumValue(g) == rows[k].customerValueTotalEverOmnichannel;
  }

  lemma {:induction false} GroupSingleton(rows: seq<CustomerRow>, k: int)
    requires 0 <= k < |rows|
    requires forall j :: 0 <= j < |rows| && rows[j].masterId == rows[k].masterId ==> j == k
    ensures Group(rows, rows[k].masterId) == [rows[k]]
  {
    var id := rows[k].masterId;
    if k == 0 {
      GroupAbsent(rows[1..], id);
    } else {
      assert rows[0].masterId != id;
      GroupSingleton(rows[1..], k - 1);
    }
  }

  lemma {:induction false} GroupAbsent(rows: seq<CustomerRow>, id: string)
    requires forall j :: 0 <= j < |rows| ==> rows[j].masterId != id
    ensures Group(rows, id) == []
  {
    if rows != [] { GroupAbsent(rows[1..], id); }
  }

  /** The RFM table as line 130 computes it: `.head()` keeps only the first five groups. */
  function AggregateHead(rows: seq<CustomerRow>, today: int): (t: seq<RfmRecord>)
    ensures |t| == if |Aggregate(rows, today)| < 5 then |Aggregate(rows, today)| else 5
    ensures t == Aggregate(rows, today)[..|t|]
  {
    var full := Aggregate(rows, today);
    if |full| < 5 then full else full[..5]
  }

  /**
   * With six or more customers the table as written loses a customer:
   * some `master_id` of the input has no record at all.
   */
  lemma HeadLosesCustomers(rows: seq<CustomerRow>, today: int)
    requires |Keys(rows)| >= 6
    ensures |AggregateHead(rows, today)| == 5
    ensures exists x :: (HasCustomer(rows, x) &&
      forall i :: 0 <= i < |AggregateHead(rows, today)| ==> AggregateHead(rows, today)[i].masterId != x)
  {
    var full, head := Aggregate(rows, today), AggregateHead(rows, today);
    var x := full[5].masterId;
    assert Keys(rows)[5] in Keys(rows);
    forall i | 0 <= i < |head| ensures head[i].masterId != x {
      if head[i].masterId == x {
        OneRecordPerCustomer(rows, today, i, 5);
      }
    }
  }
}
