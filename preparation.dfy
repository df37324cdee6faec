/**
 * The customer table and `data_prepartion`, which adds the omnichannel
 * order count and spend to every row in place. Dates are day numbers
 * (midnight of a day counted from a fixed epoch), so re-typing the four
 * date columns leaves their values as they are.
 */
module Preparation {
  import opened Wrappers

  /** One row of the customer table. */
  datatype CustomerRow = CustomerRow(
    masterId: string,
    orderChannel: string,
    lastOrderChannel: string,
    firstOrderDate: int,
    lastOrderDate: int,
    lastOrderDateOnline: int,
    lastOrderDateOffline: int,
    orderNumTotalEverOnline: int,
    orderNumTotalEverOffline: int,
    customerValueTotalEverOffline: real,
    customerValueTotalEverOnline: real,
    interestedInCategories12: Option<string>,
    orderNumTotalEverOmnichannel: int,
    customerValueTotalEverOmnichannel: real)

  /** A row whose two omnichannel columns are the sums of their channel columns. */
  predicate Prepared(r: CustomerRow) {
    && r.orderNumTotalEverOmnichannel == r.orderNumTotalEverOnline + r.orderNumTotalEverOffline
    && r.customerValueTotalEverOmnichannel == r.customerValueTotalEverOnline + r.customerValueTotalEverOffline
  }

  /** Two rows agree on every column but the two omnichannel totals. */
  predicate SameOtherColumns(r: CustomerRow, r': CustomerRow) {
    && r'.masterId == r.masterId && r'.orderChannel == r.orderChannel
    && r'.lastOrderChannel == r.lastOrderChannel && r'.firstOrderDate == r.firstOrderDate
    && r'.lastOrderDate == r.lastOrderDate && r'.lastOrderDateOnline == r.lastOrderDateOnline
    && r'.lastOrderDateOffline == r.lastOrderDateOffline
    && r'.orderNumTotalEverOnline == r.orderNumTotalEverOnline
    && r'.orderNumTotalEverOffline == r.orderNumTotalEverOffline
    && r'.customerValueTotalEverOffline == r.customerValueTotalEverOffline
    && r'.customerValueTotalEverOnline == r.customerValueTotalEverOnline
    && r'.interestedInCategories12 == r.interestedInCategories12
  }

  /** The row with its omnichannel columns (re)computed; no other column changes. */
  function WithTotals(r: CustomerRow): (r': CustomerRow)
    ensures Prepared(r') && SameOtherColumns(r, r')
  {
    r.(orderNumTotalEverOmnichannel := r.orderNumTotalEverOnline + r.orderNumTotalEverOffline,
       customerValueTotalEverOmnichannel := r.customerValueTotalEverOnline + r.customerValueTotalEverOffline)
  }

  /**
   * The rows `data_prepartion` leaves: every row prepared, agreeing with
   * its raw row on every other column, which fixes each row completely.
   */
  function PrepareRows(raw: seq<CustomerRow>): (rows: seq<CustomerRow>)
    ensures |rows| == |raw|
    ensures forall i :: 0 <= i < |raw| ==> Prepared(rows[i]) && SameOtherColumns(raw[i], rows[i])
  {
    seq(|raw|, i requires 0 <= i < |raw| => TotalsPrepared(raw[i]); WithTotals(raw[i]))
  }

  /** `data_prepartion(df)`: adds the two total columns to every row of the table in place. */
  method PrepareData(df: array<CustomerRow>)
    modifies df
    ensures df[..] == PrepareRows(old(df[..]))
    ensures forall i :: 0 <= i < df.Length ==> df[i] == WithTotals(old(df[i]))
    ensures forall i :: 0 <= i < df.Length ==> Prepared(df[i])
    ensures forall i :: 0 <= i < df.Length ==> SameOtherColumns(old(df[i]), df[i])
  {
    for i := 0 to df.Length
      invariant forall k :: 0 <= k < i ==> df[k] == WithTotals(old(df[k]))
      invariant forall k :: i <= k < df.Length ==> df[k] == old(df[k])
    {
      df[i] := WithTotals(df[i]);
    }
    forall i | 0 <= i < df.Length ensures Prepared(df[i]) && SameOtherColumns(old(df[i]), df[i]) {
      TotalsPrepared(old(df[i]));
    }
    assert df[..] == PrepareRows(old(df[..])) by {
      var want := PrepareRows(old(df[..]));
      forall i | 0 <= i < df.Length ensures df[..][i] == want[i] {
        assert old(df[..])[i] == old(df[i]);
      }
    }
  }

  /**
   * Recomputing gives a prepared row which agrees with the input on every
   * other column, and a prepared row is left as it is.
   */
  lemma TotalsPrepared(r: CustomerRow)
    ensures Prepared(WithTotals(r))
    ensures SameOtherColumns(r, WithTotals(r))
    ensures Prepared(r) <==> WithTotals(r) == r
  {
  }

  /** With no negative counts or spends, each total is at least each of its channels. */
  lemma TotalsDominate(r: CustomerRow)
    requires Prepared(r)
    requires r.orderNumTotalEverOnline >= 0 && r.orderNumTotalEverOffline >= 0
    requires r.customerValueTotalEverOnline >= 0.0 && r.customerValueTotalEverOffline >= 0.0
    ensures r.orderNumTotalEverOmnichannel >= r.orderNumTotalEverOnline
    ensures r.orderNumTotalEverOmnichannel >= r.orderNumTotalEverOffline
    ensures r.customerValueTotalEverOmnichannel >= r.customerValueTotalEverOnline
    ensures r.customerValueTotalEverOmnichannel >= r.customerValueTotalEverOffline
  {
  }
}
