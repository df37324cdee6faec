/**
 * The script end to end on a table of rows: prepare the totals, aggregate
 * per customer against a reference day (the script uses 2021-06-01), score, segment, and
 * draw the two extracts. The aggregation keeps every customer and the brand
 * extract combines all three filters, as the script's comments describe.
 */
module Pipeline {
  import opened Wrappers
  import opened Preparation
  import opened Aggregation
  import opened Scoring
  import opened Extracts
  import Ranking
  import Ordering

  /** What the script produces: the scored table and the two id lists. */
  datatype Report = Report(table: seq<ScoredRecord>, brandTargets: seq<string>, discountTargets: seq<string>)

  /** The customers of a table are those of the raw rows. */
  lemma PrepareKeepsCustomers(raw: seq<CustomerRow>, x: string)
    ensures HasCustomer(PrepareRows(raw), x) <==> HasCustomer(raw, x)
  {
    var rows := PrepareRows(raw);
    if HasCustomer(raw, x) {
      var i :| 0 <= i < |raw| && raw[i].masterId == x;
      assert rows[i].masterId == x;
    }
  }

  function Analyse(raw: seq<CustomerRow>, today: int): (r: Result<Report, Metric>)
    ensures r.Ok? <==> ScoreTable(Aggregate(PrepareRows(raw), today)).Ok?
    ensures r.Err? ==> r.error == ScoreTable(Aggregate(PrepareRows(raw), today)).error
  {
    var rows := PrepareRows(raw);
    match ScoreTable(Aggregate(rows, today))
    case Err(m) => Err(m)
    case Ok(t) => Ok(Report(t, PremiumTargets(t, rows), WinBackTargets(t)))
  }

  /** The scored table keeps the aggregated table's ids, record for record. */
  lemma ScoredIds(raw: seq<CustomerRow>, today: int)
    requires Analyse(raw, today).Ok?
    ensures |Analyse(raw, today).value.table| == |Aggregate(PrepareRows(raw), today)|
    ensures forall i :: 0 <= i < |Analyse(raw, today).value.table| ==>
      Analyse(raw, today).value.table[i].masterId == Aggregate(PrepareRows(raw), today)[i].masterId
  {
    assert Analyse(raw, today).value.table == ScoreTable(Aggregate(PrepareRows(raw), today)).value;
  }

  /** The scored table has one record per customer. */
  lemma ReportDistinct(raw: seq<CustomerRow>, today: int)
    requires Analyse(raw, today).Ok?
    ensures DistinctIds(Analyse(raw, today).value.table)
  {
    var rows := PrepareRows(raw);
    var t := Analyse(raw, today).value.table;
    ScoredIds(raw, today);
    forall i, j | 0 <= i < j < |t| ensures t[i].masterId != t[j].masterId {
      if t[i].masterId == t[j].masterId {
        OneRecordPerCustomer(rows, today, i, j);
      }
    }
  }

  /** The scored table has a record for exactly the customers of the input. */
  lemma ReportCustomers(raw: seq<CustomerRow>, today: int, x: string)
    requires Analyse(raw, today).Ok?
    ensures HasCustomer(raw, x) <==>
      exists i :: 0 <= i < |Analyse(raw, today).value.table| && Analyse(raw, today).value.table[i].masterId == x
  {
    var rows := PrepareRows(raw);
    var a := Aggregate(rows, today);
    var t := Analyse(raw, today).value.table;
    var ks := Keys(rows);
    ScoredIds(raw, today);
    PrepareKeepsCustomers(raw, x);
    if HasCustomer(rows, x) {
      assert x in ks;
      var i :| 0 <= i < |ks| && ks[i] == x;
      assert a[i].masterId == x;
      assert t[i].masterId == x;
    }
    if exists i :: 0 <= i < |t| && t[i].masterId == x {
      var i :| 0 <= i < |t| && t[i].masterId == x;
      assert |t| == |a| == |ks|;
      assert t[i].masterId == a[i].masterId;
      assert a[i].masterId == ks[i];
      assert ks[i] in ks;
    }
  }

  /**
   * The two extracts list each customer at most once, share no customer,
   * and name only customers of the input.
   */
  lemma ReportExtracts(raw: seq<CustomerRow>, today: int, x: string)
    requires Analyse(raw, today).Ok?
    ensures Distinct(Analyse(raw, today).value.brandTargets) && Distinct(Analyse(raw, today).value.discountTargets)
    ensures !(x in Analyse(raw, today).value.brandTargets && x in Analyse(raw, today).value.discountTargets)
    ensures x in Analyse(raw, today).value.brandTargets || x in Analyse(raw, today).value.discountTargets ==> HasCustomer(raw, x)
  {
    var rows := PrepareRows(raw);
    var rep := Analyse(raw, today).value;
    ReportDistinct(raw, today);
    ReportCustomers(raw, today, x);
    assert rep.brandTargets == PremiumTargets(rep.table, rows);
    assert rep.discountTargets == WinBackTargets(rep.table);
    ExtractsDisjoint(rep.table, rows, x);
  }

  /**
   * Line 187 as written, over the script's own scored table: a customer
   * outside the loyal segments, or with Monetary of at most 250, whose rows
   * mention KADIN is in the brand extract as written but not in the
   * intended one.
   */
  lemma BrandExtractAsWritten(raw: seq<CustomerRow>, today: int, i: int)
    requires Analyse(raw, today).Ok? && 0 <= i < |Analyse(raw, today).value.table|
    requires Analyse(raw, today).value.table[i].segment !in PremiumSegments
          || Analyse(raw, today).value.table[i].monetary <= MonetaryThreshold
    requires WantsCategory(PrepareRows(raw), Analyse(raw, today).value.table[i].masterId)
    ensures Analyse(raw, today).value.table[i].masterId in PremiumTargetsAsWritten(PrepareRows(raw))
    ensures Analyse(raw, today).value.table[i].masterId !in Analyse(raw, today).value.brandTargets
  {
    var rep := Analyse(raw, today).value;
    ReportDistinct(raw, today);
    assert rep.brandTargets == PremiumTargets(rep.table, PrepareRows(raw));
    AsWrittenIgnoresSegment(rep.table, PrepareRows(raw), i);
  }

  /**
   * A raw table of two customers, both interested in "[KADIN]": c1 last
   * ordered on day 0, once, online, for 90; c2 on day 30, three
   * times online and twice offline, for 500 online and 100 offline. The
   * other columns are free.
   */
  predicate TwoCustomers(raw: seq<CustomerRow>)
  {
    && |raw| == 2
    && raw[0].masterId == "c1" && raw[0].lastOrderDate == 0
    && raw[0].orderNumTotalEverOnline == 1 && raw[0].orderNumTotalEverOffline == 0
    && raw[0].customerValueTotalEverOnline == 90.0 && raw[0].customerValueTotalEverOffline == 0.0
    && raw[0].interestedInCategories12 == Some("[KADIN]")
    && raw[1].masterId == "c2" && raw[1].lastOrderDate == 30
    && raw[1].orderNumTotalEverOnline == 3 && raw[1].orderNumTotalEverOffline == 2
    && raw[1].customerValueTotalEverOnline == 500.0 && raw[1].customerValueTotalEverOffline == 100.0
    && raw[1].interestedInCategories12 == Some("[KADIN]")
  }

  /** Two complete rows of that shape, as the customer file could hold them. */
  function TwoCustomerRows(): (raw: seq<CustomerRow>)
    ensures TwoCustomers(raw)
  {
    [CustomerRow("c1", "Android App", "Android App", 0, 0, 0, 0, 1, 0, 0.0, 90.0, Some("[KADIN]"), 0, 0.0),
     CustomerRow("c2", "Desktop", "Desktop", 10, 30, 30, 10, 3, 2, 100.0, 500.0, Some("[KADIN]"), 0, 0.0)]
  }

  /** The first row once its totals are added: one order, a spend of 90. */
  lemma FirstRowPrepared(raw: seq<CustomerRow>)
    requires TwoCustomers(raw)
    ensures var p := PrepareRows(raw)[0];
      && p.masterId == "c1" && p.lastOrderDate == 0 && p.interestedInCategories12 == Some("[KADIN]")
      && p.orderNumTotalEverOmnichannel == 1 && p.customerValueTotalEverOmnichannel == 90.0
  {
    PreparedRowAt(raw, 0);
  }

  /** The second row once its totals are added: five orders, a spend of 600. */
  lemma SecondRowPrepared(raw: seq<CustomerRow>)
    requires TwoCustomers(raw)
    ensures var p := PrepareRows(raw)[1];
      && p.masterId == "c2" && p.lastOrderDate == 30
      && p.orderNumTotalEverOmnichannel == 5 && p.customerValueTotalEverOmnichannel == 600.0
  {
    PreparedRowAt(raw, 1);
  }

  lemma PreparedRowAt(raw: seq<CustomerRow>, i: int)
    requires 0 <= i < |raw|
    ensures PrepareRows(raw)[i] == WithTotals(raw[i])
  {
  }

  /** The keys of the two rows, in order. */
  lemma TwoCustomersKeys(rows: seq<CustomerRow>)
    requires |rows| == 2 && rows[0].masterId == "c1" && rows[1].masterId == "c2"
    ensures Keys(rows) == ["c1", "c2"]
  {
    var init := rows[..1];
    assert init[..0] == [] && init[0].masterId == "c1";
    assert Keys(init) == Ordering.InsertKey("c1", Keys([]));
    assert Keys(init) == ["c1"];
    assert Keys(rows) == Ordering.InsertKey("c2", ["c1"]);
    assert "c2"[0] == "c1"[0] && "c2"[1..] == "2" && "c1"[1..] == "1";
    assert !Ordering.LexLess("c2", "c1");
    assert ["c1"][1..] == [];
    assert Ordering.InsertKey("c2", ["c1"]) == ["c1"] + Ordering.InsertKey("c2", []);
  }

  /**
   * On day 40 the two customers aggregate to Recency 40 and 10, Frequency
   * 1 and 5 and Monetary 90 and 600, c1 first.
   */
  lemma TwoCustomersTable(raw: seq<CustomerRow>)
    requires TwoCustomers(raw)
    ensures Aggregate(PrepareRows(raw), 40) == [RfmRecord("c1", 40, 1, 90.0), RfmRecord("c2", 10, 5, 600.0)]
  {
    FirstRowPrepared(raw);
    SecondRowPrepared(raw);
    TwoRowsAggregate(PrepareRows(raw));
  }

  lemma TwoRowsAggregate(rows: seq<CustomerRow>)
    requires |rows| == 2
    requires rows[0].masterId == "c1" && rows[0].lastOrderDate == 0
    requires rows[0].orderNumTotalEverOmnichannel == 1 && rows[0].customerValueTotalEverOmnichannel == 90.0
    requires rows[1].masterId == "c2" && rows[1].lastOrderDate == 30
    requires rows[1].orderNumTotalEverOmnichannel == 5 && rows[1].customerValueTotalEverOmnichannel == 600.0
    ensures Aggregate(rows, 40) == [RfmRecord("c1", 40, 1, 90.0), RfmRecord("c2", 10, 5, 600.0)]
  {
    TwoRowsRecord(rows, 0);
    TwoRowsRecord(rows, 1);
  }

  /** Each of the two rows is its customer's whole group, so its record copies it. */
  lemma TwoRowsRecord(rows: seq<CustomerRow>, k: int)
    requires |rows| == 2
    requires rows[0].masterId == "c1" && rows[0].lastOrderDate == 0
    requires rows[0].orderNumTotalEverOmnichannel == 1 && rows[0].customerValueTotalEverOmnichannel == 90.0
    requires rows[1].masterId == "c2" && rows[1].lastOrderDate == 30
    requires rows[1].orderNumTotalEverOmnichannel == 5 && rows[1].customerValueTotalEverOmnichannel == 600.0
    requires k == 0 || k == 1
    ensures |Aggregate(rows, 40)| == 2
    ensures Aggregate(rows, 40)[k] == RfmRecord(rows[k].masterId, 40 - rows[k].lastOrderDate,
      rows[k].orderNumTotalEverOmnichannel, rows[k].customerValueTotalEverOmnichannel)
  {
    assert "c1" != "c2" by { assert "c1"[1] != "c2"[1]; }
    assert forall j :: 0 <= j < |rows| && rows[j].masterId == rows[k].masterId ==> j == k;
    TwoCustomersKeys(rows);
    var a := Aggregate(rows, 40);
    assert a[k].masterId == Keys(rows)[k] == rows[k].masterId;
    OneRowRecord(rows, k, a[k]);
  }

  /** The record of a customer whose only row is row k. */
  lemma OneRowRecord(rows: seq<CustomerRow>, k: int, rec: RfmRecord)
    requires 0 <= k < |rows|
    requires forall j :: 0 <= j < |rows| && rows[j].masterId == rows[k].masterId ==> j == k
    requires rec.masterId == rows[k].masterId
    requires var g := Group(rows, rec.masterId);
      |g| > 0 && rec.recency == 40 - LatestOrder(g) && rec.frequency == SumOrders(g) && rec.monetary == SumValue(g)
    ensures rec == RfmRecord(rows[k].masterId, 40 - rows[k].lastOrderDate,
                             rows[k].orderNumTotalEverOmnichannel, rows[k].customerValueTotalEverOmnichannel)
  {
    GroupSingleton(rows, k);
    var g := Group(rows, rec.masterId);
    assert g[1..] == [];
  }

  /** What the scoring of the two customers depends on, c1 being older, less frequent and spending differently. */
  lemma TwoCustomersOrder(raw: seq<CustomerRow>)
    requires TwoCustomers(raw)
    ensures var a := Aggregate(PrepareRows(raw), 40);
      && |a| == 2 && a[0].masterId == "c1"
      && a[0].recency > a[1].recency && a[0].frequency < a[1].frequency && a[0].monetary != a[1].monetary
  {
    TwoCustomersTable(raw);
  }

  /** c1 scores 1 on recency and 1 on frequency, so the script puts it in `hibernating`. */
  lemma TwoCustomersScores(raw: seq<CustomerRow>)
    requires TwoCustomers(raw)
    ensures ScoreTable(Aggregate(PrepareRows(raw), 40)).Ok?
    ensures ScoreTable(Aggregate(PrepareRows(raw), 40)).value[0].masterId == "c1"
    ensures ScoreTable(Aggregate(PrepareRows(raw), 40)).value[0].segment == "hibernating"
  {
    var a := Aggregate(PrepareRows(raw), 40);
    TwoCustomersOrder(raw);
    OlderAndFewerHibernates(a);
  }

  /**
   * Of two customers with different Monetary, the one whose latest order is
   * older and who ordered less often scores 1 and 1 and is `hibernating`.
   */
  lemma OlderAndFewerHibernates(a: seq<RfmRecord>)
    requires |a| == 2 && a[0].recency > a[1].recency && a[0].frequency < a[1].frequency
    requires a[0].monetary != a[1].monetary
    ensures ScoreTable(a).Ok?
    ensures ScoreTable(a).value[0].masterId == a[0].masterId
    ensures ScoreTable(a).value[0].segment == "hibernating"
  {
    DistinctTableScores(a);
    FirstRecencyScore(a);
    FirstFrequencyScore(a);
  }

  lemma FirstRecencyScore(a: seq<RfmRecord>)
    requires |a| == 2 && a[0].recency > a[1].recency && ScoreTable(a).Ok?
    ensures ScoreTable(a).value[0].recencyScore == 1
  {
    OlderIsOldest(a);
    LeastRecentScoresOne(a, 0);
  }

  lemma OlderIsOldest(a: seq<RfmRecord>)
    requires |a| == 2 && a[0].recency > a[1].recency
    ensures forall k :: 0 <= k < |a| ==> a[k].recency <= a[0].recency
  {
  }

  lemma FirstFrequencyScore(a: seq<RfmRecord>)
    requires |a| == 2 && a[0].frequency < a[1].frequency && ScoreTable(a).Ok?
    ensures ScoreTable(a).value[0].frequencyScore == 1
  {
    FirstRankOne(a);
    FrequencyScoreOfRank(a, 0);
  }

  lemma FirstRankOne(a: seq<RfmRecord>)
    requires |a| == 2 && a[0].frequency < a[1].frequency
    ensures Ranking.Rank(FrequencyColumn(a), 0) == 1
  {
    var xs := FrequencyColumn(a);
    assert xs[0] < xs[1];
    assert !Ranking.Precedes(xs, 0, 0) && !Ranking.Precedes(xs, 1, 0);
    assert Ranking.CountPreceding(xs, 0, 1) == 0;
    assert Ranking.CountPreceding(xs, 0, 2) == 0;
  }

  /**
   * The input that shows the line 187 discrepancy: the script scores the
   * two customers, and c1, hibernating with a spend of 90, is in the brand
   * extract as written but not in the intended one.
   */
  lemma HibernatingKadinCustomer(raw: seq<CustomerRow>)
    requires TwoCustomers(raw)
    ensures Analyse(raw, 40).Ok?
    ensures "c1" in PremiumTargetsAsWritten(PrepareRows(raw))
    ensures "c1" !in Analyse(raw, 40).value.brandTargets
  {
    TwoCustomersAnalysed(raw);
    FirstCustomerWantsKadin(raw);
    HibernatingAsWritten(raw, 40, "c1");
  }

  /** A hibernating woman-category customer at the head of the report is only in the extract as written. */
  lemma HibernatingAsWritten(raw: seq<CustomerRow>, today: int, x: string)
    requires Analyse(raw, today).Ok? && |Analyse(raw, today).value.table| > 0
    requires Analyse(raw, today).value.table[0].masterId == x
    requires Analyse(raw, today).value.table[0].segment == "hibernating"
    requires WantsCategory(PrepareRows(raw), x)
    ensures x in PremiumTargetsAsWritten(PrepareRows(raw))
    ensures x !in Analyse(raw, today).value.brandTargets
  {
    HibernatingNotPremium();
    BrandExtractAsWritten(raw, today, 0);
  }

  lemma HibernatingNotPremium()
    ensures "hibernating" !in PremiumSegments
  {
    assert "hibernating"[0] != "champions"[0] && "hibernating"[0] != "loyal_customers"[0];
  }

  /** The script's report on the two customers lists c1 first, as `hibernating`. */
  lemma TwoCustomersAnalysed(raw: seq<CustomerRow>)
    requires TwoCustomers(raw)
    ensures Analyse(raw, 40).Ok?
    ensures |Analyse(raw, 40).value.table| > 0
    ensures Analyse(raw, 40).value.table[0].masterId == "c1"
    ensures Analyse(raw, 40).value.table[0].segment == "hibernating"
  {
    TwoCustomersScores(raw);
    assert Analyse(raw, 40).value.table == ScoreTable(Aggregate(PrepareRows(raw), 40)).value;
  }

  /** c1's row lists "[KADIN]", so c1 is a woman-category customer. */
  lemma FirstCustomerWantsKadin(raw: seq<CustomerRow>)
    requires TwoCustomers(raw)
    ensures WantsCategory(PrepareRows(raw), "c1")
  {
    var rows := PrepareRows(raw);
    KadinExamples();
    FirstRowPrepared(raw);
    assert rows[0].masterId == "c1" && CategoryMatches(rows[0].interestedInCategories12);
  }
}
