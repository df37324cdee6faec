/**
 * The scored RFM table: `recency_score` (labels 5..1), `frequency_score`
 * (cut of the first-seen rank, labels 1..5), `monetary_score` (labels
 * 1..5), the composite `rfm_score` and the `segment` it maps to.
 */
module Scoring {
  import opened Wrappers
  import Quantile
  import Ranking
  import Segments
  import opened Aggregation

  /** The column whose cut failed. */
  datatype Metric = Recency | Frequency | Monetary

  datatype ScoredRecord = ScoredRecord(
    masterId: string,
    recency: int,
    frequency: int,
    monetary: real,
    recencyScore: int,
    frequencyScore: int,
    monetaryScore: int,
    rfmScore: string,
    segment: string)

  const RecencyLabels: seq<int> := [5, 4, 3, 2, 1]
  const ScoreLabels: seq<int> := [1, 2, 3, 4, 5]

  function RecencyColumn(t: seq<RfmRecord>): (c: seq<real>)
    ensures |c| == |t|
  {
    seq(|t|, i requires 0 <= i < |t| => t[i].recency as real)
  }

  function FrequencyColumn(t: seq<RfmRecord>): (c: seq<int>)
    ensures |c| == |t|
  {
    seq(|t|, i requires 0 <= i < |t| => t[i].frequency)
  }

  /** `rfm["Frequency"].rank(method="first")`. */
  function FrequencyRanks(t: seq<RfmRecord>): (c: seq<real>)
    ensures |c| == |t|
  {
    Ranking.RanksAsReals(FrequencyColumn(t))
  }

  function MonetaryColumn(t: seq<RfmRecord>): (c: seq<real>)
    ensures |c| == |t|
  {
    seq(|t|, i requires 0 <= i < |t| => t[i].monetary)
  }

  /**
   * Lines 136-142 and 160: the three cuts in script order (the first one
   * that fails stops the script), then the code and the segment of every
   * record. The segment agrees with the decision table on the two scores.
   */
  function ScoreTable(t: seq<RfmRecord>): (r: Result<seq<ScoredRecord>, Metric>)
    ensures r.Ok? <==> Quantile.CutSucceeds(RecencyColumn(t)) && Quantile.CutSucceeds(FrequencyRanks(t))
                       && Quantile.CutSucceeds(MonetaryColumn(t))
    ensures r.Err? ==> r.error == (if !Quantile.CutSucceeds(RecencyColumn(t)) then Recency
                                   else if !Quantile.CutSucceeds(FrequencyRanks(t)) then Frequency
                                   else Monetary)
    ensures r.Ok? ==> |r.value| == |t|
    ensures r.Ok? ==> forall i :: 0 <= i < |t| ==>
      var s := r.value[i];
      && s.masterId == t[i].masterId && s.recency == t[i].recency
      && s.frequency == t[i].frequency && s.monetary == t[i].monetary
      && 1 <= s.recencyScore <= 5 && 1 <= s.frequencyScore <= 5 && 1 <= s.monetaryScore <= 5
      && s.rfmScore == Segments.RfmScore(s.recencyScore, s.frequencyScore)
      && s.segment == Segments.SegmentOf(s.recencyScore, s.frequencyScore)
      && s.segment in Segments.SegmentNames
  {
    match Quantile.QCut(RecencyColumn(t), RecencyLabels)
    case Err(_) => Err(Recency)
    case Ok(rs) =>
      match Quantile.QCut(FrequencyRanks(t), ScoreLabels)
      case Err(_) => Err(Frequency)
      case Ok(fs) =>
        match Quantile.QCut(MonetaryColumn(t), ScoreLabels)
        case Err(_) => Err(Monetary)
        case Ok(ms) => Ok(Assemble(t, rs, fs, ms))
  }

  /** The scored table from the three label columns. */
  function Assemble(t: seq<RfmRecord>, rs: seq<int>, fs: seq<int>, ms: seq<int>): (st: seq<ScoredRecord>)
    requires |rs| == |t| && |fs| == |t| && |ms| == |t|
    requires forall i :: 0 <= i < |t| ==> rs[i] in RecencyLabels && fs[i] in ScoreLabels && ms[i] in ScoreLabels
    ensures |st| == |t|
    ensures forall i :: 0 <= i < |t| ==>
      var s := st[i];
      && s.masterId == t[i].masterId && s.recency == t[i].recency
      && s.frequency == t[i].frequency && s.monetary == t[i].monetary
      && s.recencyScore == rs[i] && s.frequencyScore == fs[i] && s.monetaryScore == ms[i]
      && 1 <= s.recencyScore <= 5 && 1 <= s.frequencyScore <= 5 && 1 <= s.monetaryScore <= 5
      && s.rfmScore == Segments.RfmScore(s.recencyScore, s.frequencyScore)
      && s.segment == Segments.SegmentOf(s.recencyScore, s.frequencyScore)
      && s.segment in Segments.SegmentNames
  {
    seq(|t|, i requires 0 <= i < |t| => Scored(t[i], rs[i], fs[i], ms[i]))
  }

  /** One scored record: the code of its two scores and that code's segment. */
  function Scored(rec: RfmRecord, r: int, f: int, m: int): (s: ScoredRecord)
    requires r in RecencyLabels && f in ScoreLabels && m in ScoreLabels
    ensures s == ScoredRecord(rec.masterId, rec.recency, rec.frequency, rec.monetary, r, f, m,
                              Segments.RfmScore(r, f), s.segment)
    ensures 1 <= r <= 5 && 1 <= f <= 5 && 1 <= m <= 5
    ensures s.segment == Segments.SegmentOf(r, f) && s.segment in Segments.SegmentNames
  {
    var code := Segments.RfmScore(r, f);
    Segments.SegmentTable(r, f);
    ScoredRecord(rec.masterId, rec.recency, rec.frequency, rec.monetary, r, f, m, code, Segments.Segment(code))
  }

  /** The bin of record i's value in a column that was cut. */
  function BinOf(c: seq<real>, i: int): int
    requires |c| > 0 && 0 <= i < |c|
  {
    Quantile.Bin(Quantile.Edges(c), c[i])
  }

  /** A table that scores is the assembly of its three cuts. */
  lemma ScoreTableCuts(t: seq<RfmRecord>)
    requires ScoreTable(t).Ok?
    ensures Quantile.QCut(RecencyColumn(t), RecencyLabels).Ok?
    ensures Quantile.QCut(FrequencyRanks(t), ScoreLabels).Ok?
    ensures Quantile.QCut(MonetaryColumn(t), ScoreLabels).Ok?
    ensures ScoreTable(t).value == Assemble(t, Quantile.QCut(RecencyColumn(t), RecencyLabels).value,
                                            Quantile.QCut(FrequencyRanks(t), ScoreLabels).value,
                                            Quantile.QCut(MonetaryColumn(t), ScoreLabels).value)
  {
  }

  /** The recency score is its bin counted from the top: labels 5, 4, 3, 2, 1. */
  lemma RecencyScoreBin(t: seq<RfmRecord>, i: int)
    requires ScoreTable(t).Ok? && 0 <= i < |t|
    ensures ScoreTable(t).value[i].recencyScore == 6 - BinOf(RecencyColumn(t), i)
  {
    RecencyScoreIsCut(t, i);
    InvertedLabel(RecencyColumn(t), i);
  }

  lemma RecencyScoreIsCut(t: seq<RfmRecord>, i: int)
    requires ScoreTable(t).Ok? && 0 <= i < |t|
    ensures Quantile.QCut(RecencyColumn(t), RecencyLabels).Ok?
    ensures ScoreTable(t).value[i].recencyScore == Quantile.QCut(RecencyColumn(t), RecencyLabels).value[i]
  {
    ScoreTableCuts(t);
    var rs, fs, ms := Quantile.QCut(RecencyColumn(t), RecencyLabels).value, Quantile.QCut(FrequencyRanks(t), ScoreLabels).value,
                      Quantile.QCut(MonetaryColumn(t), ScoreLabels).value;
    AssembledScores(t, rs, fs, ms, i);
  }

  /** Under the inverted labels, bin b is labelled 6 - b. */
  lemma InvertedLabel(c: seq<real>, i: int)
    requires Quantile.QCut(c, RecencyLabels).Ok? && 0 <= i < |c|
    ensures Quantile.QCut(c, RecencyLabels).value[i] == 6 - BinOf(c, i)
  {
    LabelledBin(c, RecencyLabels, i);
    LabelValues(BinOf(c, i));
  }

  /** The frequency score is the bin of the customer's rank. */
  lemma FrequencyScoreBin(t: seq<RfmRecord>, i: int)
    requires ScoreTable(t).Ok? && 0 <= i < |t|
    ensures ScoreTable(t).value[i].frequencyScore == BinOf(FrequencyRanks(t), i)
  {
    OtherScoresAreCuts(t, i);
    PlainLabel(FrequencyRanks(t), i);
  }

  /** The monetary score is the bin of the customer's Monetary. */
  lemma MonetaryScoreBin(t: seq<RfmRecord>, i: int)
    requires ScoreTable(t).Ok? && 0 <= i < |t|
    ensures ScoreTable(t).value[i].monetaryScore == BinOf(MonetaryColumn(t), i)
  {
    OtherScoresAreCuts(t, i);
    PlainLabel(MonetaryColumn(t), i);
  }

  lemma OtherScoresAreCuts(t: seq<RfmRecord>, i: int)
    requires ScoreTable(t).Ok? && 0 <= i < |t|
    ensures Quantile.QCut(FrequencyRanks(t), ScoreLabels).Ok? && Quantile.QCut(MonetaryColumn(t), ScoreLabels).Ok?
    ensures ScoreTable(t).value[i].frequencyScore == Quantile.QCut(FrequencyRanks(t), ScoreLabels).value[i]
    ensures ScoreTable(t).value[i].monetaryScore == Quantile.QCut(MonetaryColumn(t), ScoreLabels).value[i]
  {
    ScoreTableCuts(t);
    var rs, fs, ms := Quantile.QCut(RecencyColumn(t), RecencyLabels).value, Quantile.QCut(FrequencyRanks(t), ScoreLabels).value,
                      Quantile.QCut(MonetaryColumn(t), ScoreLabels).value;
    AssembledScores(t, rs, fs, ms, i);
  }

  /** Under the labels 1..5, bin b is labelled b. */
  lemma PlainLabel(c: seq<real>, i: int)
    requires Quantile.QCut(c, ScoreLabels).Ok? && 0 <= i < |c|
    ensures Quantile.QCut(c, ScoreLabels).value[i] == BinOf(c, i)
  {
    LabelledBin(c, ScoreLabels, i);
    LabelValues(BinOf(c, i));
  }

  lemma LabelValues(b: int)
    requires 1 <= b <= 5
    ensures RecencyLabels[b - 1] == 6 - b && ScoreLabels[b - 1] == b
  {
  }

  lemma AssembledScores(t: seq<RfmRecord>, rs: seq<int>, fs: seq<int>, ms: seq<int>, i: int)
    requires |rs| == |t| && |fs| == |t| && |ms| == |t|
    requires forall i :: 0 <= i < |t| ==> rs[i] in RecencyLabels && fs[i] in ScoreLabels && ms[i] in ScoreLabels
    requires 0 <= i < |t|
    ensures Assemble(t, rs, fs, ms)[i].recencyScore == rs[i]
    ensures Assemble(t, rs, fs, ms)[i].frequencyScore == fs[i]
    ensures Assemble(t, rs, fs, ms)[i].monetaryScore == ms[i]
  {
  }

  /** The label QCut gives record i is the label of its bin. */
  lemma LabelledBin(c: seq<real>, labels: seq<int>, i: int)
    requires |labels| == 5 && Quantile.QCut(c, labels).Ok? && 0 <= i < |c|
    ensures 1 <= BinOf(c, i) <= 5
    ensures Quantile.QCut(c, labels).value[i] == labels[BinOf(c, i) - 1]
  {
    Quantile.QCutLabel(c, labels, i);
  }

  /**
   * Recency scoring is inverted: a customer who bought more recently
   * (smaller Recency) never scores lower, and equal Recency scores equally.
   */
  lemma RecencyScoreInverted(t: seq<RfmRecord>, i: int, j: int)
    requires ScoreTable(t).Ok? && 0 <= i < |t| && 0 <= j < |t|
    requires t[i].recency <= t[j].recency
    ensures ScoreTable(t).value[i].recencyScore >= ScoreTable(t).value[j].recencyScore
    ensures t[i].recency == t[j].recency ==>
              ScoreTable(t).value[i].recencyScore == ScoreTable(t).value[j].recencyScore
  {
    RecencyScoreBin(t, i);
    RecencyScoreBin(t, j);
    Quantile.QCutMonotone(RecencyColumn(t), RecencyLabels, i, j);
    if t[i].recency == t[j].recency {
      Quantile.QCutMonotone(RecencyColumn(t), RecencyLabels, j, i);
    }
  }

  /** The customer with the most recent purchase (least Recency) scores 5. */
  lemma MostRecentScoresFive(t: seq<RfmRecord>, i: int)
    requires ScoreTable(t).Ok? && 0 <= i < |t|
    requires forall k :: 0 <= k < |t| ==> t[i].recency <= t[k].recency
    ensures ScoreTable(t).value[i].recencyScore == 5
  {
    RecencyScoreIsCut(t, i);
    RecencyScoreBin(t, i);
    LeastRecencyFirstBin(t, i);
  }

  lemma LeastRecencyFirstBin(t: seq<RfmRecord>, i: int)
    requires Quantile.QCut(RecencyColumn(t), RecencyLabels).Ok? && 0 <= i < |t|
    requires forall k :: 0 <= k < |t| ==> t[i].recency <= t[k].recency
    ensures BinOf(RecencyColumn(t), i) == 1
  {
    RecencyColumnExtremes(t, i);
    Quantile.QCutExtremes(RecencyColumn(t), RecencyLabels, i);
  }

  lemma GreatestRecencyLastBin(t: seq<RfmRecord>, i: int)
    requires Quantile.QCut(RecencyColumn(t), RecencyLabels).Ok? && 0 <= i < |t|
    requires forall k :: 0 <= k < |t| ==> t[k].recency <= t[i].recency
    ensures BinOf(RecencyColumn(t), i) == 5
  {
    RecencyColumnExtremes(t, i);
    Quantile.QCutExtremes(RecencyColumn(t), RecencyLabels, i);
  }

  /** The customer with the oldest latest purchase (greatest Recency) scores 1. */
  lemma LeastRecentScoresOne(t: seq<RfmRecord>, i: int)
    requires ScoreTable(t).Ok? && 0 <= i < |t|
    requires forall k :: 0 <= k < |t| ==> t[k].recency <= t[i].recency
    ensures ScoreTable(t).value[i].recencyScore == 1
  {
    RecencyScoreIsCut(t, i);
    RecencyScoreBin(t, i);
    GreatestRecencyLastBin(t, i);
  }

  /** A customer with the least (greatest) Recency has the least (greatest) value of the column. */
  lemma RecencyColumnExtremes(t: seq<RfmRecord>, i: int)
    requires 0 <= i < |t|
    ensures (forall k :: 0 <= k < |t| ==> t[i].recency <= t[k].recency) ==>
              forall k :: 0 <= k < |t| ==> RecencyColumn(t)[i] <= RecencyColumn(t)[k]
    ensures (forall k :: 0 <= k < |t| ==> t[k].recency <= t[i].recency) ==>
              forall k :: 0 <= k < |t| ==> RecencyColumn(t)[k] <= RecencyColumn(t)[i]
  {
  }

  /** A larger Monetary never scores lower, and equal Monetary scores equally. */
  lemma MonetaryScoreMonotone(t: seq<RfmRecord>, i: int, j: int)
    requires ScoreTable(t).Ok? && 0 <= i < |t| && 0 <= j < |t|
    requires t[i].monetary <= t[j].monetary
    ensures ScoreTable(t).value[i].monetaryScore <= ScoreTable(t).value[j].monetaryScore
    ensures t[i].monetary == t[j].monetary ==>
              ScoreTable(t).value[i].monetaryScore == ScoreTable(t).value[j].monetaryScore
  {
    MonetaryScoreBin(t, i);
    MonetaryScoreBin(t, j);
    Quantile.QCutMonotone(MonetaryColumn(t), ScoreLabels, i, j);
    if t[i].monetary == t[j].monetary {
      Quantile.QCutMonotone(MonetaryColumn(t), ScoreLabels, j, i);
    }
  }

  /**
   * Frequency scoring follows the first-seen rank p of the n >= 2 customers:
   * score 1 at p = 1, otherwise the score b with (n-1)(b-1) < 5(p-1) <= (n-1)b.
   */
  lemma FrequencyScoreOfRank(t: seq<RfmRecord>, i: int)
    requires ScoreTable(t).Ok? && 0 <= i < |t|
    ensures |t| >= 2
    ensures Ranking.RankBinBounds(|t|, Ranking.Rank(FrequencyColumn(t), i), ScoreTable(t).value[i].frequencyScore)
  {
    var xs, fc := FrequencyColumn(t), FrequencyRanks(t);
    FrequencyCutNeedsTwo(t);
    FrequencyScoreBin(t, i);
    assert fc == Ranking.RanksAsReals(xs);
    assert fc[i] == Ranking.Rank(xs, i) as real;
    var n, p, b := |xs|, Ranking.Rank(xs, i), Quantile.Bin(Quantile.Edges(fc), fc[i]);
    assert ScoreTable(t).value[i].frequencyScore == b;
    assert n == |t|;
    Ranking.RankBin(xs, i);
  }

  /**
   * A later first-seen rank never scores lower: a larger Frequency, or an
   * equal one further down the table, gets at least the same score.
   */
  lemma FrequencyScoreMonotone(t: seq<RfmRecord>, i: int, j: int)
    requires ScoreTable(t).Ok? && 0 <= i < |t| && 0 <= j < |t|
    ensures Ranking.Rank(FrequencyColumn(t), i) <= Ranking.Rank(FrequencyColumn(t), j) ==>
              ScoreTable(t).value[i].frequencyScore <= ScoreTable(t).value[j].frequencyScore
    ensures t[i].frequency < t[j].frequency || (t[i].frequency == t[j].frequency && i <= j) ==>
              ScoreTable(t).value[i].frequencyScore <= ScoreTable(t).value[j].frequencyScore
  {
    var xs, fc := FrequencyColumn(t), FrequencyRanks(t);
    FrequencyScoreBin(t, i);
    FrequencyScoreBin(t, j);
    assert fc[i] == Ranking.Rank(xs, i) as real && fc[j] == Ranking.Rank(xs, j) as real;
    if Ranking.Rank(xs, i) <= Ranking.Rank(xs, j) {
      Quantile.QCutMonotone(fc, ScoreLabels, i, j);
    }
    if i != j && (t[i].frequency < t[j].frequency || (t[i].frequency == t[j].frequency && i <= j)) {
      assert xs[i] == t[i].frequency && xs[j] == t[j].frequency;
      Ranking.RankOrder(xs, i, j);
    }
  }

  /** The frequency cut fails exactly when the table has fewer than two customers. */
  lemma FrequencyCutNeedsTwo(t: seq<RfmRecord>)
    ensures Quantile.CutSucceeds(FrequencyRanks(t)) <==> |t| >= 2
  {
    Ranking.RankCutSucceeds(FrequencyColumn(t));
  }

  /**
   * Two or more customers whose Recency values are all different and whose
   * Monetary values are all different can always be scored, however few
   * they are.
   */
  lemma DistinctTableScores(t: seq<RfmRecord>)
    requires |t| >= 2
    requires forall i, j :: 0 <= i < j < |t| ==> t[i].recency != t[j].recency && t[i].monetary != t[j].monetary
    ensures ScoreTable(t).Ok?
  {
    var rc, mc := RecencyColumn(t), MonetaryColumn(t);
    assert Quantile.AllDistinct(rc) by {
      forall i, j | 0 <= i < j < |t| ensures rc[i] != rc[j] {
        assert rc[i] == t[i].recency as real && rc[j] == t[j].recency as real;
      }
    }
    assert Quantile.AllDistinct(mc) by {
      forall i, j | 0 <= i < j < |t| ensures mc[i] != mc[j] {
        assert mc[i] == t[i].monetary && mc[j] == t[j].monetary;
      }
    }
    Quantile.DistinctValuesCut(rc);
    Quantile.DistinctValuesCut(mc);
    FrequencyCutNeedsTwo(t);
  }

  /** A table with a single customer cannot be scored: its recency edges coincide. */
  lemma SingleCustomerFails(t: seq<RfmRecord>)
    requires |t| == 1
    ensures ScoreTable(t) == Err(Recency)
  {
    Quantile.ConstantValuesFail(RecencyColumn(t));
  }
}
