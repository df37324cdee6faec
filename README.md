# RFM customer segmentation for FLO, modelled in Dafny

`FLO_RFM.py` segments an omnichannel retailer's customers with RFM analysis.
It runs in these steps:

- It adds the omnichannel order count and spend to every row of the customer table.
- It aggregates the table per `master_id` into Recency, Frequency and Monetary. Recency is the days from a reference date back to the latest order.
- It scores each metric by a five-bin quantile cut:
  - Recency with the labels 5..1, so lower Recency scores higher;
  - Frequency through its first-seen rank;
  - Monetary with the labels 1..5.
- It joins the recency and frequency scores into a two-digit `rfm_score`.
- It maps that code to one of ten named segments through a table of regular expressions.
- It draws two customer extracts:
  - loyal, high-spending customers interested in the women's category (KADIN);
  - hibernating, about-to-sleep and new customers, for a discount campaign.

The model follows the script's structure, one module per stage:

| module | file | what it holds |
|---|---|---|
| `Wrappers` | wrappers.dfy | `Option` and `Result` |
| `Preparation` | preparation.dfy | the customer row, and `data_prepartion` as an in-place method over an array of rows |
| `Ordering` | ordering.dfy | Python's `str` ordering, which `groupby` uses to sort its keys |
| `Aggregation` | aggregation.dfy | `groupby("master_id").agg(...)`: one record per customer, in rising key order |
| `Quantile` | quantile.dfy | `pd.qcut(x, 5, labels)`: interpolated quantile edges, bins, and the non-unique-edges error |
| `Ranking` | ranking.dfy | `rank(method="first")` and the exact frequency bin edges `1 + (n-1)k/5` |
| `Segments` | segments.dfy | the composite code, `re.sub` over character-class patterns, and `seg_map` |
| `Scoring` | scoring.dfy | the three scores, the code and the segment of every record |
| `CaseFold` | casefold.dfy | `str.contains(pat, case=False)` as Python's `re` IGNORECASE search |
| `Extracts` | extracts.dfy | the two target lists |
| `Pipeline` | pipeline.dfy | the whole script on a table of rows |

Values are exact:

- Counts are `int`.
- Spends and quantile edges are `real`.
- Dates are whole day numbers.
- The reference date is a parameter `today`. The script uses 2021-06-01, day 18779 counted from 1970-01-01.

A failing `qcut` becomes `Err` rather than an exception. The error names the first column, in script order, whose edges are not unique.

## Model

| member | source | states |
|---|---|---|
| Preparation.WithTotals | FLO_RFM.py:97-99 | the row with its two omnichannel totals recomputed is prepared and agrees with the original on every other column |
| Preparation.PrepareRows | FLO_RFM.py:96-102 | the table `data_prepartion` leaves: one row per raw row, each prepared and agreeing with its raw row on every other column |
| Preparation.PrepareData | FLO_RFM.py:96-102 | the array afterwards holds `PrepareRows` of its old contents: every row gets its omnichannel totals recomputed in place, each row is prepared and every other column is unchanged |
| Preparation.TotalsPrepared | FLO_RFM.py:97-99 | recomputing the totals gives a prepared row that agrees on all other columns; a row is already prepared exactly when recomputing leaves it unchanged (idempotence) |
| Preparation.TotalsDominate | FLO_RFM.py:97-99 | with non-negative channel values, each omnichannel total is at least each of its two channels |
| Ordering.LexLess | FLO_RFM.py:126 | Python's `str` comparison, character by character with a proper prefix first; the three lemmas below make it a strict total order |
| Ordering.LexLessIrreflexive | FLO_RFM.py:126 | the key order puts no string before itself |
| Ordering.LexLessTransitive | FLO_RFM.py:126 | the key order is transitive |
| Ordering.LexLessTotal | FLO_RFM.py:126 | any two different keys are ordered one way or the other |
| Ordering.InsertKey | FLO_RFM.py:126 | adding a key to a strictly sorted key list keeps it strictly sorted and adds exactly that key |
| Aggregation.Keys | FLO_RFM.py:126 | the group keys are strictly rising, and a string is a key exactly when some row has that `master_id` |
| Aggregation.Group | FLO_RFM.py:126 | a customer's group holds exactly that customer's rows |
| Aggregation.GroupMultiplicity | FLO_RFM.py:126-130 | a group holds each of its customer's rows as many times as the table does, and no row of another customer |
| Aggregation.SumOrders | FLO_RFM.py:127-128 | Frequency is the sum of a group's omnichannel order counts; `SumsAppend` and `SumsPermutation` state its properties |
| Aggregation.SumValue | FLO_RFM.py:129-130 | Monetary is the sum of a group's omnichannel spends; `SumsAppend` and `SumsPermutation` state its properties |
| Aggregation.SumsAppend | FLO_RFM.py:127-130 | the sums over two row lists laid end to end are the sums of each |
| Aggregation.SumsPermutation | FLO_RFM.py:127-130 | two groups holding the same rows equally often have equal sums, in whatever order |
| Aggregation.GroupSumsOrderFree | FLO_RFM.py:126-130 | reordering the table's rows changes no customer's Frequency or Monetary |
| Aggregation.RecordOf | FLO_RFM.py:126-130 | a customer's record carries its `master_id` and is built from a non-empty group; `Aggregate` states its three metrics |
| Aggregation.LatestOrder | FLO_RFM.py:126 | the latest order date of a group is at least every row's date, and it is some row's date |
| Aggregation.Aggregate | FLO_RFM.py:126-131 | one record per key in key order: Recency is `today` minus the group's latest order, Frequency and Monetary are the group's sums |
| Aggregation.AggregateKeys | FLO_RFM.py:126 | the table is in strictly rising `master_id` order and has a record for exactly the customers of the input |
| Aggregation.OneRecordPerCustomer | FLO_RFM.py:126 | two records with the same `master_id` are the same record |
| Aggregation.RecencyNonNegative | FLO_RFM.py:121-126 | when no order is later than the reference date, no Recency is negative |
| Aggregation.SingleRowCustomer | FLO_RFM.py:126-130 | a customer with a single row gets that row's date difference, order count and spend |
| Aggregation.AggregateHead | FLO_RFM.py:130 | the table as written: the first `min(5, n)` records of the full aggregation |
| Aggregation.HeadLosesCustomers | FLO_RFM.py:130 | with six or more customers, the table as written has five records and omits some customer of the input |
| Quantile.Insert | FLO_RFM.py:136 | inserting into sorted values keeps them sorted and adds exactly that value to the multiset |
| Quantile.Sort | FLO_RFM.py:136 | the values qcut ranks are a sorted permutation of the column |
| Quantile.SortBrackets | FLO_RFM.py:136 | the first sorted value is the column's minimum and the last is its maximum |
| Quantile.SortStrict | FLO_RFM.py:136 | pairwise different values sort into a strictly rising sequence |
| Quantile.Interpolate | FLO_RFM.py:136 | the value at a virtual position between two order statistics, by linear interpolation; `InterpolateBetween` and `InterpolateMonotone` state its properties |
| Quantile.QuantileAt | FLO_RFM.py:136 | the k/5 quantile of sorted values, at virtual position (n-1)k/5; `QuantileEnds` and `QuantileStep` state its properties |
| Quantile.QuantileStep | FLO_RFM.py:136 | over sorted values, each fifth quantile is at most the next |
| Quantile.Edges | FLO_RFM.py:136 | a cut has six edges |
| Quantile.InterpolateBetween | FLO_RFM.py:136 | a linearly interpolated quantile lies between the two order statistics it is drawn from, strictly between when they differ |
| Quantile.InterpolateMonotone | FLO_RFM.py:136 | a later quantile position never gives a smaller value |
| Quantile.InterpolateStrict | FLO_RFM.py:136 | over strictly rising values, a strictly later position gives a strictly larger value |
| Quantile.QuantileEnds | FLO_RFM.py:136 | the 0 quantile is the first sorted value and the 1 quantile the last |
| Quantile.EdgesEnds | FLO_RFM.py:136 | the first edge is the column's minimum and the last its maximum |
| Quantile.EdgesSorted | FLO_RFM.py:136 | the six edges never decrease |
| Quantile.EdgesBracket | FLO_RFM.py:136 | every value of the column lies between the first and the last edge |
| Quantile.CountBelow | FLO_RFM.py:136 | the insertion index of a value into the edges is at most the number of edges |
| Quantile.Bin | FLO_RFM.py:136 | the bin of a value among six edges, right-closed with the lowest edge in bin 1; `BinBracket` and `BinMonotone` state its properties |
| Quantile.BinBracket | FLO_RFM.py:136 | over rising edges, a value in range falls in bin b of 1..5 with e[b-1] < x <= e[b], or is the first edge and falls in bin 1 |
| Quantile.BinMonotone | FLO_RFM.py:136 | a larger value never falls in a lower bin |
| Quantile.QCut | FLO_RFM.py:136-138 | the cut succeeds exactly when the edges are pairwise different; it then gives one label per value, and each is one of the labels |
| Quantile.QCutLabel | FLO_RFM.py:136-138 | each value gets the label of the bin it lies in, the first edge being in bin 1 |
| Quantile.QCutMonotone | FLO_RFM.py:136-138 | a value no larger than another never gets a higher bin |
| Quantile.QCutExtremes | FLO_RFM.py:136-138 | the column's minimum lands in bin 1 and its maximum in bin 5 |
| Quantile.DistinctValuesCut | FLO_RFM.py:136-138 | two or more pairwise different values always cut successfully |
| Quantile.EdgesRiseStrictly | FLO_RFM.py:136-138 | over two or more pairwise different values, successive edges rise strictly |
| Quantile.ConstantValuesFail | FLO_RFM.py:136-138 | a column whose values are all equal, or which is empty, cannot be cut |
| Ranking.Rank | FLO_RFM.py:137 | one plus the number of values smaller, or equal and earlier; `RankBounds` and `RankOrder` state its properties |
| Ranking.Ranks | FLO_RFM.py:137 | the rank column has one rank per customer |
| Ranking.RankBounds | FLO_RFM.py:137 | each rank is between 1 and n |
| Ranking.RankOrder | FLO_RFM.py:137 | for two different customers, one ranks lower exactly when its value is smaller, or equal and seen first; no two ranks coincide |
| Ranking.RanksPermutation | FLO_RFM.py:137 | the ranks are in 1..n and pairwise different, so they are a permutation of 1..n |
| Ranking.SortedRanks | FLO_RFM.py:137 | the sorted rank column is 1, 2, ..., n |
| Ranking.RankEdges | FLO_RFM.py:137 | the frequency edges are exactly 1 + (n-1)k/5 for k = 0..5 |
| Ranking.RanksDistinct | FLO_RFM.py:137 | the ranks as reals are pairwise different |
| Ranking.RankCutSucceeds | FLO_RFM.py:137 | the rank column can be cut exactly when there are at least two customers |
| Ranking.RankBin | FLO_RFM.py:137 | the bin of rank p among n customers is 1 when p = 1, and otherwise the b with (n-1)(b-1) < 5(p-1) <= (n-1)b |
| Segments.Digit | FLO_RFM.py:142 | `str` of a score 0..9 is the digit character of that value |
| Segments.RfmScore | FLO_RFM.py:142 | the code of two single-digit scores has two characters |
| Segments.ScoreRoundTrip | FLO_RFM.py:142 | decoding the code of (r, f) gives (r, f) back |
| Segments.DecodeRoundTrip | FLO_RFM.py:142 | a string that decodes to (r, f) is the code of (r, f) |
| Segments.RfmScoreInjective | FLO_RFM.py:142 | different score pairs get different codes |
| Segments.Sub | FLO_RFM.py:160 | `re.sub` leaves a string shorter than its pattern alone; a string as long as the pattern becomes the replacement when it matches and stays as it is otherwise |
| Segments.SubDigitFree | FLO_RFM.py:160 | `re.sub` with a digit-only pattern leaves a text without digits unchanged |
| Segments.ReplaceAll | FLO_RFM.py:160 | with digit-only patterns and digit-free names, the ordered replacement leaves a value without digits unchanged |
| Segments.ReplaceAllIsFirstMatch | FLO_RFM.py:147-160 | with digit-only patterns of the code's length, the ordered `re.sub` chain is a first-match-wins lookup: a replaced value is never matched again |
| Segments.Segment | FLO_RFM.py:160 | the segment of a code is `seg_map`'s ordered replacement applied to it, and a value without digits is left as it is |
| Segments.SegmentIsFirstMatch | FLO_RFM.py:147-160 | on a two-character code the segment is the name of the first `seg_map` rule that matches it, or the code itself when none does |
| Segments.SegMapDigitRules | FLO_RFM.py:147-158 | every `seg_map` pattern is two digit classes and no segment name holds a digit |
| Segments.ExactlyOneRule | FLO_RFM.py:147-158 | every code of two scores in 1..5 matches exactly one of the ten patterns |
| Segments.RuleIndex | FLO_RFM.py:147-158 | the decision table's segment is the name of a `seg_map` rule |
| Segments.FirstMatchOfUnique | FLO_RFM.py:160 | when only rule k matches, the first match is rule k's name |
| Segments.SegmentTable | FLO_RFM.py:147-160 | for scores in 1..5, the replacement gives the decision table's segment, one of the ten names |
| Segments.SegmentsOnto | FLO_RFM.py:147-158 | each of the ten names is the segment of some code |
| Scoring.ScoreTable | FLO_RFM.py:136-160 | scoring succeeds exactly when all three cuts do, and otherwise names the first failing column in script order; every record keeps its id and metrics, gets three scores in 1..5, the code of its recency and frequency scores, and that code's segment |
| Scoring.Assemble | FLO_RFM.py:136-160 | each assembled record carries the given labels, their code and its segment |
| Scoring.RecencyScoreBin | FLO_RFM.py:136 | the recency score is 6 minus the Recency bin (labels 5..1) |
| Scoring.FrequencyScoreBin | FLO_RFM.py:137 | the frequency score is the bin of the customer's first-seen rank |
| Scoring.MonetaryScoreBin | FLO_RFM.py:138 | the monetary score is the bin of the customer's Monetary |
| Scoring.RecencyScoreInverted | FLO_RFM.py:136 | lower Recency never scores lower, and equal Recency scores equally |
| Scoring.MostRecentScoresFive | FLO_RFM.py:136 | the customer with the least Recency scores 5 |
| Scoring.LeastRecentScoresOne | FLO_RFM.py:136 | the customer with the greatest Recency scores 1 |
| Scoring.MonetaryScoreMonotone | FLO_RFM.py:138 | larger Monetary never scores lower, and equal Monetary scores equally |
| Scoring.FrequencyScoreOfRank | FLO_RFM.py:137 | a scored table has at least two customers, and the frequency score of rank p is its rank bin |
| Scoring.FrequencyScoreMonotone | FLO_RFM.py:137 | a later rank, that is a larger Frequency or an equal one further down the table, never scores lower |
| Scoring.FrequencyCutNeedsTwo | FLO_RFM.py:137 | the frequency cut fails exactly when there are fewer than two customers |
| Scoring.DistinctTableScores | FLO_RFM.py:136-138 | two or more customers with pairwise different Recency and pairwise different Monetary are always scored |
| Scoring.SingleCustomerFails | FLO_RFM.py:136 | a single customer cannot be scored: the recency cut fails first |
| CaseFold.Lower | FLO_RFM.py:187 | simple lower case: ASCII capitals to small letters, U+0130 to i, U+212A to k, every other character unchanged |
| CaseFold.LetterMatches | FLO_RFM.py:187 | an ASCII capital pattern letter matches its two cases and, for I, S and K, the extra letters of Python's IGNORECASE |
| CaseFold.NonLetterMatches | FLO_RFM.py:187 | any other ASCII pattern character matches only itself |
| CaseFold.ContainsIgnoreCase | FLO_RFM.py:187 | the search succeeds exactly when the pattern matches at some position of the text |
| CaseFold.ExactOccurrence | FLO_RFM.py:187 | an exact occurrence is always found |
| CaseFold.CaseInsensitive | FLO_RFM.py:187 | changing the case of the text's ASCII letters never changes the answer |
| Extracts.Select | FLO_RFM.py:180-187 | the selected ids are no more than the records, an id is selected exactly when one of its records passes, and distinct records give distinct ids |
| Extracts.PremiumTargets | FLO_RFM.py:180-187 | an id is listed exactly when its record is a champion or loyal customer, with Monetary above 250 and a row mentioning KADIN; each listed once |
| Extracts.WinBackTargets | FLO_RFM.py:203-205 | an id is listed exactly when its record is hibernating, about to sleep or a new customer; each listed once |
| Extracts.ExtractsDisjoint | FLO_RFM.py:180-205 | with one record per customer, no customer is in both extracts |
| Extracts.PremiumTargetsAsWritten | FLO_RFM.py:187 | the extract as written lists exactly the customers with a row mentioning KADIN |
| Extracts.CategoryMatches | FLO_RFM.py:187 | a category list matches when it is present and contains KADIN in any case; `KadinExamples`, `NoKadinWithoutA` and `MenAndChildrenExcluded` state how it decides |
| Extracts.AsWrittenIgnoresSegment | FLO_RFM.py:180-187 | for any table with one record per customer, a customer whose record is outside champions and loyal customers, or has Monetary at most 250, but who has a row mentioning KADIN, is in the extract as written and not in the intended one |
| Extracts.KadinExamples | FLO_RFM.py:187 | "[KADIN]", "[AKTIFSPOR, kadin]" and "kadın" (dotless i) match; a missing list does not |
| Extracts.NoKadinWithoutA | FLO_RFM.py:187 | a list with no letter matching A never matches |
| Extracts.MenAndChildrenExcluded | FLO_RFM.py:187 | "[ERKEK, COCUK]" does not match |
| Pipeline.PrepareKeepsCustomers | FLO_RFM.py:96-103 | preparation keeps the set of customers |
| Pipeline.Analyse | FLO_RFM.py:96-205 | the script succeeds exactly when the aggregated table can be scored, and fails with the same column otherwise |
| Pipeline.ReportDistinct | FLO_RFM.py:126-160 | the scored table has one record per customer |
| Pipeline.ReportCustomers | FLO_RFM.py:126-160 | the scored table has a record for exactly the customers of the input |
| Pipeline.ReportExtracts | FLO_RFM.py:180-205 | both extracts list each customer once, share no customer, and name only customers of the input |
| Pipeline.BrandExtractAsWritten | FLO_RFM.py:180-187 | for any input the script scores, a scored customer outside the premium segments or with Monetary at most 250 who likes KADIN is in the extract as written and not in the report's brand extract |
| Pipeline.TwoCustomerRows | FLO_RFM.py:96-130 | the two-customer table below exists as complete rows |
| Pipeline.TwoCustomersTable | FLO_RFM.py:96-130 | on day 40 the two customers aggregate to Recency 40 and 10, Frequency 1 and 5, Monetary 90 and 600, c1 first |
| Pipeline.OlderAndFewerHibernates | FLO_RFM.py:136-160 | of two customers with different Monetary, the one with the older latest order and fewer orders scores 1 and 1 and is `hibernating` |
| Pipeline.HibernatingKadinCustomer | FLO_RFM.py:96-187 | on the two-customer table the script succeeds, and c1, hibernating with a spend of 90, is in the brand extract as written but not in the intended one |

## Left out

- Reading the CSV, the display options and writing the two CSV files (lines 43-47, 192, 210) are I/O. The extracts are returned as id lists.
- The exploration statements only display values and change nothing: lines 51-60, 70, 73, 76, 82-91, 120, 122, 132, 139, 143, 161 and 166. These include the channel summary and the top-ten customer lists.
- The top-level computation of the totals and the date conversion (lines 67-68 and 74-75) duplicates `data_prepartion`. It is modelled once, by `Preparation.PrepareData`.
- `pd.to_datetime` parsing is not modelled: dates are already whole day numbers, and `today` is a parameter.
- Floating point is not modelled. Quantiles, sums and the 250 comparison are exact reals, so results near a bin edge may differ from what float rounding gives.
- Missing values other than a missing category list are not modelled. A missing category list counts as no match (`na=False`).
- Lines 189 and 207 call `reset_index(drop=True)`. Under the modelled intent both frames are slices of `rfm`, whose index holds `master_id` after the `groupby`, so both calls drop the ids that lines 192 and 210 then write. The model keeps the ids: each extract is the list of ids the script means to write.
- Line 103 calls `data_preparation`, while line 96 defines `data_prepartion`. Line 184 reads a `monetary` column, while the column is `Monetary`. Lines 192 and 210 have an unterminated string literal. The model follows the evident intent in each case: prepare the data, compare Monetary, write the ids.
- `Pipeline.Analyse` uses the aggregation without the trailing `.head()` and the brand extract with all three filters. The as-written forms are modelled separately (see Findings).
- CaseFold.Lower: it is the simple lower-case mapping only on the characters whose lower case is an ASCII letter. That is all an ASCII pattern can match. All other characters map to themselves.
- The women's category is the literal `KADIN` that line 187 searches for. It is not translated.
- The order of the `seg_map` rules is modelled, but it never decides a segment. The ten patterns are disjoint on the codes of two scores in 1..5 (`Segments.ExactlyOneRule`).
- A small table is not an error in itself. `qcut` fails only when two edges coincide, so even two customers with distinct values are scored (`Quantile.DistinctValuesCut`, `Scoring.DistinctTableScores`).
- The segment name `at_Risk` keeps the source's spelling.

## Findings

| source | as written | input that shows it | evidently intended | confidence | as-written member | corrected member |
|---|---|---|---|---|---|---|
| FLO_RFM.py:130 | `.head()` after the aggregation keeps only the first five customers, so the scores, segments and both extracts cover at most five customers | any customer table with six or more distinct `master_id` values | the RFM table holds one record for every customer | not executed | Aggregation.HeadLosesCustomers | Aggregation.AggregateKeys |
| FLO_RFM.py:187 | the category filter is applied to `df`, discarding the segment and Monetary filters of lines 180-184 | two customers with "[KADIN]" in `interested_in_categories_12`, reference day 40: c1 last ordered on day 0, once, for 90; c2 on day 30, five times, for 600. c1 scores 1 on recency and on frequency and is hibernating, yet the extract as written lists it | champions and loyal customers with Monetary above 250 who like KADIN | not executed | Pipeline.HibernatingKadinCustomer | Extracts.PremiumTargets |
