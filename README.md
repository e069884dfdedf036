# Heart-disease prediction service: analytics tracker and dashboard transforms

This project models the analytics core of a heart-disease prediction service (a FastAPI
backend with a React dashboard) and proves properties of it.

## What is modelled

**The analytics tracker** (`Analytics`, app/analytics.py) is a class. It holds:

- the running counters `total`, `highRisk`, `lowRisk`, `outlierCount` and `confidenceSum`;
- a history of at most 500 records that drops the oldest one when full;
- the training baseline statistics.

Recording a prediction updates the class in place. Its invariant `Valid` says:

- the two risk counters add up to the total;
- the outlier count is at most the total;
- the history holds the newest `min(total, 500)` records.

The class also models the other tracker operations:

- the statistics;
- the history slice, with Python's negative-index slicing;
- the spike detector: the high-risk rate of the last 20 records against that of the older records, with a default baseline of 0.5, a zero-baseline guard of 0.01 and a threshold of 2.0;
- the feature-shift analysis: keep features shifted by more than 0.5 baseline deviations, sort them stably by magnitude, and keep five.

The loop over the feature names (`CollectShifts`) is a method proved equal to its specification function.

**The API** (`Api`, app/main.py) covers:

- `/predict`, with its guard order: 422 on a body the schema rejects, then 503 with no model loaded, then 500 when prediction fails before anything is recorded, then recording, then 500 when the response cannot be built;
- the history and spike endpoints;
- the feature-importance endpoint: a stable descending sort, and 404 when there is no data.

**The input schema** (`Schemas`, app/schemas.py) covers:

- the 13 input fields as a validation predicate with inclusive bounds, integer fields accepting only whole numbers;
- the response records with their defaults.

**Model comparison** (`Compare`, ml/compare.py) covers:

- the first-wins arg-max of the F1 score, a method with a loop;
- the stride-based thinning of the ROC arrays.

**The comparison report as the dashboard reads it** (`Payload`) is the JSON that `/model/performance` serves. Every field is optional.

**The dashboard transforms**, one module per component:

- `Timeline`: per-minute bucketing of the history, a loop over a table updated in place, then the last 30 buckets.
- `RocCurve`: merging every model's samples onto a shared fpr axis within a tolerance of 0.001, sorting by fpr, and adding the diagonal. These are loops over rows updated in place, proved equal to specification functions.
- `ConfusionMatrix`: four cells with counts and whole percentages.
- `SpikeAlert`: whether the alert is hidden, quiet or active; the three shift bars; the rate panel.
- `FeatureImportance`: the first 13 entries and their colour ramp.
- `ModelComparison`: pivoting metrics by models, a loop filling each row, plus the labels, badge and bar colours.
- `StatsCards`: the four cards.

**Representation choices**

- JavaScript objects and Python dicts whose key order matters are insertion-ordered sequences of key/value pairs (`Common.Keys`, `Lookup`, `Assign`).
- A JavaScript `undefined` or `NaN` result is `None`. JSON `null` and an absent key differ where the source tells them apart (`Common.Nullable`).
- `Math.round` is `RoundHalfUp`, the whole number `r` with `r - 0.5 <= x < r + 0.5`.
- Rates, means and percentages are exact reals.
- Python's `sorted(..., reverse=True)`, `list.sort(reverse=True)` and JavaScript's `Array.prototype.sort` are all stable. They are modelled by one stable insertion sort, `Sorting.SortDescending`, which is given a sort key; an ascending sort uses the negated key.
- The feature list `FEATURE_NAMES` (ml/train.py:38-41) is the 13 input field names in schema order.

## Model

| member | source | states |
|---|---|---|
| Common.RoundHalfUp | frontend/src/components/ConfusionMatrix.jsx:14 | `Math.round`: the result is the whole number whose half-open interval [r - 0.5, r + 0.5) holds x |
| Common.PySliceFrom | app/analytics.py:117 | Python `items[k:]`: a non-negative k drops the first k items; a negative k keeps the last -k items, or all of them |
| Common.AssignThenLookup | frontend/src/components/ModelComparison.jsx:16 | after `obj[k] = v`, reading k gives v and every other key reads as before |
| Common.AssignTwice | frontend/src/components/ROCCurve.jsx:21 | assigning a key twice leaves only the second value, at the key's first position |
| Sorting.SortDescending | app/main.py:281 | the result is a permutation of the input (same multiset and length), ordered non-increasingly by the key |
| Sorting.SortIsStable | app/main.py:281 | elements with equal keys keep their original relative order |
| Sorting.SortKeepsPairwise | frontend/src/components/ROCCurve.jsx:31 | a relation that holds between every two distinct positions still holds after sorting |
| Analytics.HighRiskCount | app/analytics.py:135 | the number of records with prediction 1 is at most the number of records |
| Analytics.HighRiskCountConcat | app/analytics.py:135 | the high-risk count of two concatenated runs of records is the sum of their counts |
| Analytics.HighRiskCountExtremes | app/analytics.py:135 | the count equals the length iff every prediction is 1, and is 0 iff none is |
| Analytics.HighRiskRate | app/analytics.py:135 | the high-risk rate of a non-empty window lies in [0, 1] |
| Analytics.BaselineRate | app/analytics.py:137-150 | the baseline lies in (0, 1] and is the default 0.5 when the history holds exactly 20 records |
| Analytics.ZeroBaseline | app/analytics.py:148-150 | when no record before the last 20 is high-risk, the baseline is the guard value 0.01 |
| Analytics.BoundedAppend | app/analytics.py:50 | appending to the bounded history gives length min(n + 1, 500), the new record last, and the newest older records before it |
| Analytics.BoundedAppendDropsOnlyTheOldest | app/analytics.py:86-92 | below capacity the record is simply appended; at capacity the oldest record is dropped and nothing else |
| Analytics.BoundedAppendCounts | app/analytics.py:86-92 | appending adds at most one high-risk record (only if the new prediction is 1) and at most one low-risk record (only otherwise) |
| Analytics.RecordedFeatures | app/analytics.py:91 | the stored features have exactly the 13 feature names as keys, each holding the request's value or None when the request lacks it |
| Analytics.BaselineScale | app/analytics.py:196-199 | the scale of a shift is never zero: a missing or zero standard deviation becomes 1.0 |
| Analytics.Mean | app/analytics.py:193 | the mean times the number of values is their sum |
| Analytics.Shift | app/analytics.py:201 | the shift times the scale is the distance between the window mean and the baseline mean |
| Analytics.Candidate | app/analytics.py:186-210 | a feature with no values in the window is never reported. Otherwise it is reported iff its shift, taken from the window mean and the baseline mean (the window mean when the baseline has none), exceeds 0.5; the entry then carries the feature, that shift and both means |
| Analytics.CandidateMeasuresTheShift | app/analytics.py:201-209 | a reported magnitude times the scale equals the distance between the means, and the direction is "increased" iff the recent mean is higher |
| Analytics.NoBaselineMeanNoShift | app/analytics.py:195 | a feature without a baseline mean is compared with its own window mean and is never reported |
| Analytics.ShiftCandidates | app/analytics.py:184-210 | no more entries than names; every entry is one of the names and shifted by more than 0.5 |
| Analytics.QualifyingNameIsCollected | app/analytics.py:185-210 | every name whose candidate is reported has that candidate in the collected list |
| Analytics.CollectedIsAQualifyingName | app/analytics.py:185-210 | every collected entry is the reported candidate of one of the names |
| Analytics.ShiftCandidatesAreTheQualifyingNames | app/analytics.py:185-210 | an entry is collected iff it is the reported candidate of one of the names |
| Analytics.CollectShifts | app/analytics.py:184-210 | the loop over the feature names collects exactly the candidates of the specification |
| Analytics.CandidatesFollowNames | app/analytics.py:185 | with distinct names, the candidates come in the order of the feature names |
| Analytics.FeatureNamesDistinct | ml/train.py:38-41 | the 13 feature names are distinct |
| Analytics.RankedShiftsAreSignificantAndOrdered | app/analytics.py:203-213 | every ranked feature is shifted by more than 0.5, and magnitudes are non-increasing |
| Analytics.RankedShiftsAreStableAndDistinct | app/analytics.py:213 | equal magnitudes keep the feature-name order, and no feature is ranked twice |
| Analytics.AnalyticsTracker.constructor | app/analytics.py:45-56 | a new tracker has zero counters, an empty history and the given baseline statistics, and satisfies the invariant |
| Analytics.AnalyticsTracker.RecordPrediction | app/analytics.py:68-92 | total goes up by 1 and exactly one of highRisk (prediction 1) and lowRisk (anything else) goes up by 1. The outlier count goes up iff the input is an outlier, the probability is added to the confidence sum, and the record is appended to the bounded history. The invariant is kept |
| Analytics.AnalyticsTracker.GetStats | app/analytics.py:94-111 | the counts are reported unchanged, and high + low = total. Both rates are 0.0 with no predictions. Otherwise rate × total = highRisk and mean confidence × total = confidence sum; the rate lies in [0, 1] |
| Analytics.AnalyticsTracker.GetHistory | app/analytics.py:113-117 | for limit ≥ 1, the last min(limit, n) records in order. `items[-0:]` makes limit 0 return everything, and a negative limit drops records from the front |
| Analytics.AnalyticsTracker.DetectSpike | app/analytics.py:119-166 | under 20 records: not detected, score 0, the "Insufficient data" message, the current size and the required 20. Otherwise the score is the recent rate over the baseline, and a spike is detected iff the recent rate ≥ 2 × baseline; the message follows the verdict |
| Analytics.AnalyticsTracker.AnalyzeSpike | app/analytics.py:168-233 | no spike: no features and the fixed explanation. On a spike: the first five ranked shifts, the explanation of the ranking, and the verdict |
| Analytics.FullWindowSpikeNeedsAllHighRisk | app/analytics.py:133-153 | with exactly 20 records, a spike is detected iff all 20 are high-risk |
| Analytics.ZeroBaselineSpikesOnAnyHighRisk | app/analytics.py:137-153 | when no older record is high-risk, the baseline is 0.01 and a single high-risk record in the window is a spike |
| Analytics.FreshTrackerReportsDefaults | app/analytics.py:94-111 | a tracker with no predictions reports the all-zero statistics response |
| Api.MakePrediction | app/main.py:162-212 | The guards apply in this order: a rejected body gives 422; no model gives 503; prediction raising or missing `is_outlier` gives 500. In all three cases the tracker is unchanged. Otherwise the prediction is recorded: total, high-risk, low-risk, outlier count, confidence sum and history are updated and the baseline statistics are unchanged. The response is 200 iff the remaining fields are present and the probability lies in [0, 1], else 500 |
| Api.PredictionReply | app/main.py:202-211 | the reply to a recorded prediction is 200 iff the anomaly score and contributions are present and the probability lies in [0, 1]; it then carries the result with status "success", otherwise it is 500 |
| Api.HistoryEndpoint | app/main.py:234-238 | without a limit, the last 200 records; with one, the tracker's slice for it |
| Api.SpikesEndpoint | app/main.py:241-245 | the response carries the tracker's verdict and score. Under 20 records it is the response model's defaults with the short-history message and the record count; from 20 on it carries the tracker's message and both of its rates, with window size 20 |
| Api.Entries | app/main.py:283 | one entry per pair, with its own name and importance |
| Api.FeatureImportanceEndpoint | app/main.py:271-284 | 404 iff the mapping is missing or empty; otherwise one entry per mapping item |
| Api.ImportanceIsSortedPermutation | app/main.py:281-284 | the entries are ordered by non-increasing importance and are a permutation of the mapping's (name, importance) pairs |
| Api.EqualImportancesKeepMappingOrder | app/main.py:281 | entries of equal importance keep the mapping's order |
| Api.NoNameIsReturnedTwice | app/main.py:281-284 | no feature name appears twice |
| Schemas.ValidateFields | app/schemas.py:22-67 | accepted iff every listed field is accepted; the accepted features have exactly the listed names and the body's values; a rejection is 422 |
| Schemas.ValidateInput | app/schemas.py:16-67 | a body is accepted iff all 13 fields are present numbers within their inclusive bounds (whole numbers for integer fields); otherwise 422 |
| Schemas.AnyAgeInBoundsIsAccepted | app/schemas.py:22 | a valid sample with any age in [0, 120] is accepted |
| Schemas.SampleFieldsAccepted | app/schemas.py:22-67 | every field of the sample input passes its bound check |
| Schemas.AgeBoundsAreInclusive | app/schemas.py:22-85 | the documented example and ages 0 and 120 are accepted |
| Schemas.IncompleteOrMistypedBodiesAreRejected | app/schemas.py:22-67 | an empty body, a body missing fields, a non-number, age 200 and a fractional integer field are each rejected with 422 |
| Schemas.NewPredictionResponse | app/schemas.py:89-108 | a response exists iff the probability lies in [0, 1]. It keeps the given fields and otherwise takes the defaults: not an outlier, anomaly score 0.0, no contributions, status "success" |
| Compare.CompareModels | ml/compare.py:80-97 | every trained model is in the report under its name and in order. No best model iff no F1 exceeds -1.0; otherwise the best is the first model with the highest F1 |
| Compare.NonNegativeScoreNamesABest | ml/compare.py:81-97 | if any model has F1 ≥ 0, a best model is named |
| Compare.Stride | ml/compare.py:50-51 | the stride is at least 1, equals 1 below 100 points, and otherwise makes at most 99 picks cover all points |
| Compare.CeilDivIsCeiling | ml/compare.py:50-51 | the number of stride-th picks is the ceiling of n / stride |
| Compare.EveryNth | ml/compare.py:50 | `xs[::step]` has ceil(n / step) elements |
| Compare.EveryNthAt | ml/compare.py:50 | element i of `xs[::step]` is `xs[i * step]` |
| Compare.ThinPicksEveryStrideth | ml/compare.py:50-51 | thinning keeps index 0 and every stride-th element, ceil(n / stride) of them |
| Compare.ShortCurvesAreKeptWhole | ml/compare.py:50-51 | arrays of fewer than 100 points are kept whole |
| Compare.EqualLengthsStayEqual | ml/compare.py:50-51 | fpr and tpr arrays of equal length stay equal in length after thinning |
| Compare.ThinnedLengthIsBounded | ml/compare.py:50-51 | a thinned array never has more than 99 points |
| Compare.ThinKeepsNonDecreasing | ml/compare.py:50-51 | a non-decreasing array stays non-decreasing after thinning |
| Payload.EntryOf | ml/compare.py:42-53 | a report entry holds the model's accuracy, precision, recall, F1 score, ROC AUC, confusion matrix and both ROC arrays thinned by the same rule; each thinned array has at most 99 points, and arrays of one length stay of one length |
| Payload.FromReport | app/main.py:258-268 | the served payload has the report's model names in order and its best model |
| Payload.ReportEntryLookup | ml/compare.py:87 | looking a model up in the served payload gives that model's metrics |
| Timeline.Pad2 | frontend/src/components/PredictionTimeline.jsx:13 | an hour or minute is padded to two characters |
| Timeline.Label | frontend/src/components/PredictionTimeline.jsx:13 | a minute key has five characters with ':' in the middle |
| Timeline.LabelIsInjective | frontend/src/components/PredictionTimeline.jsx:13 | two (hour, minute) slots have the same "HH:MM" key iff they are the same slot |
| Timeline.Buckets | frontend/src/components/PredictionTimeline.jsx:10-23 | every key listed in the bucket table has a bucket |
| Timeline.BucketsAreValid | frontend/src/components/PredictionTimeline.jsx:14-22 | keys are listed once, and exactly the keys with buckets are listed. Each bucket is labelled with its key and has total = high risk + low risk > 0 |
| Timeline.Rows | frontend/src/components/PredictionTimeline.jsx:25 | `Object.values` lists the buckets in key-insertion order |
| Timeline.TimelineData | frontend/src/components/PredictionTimeline.jsx:6-25 | no history or an empty one renders nothing; otherwise the last min(30, n) buckets in first-occurrence order |
| Timeline.CountEvent | frontend/src/components/PredictionTimeline.jsx:12-22 | counting one event in place produces the table of the specification step |
| Timeline.CountPermutation | frontend/src/components/PredictionTimeline.jsx:11-23 | how many events match a filter does not depend on their order |
| Timeline.BucketCountsPerKey | frontend/src/components/PredictionTimeline.jsx:11-23 | a key has a bucket iff some event falls in its minute. Its counts are those of its events with prediction 1, its events with any other prediction, and all its events |
| Timeline.TallyAt | frontend/src/components/PredictionTimeline.jsx:14-22 | one event creates its key's bucket if missing and adds 1 to that bucket's total and to high or low risk; other buckets are unchanged |
| Timeline.OrderDoesNotChangeCounts | frontend/src/components/PredictionTimeline.jsx:11-23 | permuting the events leaves every key's bucket unchanged |
| Timeline.TallyAddsOne | frontend/src/components/PredictionTimeline.jsx:22 | each event adds exactly 1 to the sum of bucket totals |
| Timeline.TotalsCoverEveryEntry | frontend/src/components/PredictionTimeline.jsx:11-23 | before slicing, the bucket totals add up to the number of events |
| Timeline.EventSlots | frontend/src/components/PredictionTimeline.jsx:12-13 | each event's minute slot, in event order |
| Timeline.BucketsInFirstOccurrenceOrder | frontend/src/components/PredictionTimeline.jsx:13-16 | the listed keys are exactly the events' keys, ordered by first occurrence |
| ConfusionMatrix.EntryAt | frontend/src/components/ConfusionMatrix.jsx:10 | `cm[r][c]` is defined iff the row is long enough, and is then that count |
| ConfusionMatrix.Total | frontend/src/components/ConfusionMatrix.jsx:11 | the total is the sum of the four counts, undefined if any count is |
| ConfusionMatrix.Percent | frontend/src/components/ConfusionMatrix.jsx:14-17 | the percentage is a finite number iff the count and a non-zero total are defined, and is then the rounded share × 100 |
| ConfusionMatrix.CellsOf | frontend/src/components/ConfusionMatrix.jsx:10-18 | four cells holding cm[0][0], cm[0][1], cm[1][0] and cm[1][1] |
| ConfusionMatrix.RendersOnlyWithABestMatrix | frontend/src/components/ConfusionMatrix.jsx:4-8 | the panel renders iff the payload, models, a truthy best model, its entry and a matrix of at least 2 rows are present |
| ConfusionMatrix.CellsInFixedOrder | frontend/src/components/ConfusionMatrix.jsx:10-18 | the cells come in the order TN, FP, FN, TP with the raw counts unchanged |
| ConfusionMatrix.PercentInRange | frontend/src/components/ConfusionMatrix.jsx:14-17 | a count between 0 and a positive total gives a percentage in [0, 100] |
| ConfusionMatrix.PercentagesInRange | frontend/src/components/ConfusionMatrix.jsx:13-18 | for non-negative counts with a positive total, all four percentages lie in [0, 100] |
| ConfusionMatrix.ZeroMatrixHasNoPercentages | frontend/src/components/ConfusionMatrix.jsx:11-17 | an all-zero matrix divides 0 by 0, so no percentage is a number |
| ConfusionMatrix.PercentIs | frontend/src/components/ConfusionMatrix.jsx:14 | the percentage is the whole number whose rounding interval holds the share |
| ConfusionMatrix.HundredPredictionsShowTheirCounts | frontend/src/components/ConfusionMatrix.jsx:13-18 | the matrix [[50,10],[5,35]] shows 50%, 10%, 5% and 35% |
| ConfusionMatrix.RoundedSharesNeedNotSumToHundred | frontend/src/components/ConfusionMatrix.jsx:14-17 | the matrix [[1,1],[1,0]] shows 33%, 33%, 33% and 0%, which sum to 99 |
| ConfusionMatrix.ShowsTheBestModelsMatrix | frontend/src/components/ConfusionMatrix.jsx:6-8 | for a comparison report, the panel shows the best model's matrix |
| SpikeAlert.FromResponse | frontend/src/components/SpikeAlert.jsx:6 | the alert reads the spike response's verdict, score and message. An absent rate arrives as JSON null, and a present one keeps its value |
| SpikeAlert.BarWidth | frontend/src/components/SpikeAlert.jsx:42 | the bar width is the smaller of magnitude × 25 and 100 |
| SpikeAlert.Bars | frontend/src/components/SpikeAlert.jsx:35-45 | one bar per feature, with its name, direction, magnitude and width |
| SpikeAlert.Render | frontend/src/components/SpikeAlert.jsx:4-10 | the alert renders nothing iff there is no data, or there is no spike and the message is empty or contains "Insufficient" |
| SpikeAlert.QuietPanelShowsOnlyTheMessage | frontend/src/components/SpikeAlert.jsx:13-27 | with no spike and a shown message, the panel is the quiet title and the message, with no score, analysis or rates |
| SpikeAlert.SpikePanelShowsScoreAndRates | frontend/src/components/SpikeAlert.jsx:13-27 | on a spike, the active panel with its title and the score badge. The rate panel appears iff the recent rate is not undefined |
| SpikeAlert.AnalysisShowsTheFirstThree | frontend/src/components/SpikeAlert.jsx:30-35 | the analysis appears iff there is a spike and a non-empty feature list, and it shows the first min(3, n) features in received order |
| SpikeAlert.BarWidthInRange | frontend/src/components/SpikeAlert.jsx:42 | for a non-negative magnitude the width lies in [0, 100], is above 12.5 for an exact magnitude above 0.5, and is 100 iff the magnitude is at least 4 |
| SpikeAlert.BarWidthMonotone | frontend/src/components/SpikeAlert.jsx:42 | a larger magnitude never gives a narrower bar |
| SpikeAlert.RatePercentInRange | frontend/src/components/SpikeAlert.jsx:57 | a rate in [0, 1] is shown as a whole percentage in [0, 100] |
| SpikeAlert.MissingRates | frontend/src/components/SpikeAlert.jsx:52-63 | a null rate shows as 0% (`Math.round(null * 100)`); an undefined one is not a number |
| SpikeAlert.ShortHistoryMarkerOccurs | app/analytics.py:128 | the tracker's short-history message contains "Insufficient" |
| SpikeAlert.MarkerNeedsACapitalI | frontend/src/components/SpikeAlert.jsx:8 | a message without a capital I never contains "Insufficient" |
| SpikeAlert.NormalMessageHasNoMarker | app/analytics.py:164 | the tracker's no-spike message does not contain "Insufficient" |
| SpikeAlert.ShortHistoryVerdictIsHidden | frontend/src/components/SpikeAlert.jsx:8-10 | the spike endpoint's answer for fewer than 20 records hides the alert |
| SpikeAlert.QuietVerdictIsShown | frontend/src/components/SpikeAlert.jsx:8-20 | with at least 20 records and no spike, the alert shows the quiet panel with the tracker's message |
| SpikeAlert.SpikeVerdictShowsItsRates | frontend/src/components/SpikeAlert.jsx:52-66 | on the tracker's spike, the panel shows the score and both rates as rounded percentages of the window and baseline rates, each in [0, 100] |
| SpikeAlert.RankedFeatureBars | frontend/src/components/SpikeAlert.jsx:35-42 | for features whose exact magnitudes exceed 0.5, ranked by magnitude, the bars are each wider than 12.5 and at most 100, widest first |
| SpikeAlert.RankedAnalysisBars | frontend/src/components/SpikeAlert.jsx:30-42 | over the model's exact magnitudes, the tracker's analysis shows at most three bars, widest first, each wider than 12.5 and at most 100 |
| StatsCards.CardsShowTheCounts | frontend/src/components/StatsCards.jsx:4-34 | no stats render nothing; otherwise four cards (Total, High Risk, Low Risk, Avg Confidence) with the counts unchanged, and Avg Confidence as `Math.round` of the average confidence times 100. Only High Risk has a sub-line: `Math.round` of the high-risk rate times 100 when the total is positive, otherwise 0% |
| StatsCards.TrackerCardsAreConsistent | frontend/src/components/StatsCards.jsx:14-30 | for the tracker's stats, High Risk plus Low Risk equals Total. The sub-line lies in [0, 100] and is the rounded high-risk share; an empty tracker shows 0% |
| FeatureImportance.BarsFrom | frontend/src/components/FeatureImportance.jsx:9-29 | one bar per entry, keeping its name and importance, with hue 210 + 10i and lightness 55 + 2i |
| FeatureImportance.ChartShowsTheFirstThirteen | frontend/src/components/FeatureImportance.jsx:7-12 | the chart renders iff the list is present and non-empty, and shows its first min(13, n) entries in received order |
| FeatureImportance.ColoursAreDistinctAndInRange | frontend/src/components/FeatureImportance.jsx:28-30 | hues lie in [210, 330] and lightness in [55, 79], both strictly increasing along the bars |
| FeatureImportance.ChartShowsTheMostImportant | frontend/src/components/FeatureImportance.jsx:9-12 | over the endpoint's sorted list, every shown importance is at least every hidden one, and every shown bar is a (name, importance) pair of the mapping |
| ModelComparison.Capitalize | frontend/src/components/ModelComparison.jsx:14 | capitalising keeps the length and every character after the first |
| ModelComparison.PivotRow | frontend/src/components/ModelComparison.jsx:13-19 | the loop filling one metric's entry model by model produces the specified row |
| ModelComparison.Rows | frontend/src/components/ModelComparison.jsx:13-19 | five rows, one per metric in the order accuracy, precision, recall, f1_score, roc_auc |
| ModelComparison.Bars | frontend/src/components/ModelComparison.jsx:39-41 | one bar per model name |
| ModelComparison.ChartRows | frontend/src/components/ModelComparison.jsx:13-19 | the rows built metric by metric are the specified rows |
| ModelComparison.RowHoldsEveryModel | frontend/src/components/ModelComparison.jsx:15-17 | a row holds, under each model name, that model's metric value (undefined if missing) |
| ModelComparison.RowKeepsTheLabel | frontend/src/components/ModelComparison.jsx:14 | unless a model is named "metric", the row's "metric" key holds the axis label |
| ModelComparison.RowKeys | frontend/src/components/ModelComparison.jsx:14-17 | for distinct names other than "metric", a row's keys are "metric" followed by the model names |
| ModelComparison.RowHoldsEachModelsValue | frontend/src/components/ModelComparison.jsx:13-19 | each row of the chart has the label and every model's value under the model's name |
| ModelComparison.ModelNamedMetricHidesTheLabel | frontend/src/components/ModelComparison.jsx:14-16 | a model named "metric" overwrites the row's label with its own value |
| ModelComparison.CapitalizedKeys | frontend/src/components/ModelComparison.jsx:14 | "accuracy", "precision" and "recall" capitalise to "Accuracy", "Precision" and "Recall" |
| ModelComparison.AxisLabels | frontend/src/components/ModelComparison.jsx:7-14 | the labels are Accuracy, Precision, Recall, F1 and AUC, in that order |
| ModelComparison.ViewShape | frontend/src/components/ModelComparison.jsx:10-41 | the chart renders iff the payload and its models are present. It has five rows and a badge iff the best model is truthy; bar i has colour COLORS[i mod 3], so neighbouring bars differ |
| ModelComparison.NeighboursDiffer | frontend/src/components/ModelComparison.jsx:40 | two neighbouring bars never share a colour |
| ModelComparison.ReportEntriesHaveEveryMetric | frontend/src/components/ModelComparison.jsx:16 | a comparison report has every one of the five metrics for every model |
| ModelComparison.ReportChart | frontend/src/components/ModelComparison.jsx:12-27 | over a comparison report, every row holds each model's metric, and the badge names a best model with a non-empty name |
| RocCurve.FindRow | frontend/src/components/ROCCurve.jsx:19 | `find` stops at the first row within 0.001 of the sample, or at the end |
| RocCurve.WithDiagonal | frontend/src/components/ROCCurve.jsx:34 | each output row is its merged row plus `Random` equal to its fpr |
| RocCurve.AddSample | frontend/src/components/ROCCurve.jsx:19-26 | placing one sample in place gives the specified step |
| RocCurve.AddCurve | frontend/src/components/ROCCurve.jsx:18-27 | merging one model's samples in place gives the specified merge |
| RocCurve.ChartData | frontend/src/components/ROCCurve.jsx:9-34 | the chart built in place is the specified chart |
| RocCurve.StepKeepsOtherRows | frontend/src/components/ROCCurve.jsx:19-26 | a sample adds at most one row and changes no row's fpr or any other model's value. A new row holds only this sample, and it is created only when no row is within 0.001 |
| RocCurve.StepSetsTheSample | frontend/src/components/ROCCurve.jsx:19-25 | the sample's tpr is set on the first row within 0.001 of its fpr |
| RocCurve.StepKeepsSeparated | frontend/src/components/ROCCurve.jsx:19-25 | rows whose fprs are 0.001 or more apart stay so after a sample |
| RocCurve.MergeCurveKeepsSeparated | frontend/src/components/ROCCurve.jsx:18-27 | merging a curve keeps rows 0.001 or more apart |
| RocCurve.MergedRowsAreSeparated | frontend/src/components/ROCCurve.jsx:15-29 | any two merged rows have fprs at least 0.001 apart |
| RocCurve.ChartFprsIncrease | frontend/src/components/ROCCurve.jsx:19-34 | after sorting, fpr strictly increases by at least 0.001 per row, and every row's `Random` equals its fpr |
| RocCurve.MergeCurveLength | frontend/src/components/ROCCurve.jsx:18-27 | merging a curve adds at most one row per sample |
| RocCurve.AtMostOneRowPerSample | frontend/src/components/ROCCurve.jsx:15-29 | there are never more rows than samples over all models |
| RocCurve.MergeCurveKeepsDefined | frontend/src/components/ROCCurve.jsx:18-24 | a curve whose tpr array is at least as long as its fpr array sets no undefined value |
| RocCurve.EqualLengthCurvesAreFullyDefined | frontend/src/components/ROCCurve.jsx:15-29 | when every model's tpr array is at least as long as its fpr array, no value in the chart is undefined |
| RocCurve.ReportCurvesAreFullyDefined | ml/compare.py:49-52 | for a report whose every model has fpr and tpr arrays of one length, the chart of the served report has no undefined value |
| RocCurve.NoCurvesNoRows | frontend/src/components/ROCCurve.jsx:16-17 | models without a `roc_curve` with both arrays contribute no rows |
| RocCurve.LastSampleWins | frontend/src/components/ROCCurve.jsx:20-21 | two samples at fpr 0 of one model leave only the second tpr in the row |
| RocCurve.NearSamplesShareARow | frontend/src/components/ROCCurve.jsx:19-21 | samples at 0.5 and 0.5005 share the row created at 0.5 |
| RocCurve.MissingModelHasNoKey | frontend/src/components/ROCCurve.jsx:23-24 | a row with no sample from a model has no key for it, not 0 |
| RocCurve.ShortTprIsUndefined | frontend/src/components/ROCCurve.jsx:21-24 | an fpr sample past the end of the tpr array stores `undefined` |
| RocCurve.ChartIsTheSortedMerge | frontend/src/components/ROCCurve.jsx:31-34 | the chart exists iff the payload and models are present, and its rows are a permutation of the merged rows |

## Left out

- Rounding to 4 decimals is not modelled: Python's `round(x, 4)` on probabilities, rates, scores, magnitudes, means and ROC points, and JavaScript's `toFixed` on the spike score and magnitudes. The model keeps exact reals; `Math.round` is modelled exactly. The consequences are listed below.
- The spike score is rounded before it is compared with 2.0 (app/analytics.py:152-153). This never changes the verdict: the ratio is k/10 against the default baseline of 0.5, 5k against the 0.01 fallback, and kn/(20m) against m high-risk records out of n <= 480 older ones, where 40m - kn is an integer, so a ratio below 2.0 falls short of it by at least 1/(20m), which is more than the 0.00005 rounding can add.
- Analytics.RankedShiftsAreStableAndDistinct: the source sorts on the rounded magnitude (app/analytics.py:206, 213), so two magnitudes that agree to 4 decimals tie there and keep name order. In the model "equal" means exactly equal.
- StatsCards.TrackerCardsAreConsistent: the high-risk rate is rounded at app/analytics.py:107 and then again by `Math.round` at frontend/src/components/StatsCards.jsx:17. The model rounds once, from the exact share: for 3124 high-risk predictions out of 25000 the source shows 13% (0.125 after the first rounding), the model 12% (12.496 rounded).
- SpikeAlert.RankedAnalysisBars, SpikeAlert.RankedFeatureBars, SpikeAlert.BarWidthInRange: the strict bound "wider than 12.5" holds for the model's exact magnitudes. The server sends `round(shift, 4)` (app/analytics.py:206), so a shift of 0.50004 arrives as 0.5 and SpikeAlert.jsx:42 draws it exactly 12.5 wide. For the served payload the bound is "at least 12.5".
- Floating point is not modelled. Sums, means and quotients are exact reals, so the model cannot show rounding error near the 0.5, 2.0 and 0.001 thresholds.
- Clocks and time zones are not modelled. The record timestamp is a parameter of `RecordPrediction`. The dashboard's `new Date(...)` local hour and minute are given as an (hour, minute) slot per event.
- Thread locks, the double-checked singleton and the `_initialised` flag are not modelled: the tracker is one sequential object.
- `_load_baseline` reads a metadata file and is not modelled: the baseline statistics are a constructor parameter.
- The trained model, `predict`, the outlier detector, SHAP and `get_feature_importance` are foreign calls. Their results are parameters: `Api.PredictOutcome`, and the importance mapping.
- `fit` and the scikit-learn metric functions in `_evaluate_model` are not modelled: the metrics are given per model. So are the model constructors and the report file I/O in `compare_models`.
- Prometheus counters, logging, `/health`, `/metrics`, `/` and file existence for `/model/performance` are not modelled: they are observability and I/O.
- Pydantic's coercion is approximated. A field is accepted as a JSON number within bounds, whole for integer fields. Strings pydantic would coerce, booleans and extra keys are not modelled.
- Analytics.AnalyticsTracker.GetHistory: `limit` is an unbounded integer; FastAPI's query parsing is not modelled.
- Analytics.Explanation: the text is built from the first three ranked features as the source builds it. No property of the text itself is proved.
- RocCurve.Chart: a model named "fpr" or "Random" is kept apart from the row's x-value and diagonal. In the source it would overwrite them. The model stores the tprs in a separate sequence of pairs.
- ModelComparison.Row, RocCurve.Chart: JavaScript lists integer-like object keys (a model named "1") before the other keys, both among the models and among a row's tpr keys. The model keeps plain insertion order.
- ConfusionMatrix.Percent: the NaN of 0/0 and the Infinity of a non-zero count over a zero total are both modelled as "not a number" (None). Non-numeric matrix entries and a null model entry are not modelled.
- A JSON `null` model entry in the performance payload is not modelled: `performance.models[name][metric]` would throw on it. Entries are records with optional fields.
- Sorting.SortDescending: in-place sorting (`list.sort`, `Array.prototype.sort`) is modelled as a function on sequences, with the same stable result. No aliasing of the sorted array is modelled.
- The Dashboard component's polling, `Promise.all` fan-out and error handling are network plumbing and not modelled.
- The form, result card, decorative components and styling are not modelled: they have no analytics logic.
- React rendering is not modelled: each component is modelled as the data it renders.
