/** The real-time analytics tracker: running counters over every recorded prediction, a
    bounded history of the most recent ones, a spike detector comparing the high-risk rate
    of the latest window with that of the older records, and a feature-shift analysis that
    explains a detected spike. One sequential object; locking and the singleton are not
    modelled, and the training baseline is passed in rather than read from a file. */
module Analytics {
  import opened Common
  import opened Sorting
  import Schemas

  const HISTORY_MAX: nat := 500
  const SPIKE_WINDOW: nat := 20
  const SPIKE_THRESHOLD: real := 2.0
  /** The baseline rate used while there are no records older than the window. */
  const DEFAULT_BASELINE_RATE: real := 0.5
  /** A zero baseline is replaced by this, so that the score is defined. */
  const ZERO_BASELINE_GUARD: real := 0.01
  const SHIFT_THRESHOLD: real := 0.5
  const MAX_SHIFTING_FEATURES: nat := 5
  const EXPLAINED_FEATURES: nat := 3

  const INSUFFICIENT_MESSAGE: string := "Insufficient data for spike detection."
  const SPIKE_MESSAGE: string := "\U{26A0}\U{FE0F} Spike detected! High-risk rate is significantly elevated."
  const NORMAL_MESSAGE: string := "No spike detected." + " Prediction patterns are normal."
  const NO_SPIKE_EXPLANATION: string := "No spike detected \U{2014} no analysis needed."
  const NO_SHIFT_EXPLANATION: string := "Spike detected but no significant feature distribution shifts found."
  const INCREASED: string := "\U{2191} increased"
  const DECREASED: string := "\U{2193} decreased"

  /** One history entry. The timestamp is supplied by the caller (the clock is not modelled);
      `features` has an entry for every feature name, None where the request lacked it. */
  datatype Record = Record(
    timestamp: string,
    prediction: int,
    probability: real,
    isOutlier: bool,
    features: map<string, Option<real>>)

  /** A feature's training statistics; either key may be missing. */
  datatype BaselineStat = BaselineStat(mean: Option<real>, std: Option<real>)

  /** The spike verdict. The short-history verdict carries `required` and no rates; the
      full verdict carries both rates and no `required`. */
  datatype SpikeReport = SpikeReport(
    detected: bool,
    score: real,
    message: string,
    recentRate: Option<real>,
    baselineRate: Option<real>,
    windowSize: nat,
    required: Option<nat>)

  datatype ShiftingFeature = ShiftingFeature(
    feature: string,
    shiftMagnitude: real,
    recentMean: real,
    baselineMean: real,
    direction: string)

  datatype SpikeAnalysis = SpikeAnalysis(
    detected: bool,
    explanation: string,
    shiftingFeatures: seq<ShiftingFeature>,
    spikeInfo: Option<SpikeReport>)

  // ----- counting over a snapshot of the history -----

  /** The number of records whose prediction is 1. */
  function HighRiskCount(rs: seq<Record>): (n: nat)
    ensures n <= |rs|
  {
    if rs == [] then 0
    else HighRiskCount(rs[..|rs| - 1]) + (if rs[|rs| - 1].prediction == 1 then 1 else 0)
  }

  lemma {:induction false} HighRiskCountConcat(a: seq<Record>, b: seq<Record>)
    ensures HighRiskCount(a + b) == HighRiskCount(a) + HighRiskCount(b)
  {
    if b != [] {
      assert (a + b)[..|a + b| - 1] == a + b[..|b| - 1];
      HighRiskCountConcat(a, b[..|b| - 1]);
    } else {
      assert a + b == a;
    }
  }

  /** All records are high-risk exactly when the count is the length, and none are
      exactly when it is zero. */
  lemma {:induction false} HighRiskCountExtremes(rs: seq<Record>)
    ensures HighRiskCount(rs) == |rs| <==> forall i :: 0 <= i < |rs| ==> rs[i].prediction == 1
    ensures HighRiskCount(rs) == 0 <==> forall i :: 0 <= i < |rs| ==> rs[i].prediction != 1
  {
    if rs != [] {
      var init := rs[..|rs| - 1];
      HighRiskCountExtremes(init);
      assert forall i :: 0 <= i < |init| ==> init[i] == rs[i];
    }
  }

  function HighRiskRate(rs: seq<Record>): (r: real)
    requires rs != []
    ensures 0.0 <= r <= 1.0
  {
    FractionBounds(HighRiskCount(rs), |rs|);
    HighRiskCount(rs) as real / |rs| as real
  }

  /** The baseline the latest window is compared with: the high-risk rate of every record
      before the window, or the default rate when there is none; zero becomes the guard. */
  function BaselineRate(items: seq<Record>): (b: real)
    requires |items| >= SPIKE_WINDOW
    ensures 0.0 < b <= 1.0
    ensures |items| == SPIKE_WINDOW ==> b == DEFAULT_BASELINE_RATE
  {
    var raw := if |items| > SPIKE_WINDOW then HighRiskRate(items[..|items| - SPIKE_WINDOW])
               else DEFAULT_BASELINE_RATE;
    if raw == 0.0 then ZERO_BASELINE_GUARD else raw
  }

  /** The deque append: the record goes last, and only the newest HISTORY_MAX records stay. */
  function BoundedAppend(h: seq<Record>, x: Record): (r: seq<Record>)
    ensures |r| == Min(|h| + 1, HISTORY_MAX)
    ensures r[|r| - 1] == x
    ensures r[..|r| - 1] == h[|h| + 1 - |r|..]
  {
    LastN(h + [x], HISTORY_MAX)
  }

  /** Below capacity nothing is dropped; at capacity exactly the oldest record is. */
  lemma BoundedAppendDropsOnlyTheOldest(h: seq<Record>, x: Record)
    requires |h| <= HISTORY_MAX
    ensures |h| < HISTORY_MAX ==> BoundedAppend(h, x) == h + [x]
    ensures |h| == HISTORY_MAX ==> BoundedAppend(h, x) == h[1..] + [x]
  {
    var r := BoundedAppend(h, x);
    assert r == r[..|r| - 1] + [x];
  }

  /** Appending can only add the new record to the high- and low-risk counts of the kept
      records. */
  lemma BoundedAppendCounts(h: seq<Record>, x: Record)
    ensures HighRiskCount(BoundedAppend(h, x)) <= HighRiskCount(h) + (if x.prediction == 1 then 1 else 0)
    ensures |BoundedAppend(h, x)| - HighRiskCount(BoundedAppend(h, x))
            <= |h| - HighRiskCount(h) + (if x.prediction == 1 then 0 else 1)
  {
    var grown := h + [x];
    var kept := BoundedAppend(h, x);
    HighRiskCountConcat(h, [x]);
    assert [x][..0] == [];
    assert grown == grown[..|grown| - |kept|] + kept;
    HighRiskCountConcat(grown[..|grown| - |kept|], kept);
  }

  /** The features kept with a record: one entry per feature name, in the request or not. */
  function RecordedFeatures(features: map<string, real>): (m: map<string, Option<real>>)
    ensures m.Keys == set k | k in Schemas.FEATURE_NAMES
    ensures forall k :: k in m ==> (m[k].Some? <==> k in features)
    ensures forall k :: k in m && k in features ==> m[k] == Some(features[k])
  {
    map k | k in Schemas.FEATURE_NAMES :: if k in features then Some(features[k]) else None
  }

  // ----- feature-shift analysis over the latest window -----

  function Sum(xs: seq<real>): real
  {
    if xs == [] then 0.0 else Sum(xs[..|xs| - 1]) + xs[|xs| - 1]
  }

  /** The values of one feature in the window's records, skipping records where it is None. */
  function FeatureValues(recent: seq<Record>, feature: string): (vals: seq<real>)
    ensures |vals| <= |recent|
  {
    if recent == [] then []
    else
      var r := recent[|recent| - 1];
      FeatureValues(recent[..|recent| - 1], feature)
        + (if feature in r.features && r.features[feature].Some? then [r.features[feature].value] else [])
  }

  /** The baseline mean of a feature; the window's own mean when the statistic is missing. */
  function BaselineMean(stats: map<string, BaselineStat>, feature: string, recentMean: real): real
  {
    if feature in stats && stats[feature].mean.Some? then stats[feature].mean.value else recentMean
  }

  /** The scale of a shift: the baseline standard deviation, 1.0 when missing or zero. */
  function BaselineScale(stats: map<string, BaselineStat>, feature: string): (s: real)
    ensures s != 0.0
  {
    var std := if feature in stats && stats[feature].std.Some? then stats[feature].std.value else 1.0;
    if std == 0.0 then 1.0 else std
  }

  /** The mean of a non-empty list of values. */
  function Mean(vals: seq<real>): (m: real)
    requires vals != []
    ensures m * |vals| as real == Sum(vals)
  {
    Sum(vals) / |vals| as real
  }

  /** How many baseline deviations the window mean lies from the baseline mean. */
  function Shift(recentMean: real, baselineMean: real, scale: real): (s: real)
    requires scale != 0.0
    ensures s * scale == Abs(recentMean - baselineMean)
  {
    Abs(recentMean - baselineMean) / scale
  }

  /** One feature's entry in the analysis: present exactly when the window has values for
      it and its mean moved by more than SHIFT_THRESHOLD baseline deviations; it then
      carries the window mean and the baseline mean it was compared with. */
  function Candidate(feature: string, recent: seq<Record>, stats: map<string, BaselineStat>)
    : (c: Option<ShiftingFeature>)
    ensures FeatureValues(recent, feature) == [] ==> c.None?
    ensures FeatureValues(recent, feature) != [] ==>
              var m := Mean(FeatureValues(recent, feature));
              var b := BaselineMean(stats, feature, m);
              && (c.Some? <==> Shift(m, b, BaselineScale(stats, feature)) > SHIFT_THRESHOLD)
              && (c.Some? ==> c.value.recentMean == m && c.value.baselineMean == b)
    ensures c.Some? ==> c.value.feature == feature && c.value.shiftMagnitude > SHIFT_THRESHOLD
  {
    var vals := FeatureValues(recent, feature);
    if vals == [] then None
    else
      var recentMean := Mean(vals);
      var baselineMean := BaselineMean(stats, feature, recentMean);
      var shift := Shift(recentMean, baselineMean, BaselineScale(stats, feature));
      if shift > SHIFT_THRESHOLD then
        Some(ShiftingFeature(feature, shift, recentMean, baselineMean,
                             if recentMean > baselineMean then INCREASED else DECREASED))
      else None
  }

  /** A reported shift is the distance between the two means in baseline deviations, and
      its direction says which mean is larger. */
  lemma CandidateMeasuresTheShift(feature: string, recent: seq<Record>, stats: map<string, BaselineStat>)
    requires Candidate(feature, recent, stats).Some?
    ensures var c := Candidate(feature, recent, stats).value;
      && c.shiftMagnitude * Abs(BaselineScale(stats, feature)) == Abs(c.recentMean - c.baselineMean)
      && (c.direction == INCREASED <==> c.recentMean > c.baselineMean)
  {
  }

  /** A feature without a baseline mean is compared with its own window mean: shift 0,
      so it never appears in the analysis. */
  lemma NoBaselineMeanNoShift(feature: string, recent: seq<Record>, stats: map<string, BaselineStat>)
    requires feature !in stats || stats[feature].mean.None?
    ensures Candidate(feature, recent, stats).None?
  {
  }

  /** The entries collected by the loop over `names`, in the order of `names`. */
  function ShiftCandidates(names: seq<string>, recent: seq<Record>, stats: map<string, BaselineStat>)
    : (cs: seq<ShiftingFeature>)
    ensures |cs| <= |names|
    ensures forall i :: 0 <= i < |cs| ==> cs[i].shiftMagnitude > SHIFT_THRESHOLD && cs[i].feature in names
  {
    if names == [] then []
    else
      var init := ShiftCandidates(names[..|names| - 1], recent, stats);
      match Candidate(names[|names| - 1], recent, stats)
      case Some(c) => init + [c]
      case None => init
  }

  /** Every feature whose shift qualifies is collected. */
  lemma {:induction false} QualifyingNameIsCollected(names: seq<string>, recent: seq<Record>,
                                                     stats: map<string, BaselineStat>, i: nat, c: ShiftingFeature)
    requires i < |names| && Candidate(names[i], recent, stats) == Some(c)
    ensures c in ShiftCandidates(names, recent, stats)
  {
    var init := names[..|names| - 1];
    if i < |init| {
      assert init[i] == names[i];
      QualifyingNameIsCollected(init, recent, stats, i, c);
    }
  }

  /** Nothing but the candidates of the names is collected. */
  lemma {:induction false} CollectedIsAQualifyingName(names: seq<string>, recent: seq<Record>,
                                                      stats: map<string, BaselineStat>, c: ShiftingFeature)
    requires c in ShiftCandidates(names, recent, stats)
    ensures exists i :: 0 <= i < |names| && Candidate(names[i], recent, stats) == Some(c)
  {
    var init := names[..|names| - 1];
    if c in ShiftCandidates(init, recent, stats) {
      CollectedIsAQualifyingName(init, recent, stats, c);
      var i :| 0 <= i < |init| && Candidate(init[i], recent, stats) == Some(c);
      assert names[i] == init[i];
    } else {
      assert Candidate(names[|names| - 1], recent, stats) == Some(c);
    }
  }

  /** The collected entries are exactly the candidates of the names: every feature whose
      shift qualifies is kept, and nothing else is. */
  lemma ShiftCandidatesAreTheQualifyingNames(names: seq<string>, recent: seq<Record>,
                                             stats: map<string, BaselineStat>)
    ensures forall c :: c in ShiftCandidates(names, recent, stats) <==>
              exists i :: 0 <= i < |names| && Candidate(names[i], recent, stats) == Some(c)
  {
    forall c | c in ShiftCandidates(names, recent, stats)
      ensures exists i :: 0 <= i < |names| && Candidate(names[i], recent, stats) == Some(c)
    {
      CollectedIsAQualifyingName(names, recent, stats, c);
    }
    forall c, i | 0 <= i < |names| && Candidate(names[i], recent, stats) == Some(c)
      ensures c in ShiftCandidates(names, recent, stats)
    {
      QualifyingNameIsCollected(names, recent, stats, i, c);
    }
  }

  function ShiftMagnitude(f: ShiftingFeature): real { f.shiftMagnitude }

  /** The collected entries sorted by magnitude, largest first, ties in `names` order. */
  function RankedShifts(names: seq<string>, recent: seq<Record>, stats: map<string, BaselineStat>)
    : seq<ShiftingFeature>
  {
    SortDescending(ShiftCandidates(names, recent, stats), ShiftMagnitude)
  }

  function Describe(fs: seq<ShiftingFeature>): (ds: seq<string>)
    ensures |ds| == |fs|
  {
    if fs == [] then [] else [fs[0].feature + " (" + fs[0].direction + ")"] + Describe(fs[1..])
  }

  function Join(parts: seq<string>, sep: string): string
  {
    if parts == [] then "" else if |parts| == 1 then parts[0] else parts[0] + sep + Join(parts[1..], sep)
  }

  /** The explanation names the first three ranked features and their directions. */
  function Explanation(ranked: seq<ShiftingFeature>): string
  {
    if ranked == [] then NO_SHIFT_EXPLANATION
    else "Spike correlated with changes in: " + Join(Describe(Take(ranked, EXPLAINED_FEATURES)), ", ")
         + ". These features show the largest deviation from training baseline."
  }

  /** Entries gathered over distinct names come in the order of the names, so the ranks of
      their features strictly increase. */
  lemma {:induction false} CandidatesFollowNames(names: seq<string>, recent: seq<Record>, stats: map<string, BaselineStat>)
    requires Distinct(names)
    ensures forall i, j :: 0 <= i < j < |ShiftCandidates(names, recent, stats)| ==>
              IndexOf(names, ShiftCandidates(names, recent, stats)[i].feature)
              < IndexOf(names, ShiftCandidates(names, recent, stats)[j].feature)
  {
    if names != [] {
      var init := names[..|names| - 1];
      var last := names[|names| - 1];
      assert Distinct(init);
      CandidatesFollowNames(init, recent, stats);
      var prev := ShiftCandidates(init, recent, stats);
      forall f | f in init ensures IndexOf(names, f) == IndexOf(init, f) < |init| {
        IndexOfAppend(init, last, f);
      }
      IndexOfDistinct(names, |names| - 1);
      forall i | 0 <= i < |prev| ensures IndexOf(names, prev[i].feature) < |names| - 1 {
        assert prev[i].feature in init;
      }
    }
  }

  /** The feature names are pairwise different. */
  lemma FeatureNamesDistinct()
    ensures Distinct(Schemas.FEATURE_NAMES)
  {
    var n := Schemas.FEATURE_NAMES;
    forall i, j | 0 <= i < j < |n| ensures n[i] != n[j] {
      assert n[i][0] != n[j][0] || |n[i]| != |n[j]| || n[i][1] != n[j][1] || n[i][2] != n[j][2];
    }
  }

  /** Every ranked entry shifted by more than the threshold, and the ranking is
      non-increasing in magnitude. */
  lemma RankedShiftsAreSignificantAndOrdered(names: seq<string>, recent: seq<Record>, stats: map<string, BaselineStat>)
    ensures forall i :: 0 <= i < |RankedShifts(names, recent, stats)| ==>
              RankedShifts(names, recent, stats)[i].shiftMagnitude > SHIFT_THRESHOLD
    ensures forall i, j :: 0 <= i < j < |RankedShifts(names, recent, stats)| ==>
              RankedShifts(names, recent, stats)[i].shiftMagnitude >= RankedShifts(names, recent, stats)[j].shiftMagnitude
  {
    var cs := ShiftCandidates(names, recent, stats);
    var ranked := RankedShifts(names, recent, stats);
    forall i | 0 <= i < |ranked| ensures ranked[i].shiftMagnitude > SHIFT_THRESHOLD {
      assert ranked[i] in multiset(cs);
    }
  }

  /** Equal magnitudes keep the order of the names, and no feature is ranked twice. */
  lemma RankedShiftsAreStableAndDistinct(names: seq<string>, recent: seq<Record>, stats: map<string, BaselineStat>)
    requires Distinct(names)
    ensures forall i, j :: 0 <= i < j < |RankedShifts(names, recent, stats)|
              && RankedShifts(names, recent, stats)[i].shiftMagnitude == RankedShifts(names, recent, stats)[j].shiftMagnitude
              ==> IndexOf(names, RankedShifts(names, recent, stats)[i].feature) < IndexOf(names, RankedShifts(names, recent, stats)[j].feature)
    ensures forall i, j :: 0 <= i < j < |RankedShifts(names, recent, stats)| ==>
              RankedShifts(names, recent, stats)[i].feature != RankedShifts(names, recent, stats)[j].feature
  {
    var cs := ShiftCandidates(names, recent, stats);
    CandidatesFollowNames(names, recent, stats);
    var rank := (f: ShiftingFeature) => IndexOf(names, f.feature);
    SortIsStable(cs, ShiftMagnitude, rank);
    var differ := (a: ShiftingFeature, b: ShiftingFeature) => a.feature != b.feature;
    forall i, j | 0 <= i < |cs| && 0 <= j < |cs| && i != j ensures differ(cs[i], cs[j]) {
      if i < j { assert rank(cs[i]) < rank(cs[j]); } else { assert rank(cs[j]) < rank(cs[i]); }
    }
    SortKeepsPairwise(cs, ShiftMagnitude, differ);
  }

  lemma FractionBounds(n: nat, d: nat)
    requires 0 < d && n <= d
    ensures 0.0 <= n as real / d as real <= 1.0
  {
    assert (n as real / d as real) * d as real == n as real;
  }

  lemma QuotientAtLeast(a: real, b: real, t: real)
    requires b > 0.0
    ensures (a / b) * b == a
    ensures a / b >= t <==> a >= t * b
  {
    assert (a / b) * b == a;
  }

  // ----- the tracker -----

  class AnalyticsTracker {
    var total: nat
    var highRisk: nat
    var lowRisk: nat
    var outlierCount: nat
    var confidenceSum: real
    var history: seq<Record>
    var baselineStats: map<string, BaselineStat>

    /** The counters add up, the history holds the newest min(total, HISTORY_MAX) records,
        and its high- and low-risk records are among those counted. */
    ghost predicate Valid()
      reads this
    {
      && total == highRisk + lowRisk
      && outlierCount <= total
      && |history| == Min(total, HISTORY_MAX)
      && HighRiskCount(history) <= highRisk
      && |history| - HighRiskCount(history) <= lowRisk
    }

    constructor (baselineStats: map<string, BaselineStat>)
      ensures Valid()
      ensures total == 0 && highRisk == 0 && lowRisk == 0 && outlierCount == 0
      ensures confidenceSum == 0.0 && history == []
      ensures this.baselineStats == baselineStats
    {
      total, highRisk, lowRisk, outlierCount := 0, 0, 0, 0;
      confidenceSum := 0.0;
      history := [];
      this.baselineStats := baselineStats;
    }

    /** Records one prediction: `total` and exactly one of `highRisk` (prediction 1) and
        `lowRisk` (anything else) go up by one, `outlierCount` goes up iff the input was an
        outlier, and the record is appended to the bounded history. */
    method RecordPrediction(prediction: int, probability: real, isOutlier: bool,
                            features: map<string, real>, timestamp: string)
      requires Valid()
      modifies this
      ensures Valid()
      ensures total == old(total) + 1
      ensures highRisk == old(highRisk) + (if prediction == 1 then 1 else 0)
      ensures lowRisk == old(lowRisk) + (if prediction == 1 then 0 else 1)
      ensures outlierCount == old(outlierCount) + (if isOutlier then 1 else 0)
      ensures confidenceSum == old(confidenceSum) + probability
      ensures history == BoundedAppend(old(history),
                                       Record(timestamp, prediction, probability, isOutlier, RecordedFeatures(features)))
      ensures baselineStats == old(baselineStats)
    {
      var x := Record(timestamp, prediction, probability, isOutlier, RecordedFeatures(features));
      BoundedAppendCounts(history, x);
      history := BoundedAppend(history, x);
      total := total + 1;
      if prediction == 1 {
        highRisk := highRisk + 1;
      } else {
        lowRisk := lowRisk + 1;
      }
      if isOutlier {
        outlierCount := outlierCount + 1;
      }
      confidenceSum := confidenceSum + probability;
    }

    /** The statistics: the counters unchanged, the high-risk rate and the mean confidence
        (0.0 while nothing is recorded). */
    function GetStats(): (r: Schemas.StatsResponse)
      reads this
      requires Valid()
      ensures r.totalPredictions == total && r.highRiskCount == highRisk
      ensures r.lowRiskCount == lowRisk && r.outlierCount == outlierCount
      ensures r.highRiskCount + r.lowRiskCount == r.totalPredictions
      ensures 0 <= r.outlierCount <= r.totalPredictions
      ensures 0.0 <= r.highRiskRate <= 1.0
      ensures total == 0 ==> r.highRiskRate == 0.0 && r.averageConfidence == 0.0
      ensures total > 0 ==> r.highRiskRate * total as real == highRisk as real
      ensures total > 0 ==> r.averageConfidence * total as real == confidenceSum
    {
      Schemas.StatsResponse(
        total, highRisk, lowRisk,
        if total > 0 then FractionBounds(highRisk, total); highRisk as real / total as real else 0.0,
        if total > 0 then confidenceSum / total as real else 0.0,
        outlierCount)
    }

    /** `history[-limit:]`: for limit >= 1 the newest min(limit, |history|) records in
        insertion order; limit 0 gives everything; a negative limit drops that many of the
        oldest. */
    function GetHistory(limit: int): (r: seq<Record>)
      reads this
      ensures limit >= 1 ==> |r| == Min(limit, |history|) && r == history[|history| - |r|..]
      ensures limit == 0 ==> r == history
      ensures limit < 0 ==> r == history[Min(-limit, |history|)..]
    {
      PySliceFrom(history, -limit)
    }

    /** The spike verdict. With fewer than SPIKE_WINDOW records: no spike, score 0, the
        short-history message, the current length and the required length. Otherwise a
        spike iff the latest window's high-risk rate is at least SPIKE_THRESHOLD times the
        baseline rate. */
    function DetectSpike(): (r: SpikeReport)
      reads this
      ensures |history| < SPIKE_WINDOW ==>
                r == SpikeReport(false, 0.0, INSUFFICIENT_MESSAGE, None, None, |history|, Some(SPIKE_WINDOW))
      ensures |history| >= SPIKE_WINDOW ==>
                && r.recentRate == Some(HighRiskRate(LastN(history, SPIKE_WINDOW)))
                && r.baselineRate == Some(BaselineRate(history))
                && r.windowSize == SPIKE_WINDOW && r.required.None?
                && r.score == HighRiskRate(LastN(history, SPIKE_WINDOW)) / BaselineRate(history)
                && r.message == (if r.detected then SPIKE_MESSAGE else NORMAL_MESSAGE)
      ensures r.detected <==> (|history| >= SPIKE_WINDOW
                && HighRiskRate(LastN(history, SPIKE_WINDOW)) >= SPIKE_THRESHOLD * BaselineRate(history))
      ensures r.score >= 0.0
    {
      var items := history;
      if |items| < SPIKE_WINDOW then
        SpikeReport(false, 0.0, INSUFFICIENT_MESSAGE, None, None, |items|, Some(SPIKE_WINDOW))
      else
        var recent := HighRiskRate(LastN(items, SPIKE_WINDOW));
        var baseline := BaselineRate(items);
        var score := recent / baseline;
        var detected := score >= SPIKE_THRESHOLD;
        QuotientAtLeast(recent, baseline, SPIKE_THRESHOLD);
        SpikeReport(detected, score, if detected then SPIKE_MESSAGE else NORMAL_MESSAGE,
                    Some(recent), Some(baseline), SPIKE_WINDOW, None)
    }

    /** The feature-shift explanation: nothing when there is no spike; on a spike, the
        shifted features of the latest window ranked by magnitude, the first five listed
        and the first three named in the explanation. */
    method AnalyzeSpike() returns (a: SpikeAnalysis)
      ensures !DetectSpike().detected ==> a == SpikeAnalysis(false, NO_SPIKE_EXPLANATION, [], None)
      ensures DetectSpike().detected ==>
                var ranked := RankedShifts(Schemas.FEATURE_NAMES, LastN(history, SPIKE_WINDOW), baselineStats);
                a == SpikeAnalysis(true, Explanation(ranked), Take(ranked, MAX_SHIFTING_FEATURES), Some(DetectSpike()))
    {
      var spikeInfo := DetectSpike();
      if !spikeInfo.detected {
        return SpikeAnalysis(false, NO_SPIKE_EXPLANATION, [], None);
      }
      var recent := LastN(history, SPIKE_WINDOW);
      var shifting := CollectShifts(Schemas.FEATURE_NAMES, recent, baselineStats);
      shifting := SortDescending(shifting, ShiftMagnitude);
      a := SpikeAnalysis(true, Explanation(shifting), Take(shifting, MAX_SHIFTING_FEATURES), Some(spikeInfo));
    }
  }

  /** The loop of the analysis over the model's feature names: each feature whose shift
      qualifies is appended, in name order. */
  method CollectShifts(names: seq<string>, recent: seq<Record>, stats: map<string, BaselineStat>)
    returns (shifting: seq<ShiftingFeature>)
    ensures shifting == ShiftCandidates(names, recent, stats)
  {
    shifting := [];
    var i := 0;
    while i < |names|
      invariant 0 <= i <= |names|
      invariant shifting == ShiftCandidates(names[..i], recent, stats)
    {
      assert names[..i + 1][..i] == names[..i];
      match Candidate(names[i], recent, stats) {
        case Some(c) => shifting := shifting + [c];
        case None =>
      }
      i := i + 1;
    }
    assert names[..i] == names;
  }

  // ----- decision rules of the spike detector -----

  /** With exactly SPIKE_WINDOW records the baseline is the default 0.5, so a spike needs
      every record of the window to be high-risk. */
  lemma FullWindowSpikeNeedsAllHighRisk(t: AnalyticsTracker)
    requires |t.history| == SPIKE_WINDOW
    ensures t.DetectSpike().detected <==> forall i :: 0 <= i < |t.history| ==> t.history[i].prediction == 1
  {
    HighRiskCountExtremes(t.history);
    assert LastN(t.history, SPIKE_WINDOW) == t.history;
  }

  /** When no record before the window is high-risk, the zero baseline is replaced by the
      guard 0.01, and a single high-risk record in the window is a spike. */
  lemma ZeroBaselineSpikesOnAnyHighRisk(t: AnalyticsTracker)
    requires |t.history| > SPIKE_WINDOW
    requires forall i :: 0 <= i < |t.history| - SPIKE_WINDOW ==> t.history[i].prediction != 1
    ensures BaselineRate(t.history) == ZERO_BASELINE_GUARD
    ensures t.DetectSpike().detected <==> exists i :: |t.history| - SPIKE_WINDOW <= i < |t.history| && t.history[i].prediction == 1
  {
    var h := t.history;
    ZeroBaseline(h);
    var recent := LastN(h, SPIKE_WINDOW);
    HighRiskCountExtremes(recent);
    if exists i :: |h| - SPIKE_WINDOW <= i < |h| && h[i].prediction == 1 {
      var i :| |h| - SPIKE_WINDOW <= i < |h| && h[i].prediction == 1;
      assert recent[i - (|h| - SPIKE_WINDOW)] == h[i];
    } else {
      forall k | 0 <= k < |recent| ensures recent[k].prediction != 1 {
        assert recent[k] == h[k + |h| - SPIKE_WINDOW];
      }
    }
  }

  /** With no high-risk record before the window, the baseline is the guard value. */
  lemma ZeroBaseline(h: seq<Record>)
    requires |h| > SPIKE_WINDOW
    requires forall i :: 0 <= i < |h| - SPIKE_WINDOW ==> h[i].prediction != 1
    ensures BaselineRate(h) == ZERO_BASELINE_GUARD
  {
    var older := h[..|h| - SPIKE_WINDOW];
    assert forall i :: 0 <= i < |older| ==> older[i] == h[i];
    HighRiskCountExtremes(older);
  }

  /** A new tracker reports exactly the statistics response's defaults. */
  lemma FreshTrackerReportsDefaults(t: AnalyticsTracker)
    requires t.Valid() && t.total == 0
    ensures t.GetStats() == Schemas.DEFAULT_STATS
  {
  }
}
