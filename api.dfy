/** The HTTP endpoints around the tracker: the guard order of the prediction endpoint,
    the analytics read endpoints, and the feature-importance endpoint's stable sort. The
    model's `predict` and `get_feature_importance` are outside collaborators, so their
    results are parameters. */
module Api {
  import opened Common
  import opened Sorting
  import Schemas
  import Analytics

  const NOT_FOUND: int := 404
  const INTERNAL_SERVER_ERROR: int := 500
  const SERVICE_UNAVAILABLE: int := 503
  const DEFAULT_HISTORY_LIMIT: int := 200

  datatype Response<T> = Ok(body: T) | Error(status: int)

  /** What the model's `predict` call did: raised, or returned a result whose optional keys
      may be missing (a missing key raises when it is read). */
  datatype PredictOutcome =
    | Raised
    | Returned(prediction: int, probability: real, isOutlier: Option<bool>,
               anomalyScore: Option<real>, contributions: Option<seq<(string, real)>>)

  /** `POST /predict`. Request validation comes first (422). Without a loaded model the
      answer is 503 and nothing is recorded. A raising `predict`, or a result without
      `is_outlier`, gives 500 before the tracker is touched. Otherwise the prediction is
      recorded, and the response is built; a missing `anomaly_score` or contribution list,
      or a probability outside [0, 1], still gives 500, after recording. */
  method MakePrediction(tracker: Analytics.AnalyticsTracker, body: Schemas.Body, modelLoaded: bool,
                        outcome: PredictOutcome, timestamp: string)
    returns (r: Response<Schemas.PredictionResponse>)
    requires tracker.Valid()
    modifies tracker
    ensures tracker.Valid()
    ensures Schemas.ValidateInput(body).Rejected? ==>
              r == Error(Schemas.UNPROCESSABLE_ENTITY) && unchanged(tracker)
    ensures Schemas.ValidateInput(body).Accepted? && !modelLoaded ==>
              r == Error(SERVICE_UNAVAILABLE) && unchanged(tracker)
    ensures Schemas.ValidateInput(body).Accepted? && modelLoaded && (outcome.Raised? || outcome.isOutlier.None?) ==>
              r == Error(INTERNAL_SERVER_ERROR) && unchanged(tracker)
    ensures Schemas.ValidateInput(body).Accepted? && modelLoaded && outcome.Returned? && outcome.isOutlier.Some? ==>
              && tracker.total == old(tracker.total) + 1
              && tracker.highRisk == old(tracker.highRisk) + (if outcome.prediction == 1 then 1 else 0)
              && tracker.lowRisk == old(tracker.lowRisk) + (if outcome.prediction == 1 then 0 else 1)
              && tracker.outlierCount == old(tracker.outlierCount) + (if outcome.isOutlier.value then 1 else 0)
              && tracker.confidenceSum == old(tracker.confidenceSum) + outcome.probability
              && tracker.baselineStats == old(tracker.baselineStats)
              && tracker.history == Analytics.BoundedAppend(old(tracker.history),
                   Analytics.Record(timestamp, outcome.prediction, outcome.probability, outcome.isOutlier.value,
                                    Analytics.RecordedFeatures(Schemas.ValidateInput(body).features)))
    ensures Schemas.ValidateInput(body).Accepted? && modelLoaded && outcome.Returned? && outcome.isOutlier.Some? ==>
              && (r.Ok? <==> outcome.anomalyScore.Some? && outcome.contributions.Some? && 0.0 <= outcome.probability <= 1.0)
              && (r.Error? ==> r.status == INTERNAL_SERVER_ERROR)
              && (r.Ok? ==> r.body == Schemas.PredictionResponse(outcome.prediction, outcome.probability,
                               outcome.isOutlier.value, outcome.anomalyScore.value, outcome.contributions.value, "success"))
  {
    match Schemas.ValidateInput(body) {
      case Rejected(status) =>
        return Error(status);
      case Accepted(features) =>
        if !modelLoaded {
          return Error(SERVICE_UNAVAILABLE);
        }
        match outcome {
          case Raised =>
            return Error(INTERNAL_SERVER_ERROR);
          case Returned(prediction, probability, isOutlier, anomalyScore, contributions) =>
            if isOutlier.None? {
              return Error(INTERNAL_SERVER_ERROR);
            }
            tracker.RecordPrediction(prediction, probability, isOutlier.value, features, timestamp);
            return PredictionReply(prediction, probability, isOutlier.value, anomalyScore, contributions);
        }
    }
  }

  /** The reply to a recorded prediction: the response model built from the result, or 500
      when a key of the result is missing or the model rejects the probability. */
  function PredictionReply(prediction: int, probability: real, isOutlier: bool,
                           anomalyScore: Option<real>, contributions: Option<seq<(string, real)>>)
    : (r: Response<Schemas.PredictionResponse>)
    ensures r.Ok? <==> anomalyScore.Some? && contributions.Some? && 0.0 <= probability <= 1.0
    ensures r.Error? ==> r.status == INTERNAL_SERVER_ERROR
    ensures r.Ok? ==> r.body == Schemas.PredictionResponse(prediction, probability, isOutlier,
                                  anomalyScore.value, contributions.value, "success")
  {
    if anomalyScore.None? || contributions.None? then Error(INTERNAL_SERVER_ERROR)
    else
      var response := Schemas.NewPredictionResponse(prediction, probability, Some(isOutlier), anomalyScore, contributions);
      if response.None? then Error(INTERNAL_SERVER_ERROR) else Ok(response.value)
  }

  /** `GET /analytics/history`: without a limit, the newest 200 records, oldest first. */
  function HistoryEndpoint(t: Analytics.AnalyticsTracker, limit: Option<int>): (r: seq<Analytics.Record>)
    reads t
    ensures limit.None? ==> r == LastN(t.history, DEFAULT_HISTORY_LIMIT as nat)
    ensures limit.Some? ==> r == t.GetHistory(limit.value)
  {
    t.GetHistory(if limit.Some? then limit.value else DEFAULT_HISTORY_LIMIT)
  }

  /** `GET /analytics/spikes`: the verdict as the response model sends it. The `required`
      key is dropped; a short history sends the model's defaults (no spike, score 0, both
      rates null) with only the message and the window size filled in. */
  function SpikesEndpoint(t: Analytics.AnalyticsTracker): (r: Schemas.SpikeDetectionResponse)
    reads t
    ensures |t.history| < Analytics.SPIKE_WINDOW ==>
              r == Schemas.DEFAULT_SPIKE.(message := Analytics.INSUFFICIENT_MESSAGE, windowSize := |t.history|)
    ensures |t.history| >= Analytics.SPIKE_WINDOW ==>
              r.recentHighRiskRate.Some? && r.baselineHighRiskRate.Some? && r.windowSize == Analytics.SPIKE_WINDOW
    ensures |t.history| >= Analytics.SPIKE_WINDOW ==>
              && r.message == t.DetectSpike().message
              && r.recentHighRiskRate == t.DetectSpike().recentRate
              && r.baselineHighRiskRate == t.DetectSpike().baselineRate
    ensures r.spikeDetected == t.DetectSpike().detected && r.spikeScore == t.DetectSpike().score
  {
    var report := t.DetectSpike();
    Schemas.SpikeDetectionResponse(report.detected, report.score, report.message,
                                   report.recentRate, report.baselineRate, report.windowSize)
  }

  // ----- feature importance -----

  datatype ImportanceEntry = ImportanceEntry(name: string, importance: real)

  function ImportanceOf(kv: (string, real)): real { kv.1 }

  function Entries(kvs: seq<(string, real)>): (es: seq<ImportanceEntry>)
    ensures |es| == |kvs|
    ensures forall i :: 0 <= i < |kvs| ==> es[i] == ImportanceEntry(kvs[i].0, kvs[i].1)
  {
    if kvs == [] then [] else [ImportanceEntry(kvs[0].0, kvs[0].1)] + Entries(kvs[1..])
  }

  function Pairs(es: seq<ImportanceEntry>): (kvs: seq<(string, real)>)
    ensures |kvs| == |es|
    ensures forall i :: 0 <= i < |es| ==> kvs[i] == (es[i].name, es[i].importance)
  {
    if es == [] then [] else [(es[0].name, es[0].importance)] + Pairs(es[1..])
  }

  /** `GET /model/feature-importance`. `importance` is the mapping's items in insertion
      order, None when there is no mapping. A missing or empty mapping is a 404; otherwise
      one entry per item, sorted by importance, largest first. */
  function FeatureImportanceEndpoint(importance: Option<seq<(string, real)>>): (r: Response<seq<ImportanceEntry>>)
    ensures r.Error? <==> importance.None? || importance.value == []
    ensures r.Error? ==> r.status == NOT_FOUND
    ensures r.Ok? ==> |r.body| == |importance.value|
  {
    if importance.None? || importance.value == [] then Error(NOT_FOUND)
    else Ok(Entries(SortDescending(importance.value, ImportanceOf)))
  }

  /** The returned features are ordered by importance, non-increasing, and are a
      permutation of the mapping's items: each name with its own importance. */
  lemma ImportanceIsSortedPermutation(items: seq<(string, real)>)
    requires items != []
    ensures var body := FeatureImportanceEndpoint(Some(items)).body;
      && (forall i, j :: 0 <= i < j < |body| ==> body[i].importance >= body[j].importance)
      && multiset(Pairs(body)) == multiset(items)
  {
    var sorted := SortDescending(items, ImportanceOf);
    var body := Entries(sorted);
    assert Pairs(body) == sorted;
    forall i, j | 0 <= i < j < |body| ensures body[i].importance >= body[j].importance {
      assert ImportanceOf(sorted[i]) >= ImportanceOf(sorted[j]);
    }
  }

  /** Entries of equal importance keep the mapping's order: the sort is stable even in
      reverse. */
  lemma {:induction false} EqualImportancesKeepMappingOrder(items: seq<(string, real)>)
    requires items != [] && Distinct(Keys(items))
    ensures var body := FeatureImportanceEndpoint(Some(items)).body;
      forall i, j :: 0 <= i < j < |body| && body[i].importance == body[j].importance
        ==> IndexOf(Keys(items), body[i].name) < IndexOf(Keys(items), body[j].name)
  {
    var ks := Keys(items);
    var rank := (kv: (string, real)) => IndexOf(ks, kv.0);
    forall i, j | 0 <= i < j < |items| ensures rank(items[i]) < rank(items[j]) {
      IndexOfDistinct(ks, i);
      IndexOfDistinct(ks, j);
    }
    SortIsStable(items, ImportanceOf, rank);
  }

  /** The mapping's keys being distinct, no name is returned twice. */
  lemma {:induction false} NoNameIsReturnedTwice(items: seq<(string, real)>)
    requires items != [] && Distinct(Keys(items))
    ensures var body := FeatureImportanceEndpoint(Some(items)).body;
      forall i, j :: 0 <= i < j < |body| ==> body[i].name != body[j].name
  {
    var ks := Keys(items);
    var differ := (a: (string, real), b: (string, real)) => a.0 != b.0;
    forall i, j | 0 <= i < |items| && 0 <= j < |items| && i != j ensures differ(items[i], items[j]) {
      assert ks[i] == items[i].0 && ks[j] == items[j].0;
    }
    SortKeepsPairwise(items, ImportanceOf, differ);
  }
}
