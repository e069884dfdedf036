/** The `/model/performance` payload as the dashboard receives it: the saved comparison
    report, read back from JSON. Any key may be missing in what the dashboard is handed, so
    every field is optional here; a report written by the comparison has all of them. */
module Payload {
  import opened Common
  import Compare

  /** A model's `roc_curve` entry. */
  datatype Curve = Curve(fpr: Option<seq<real>>, tpr: Option<seq<real>>)

  /** One model's entry under `models`. A missing number reads as `undefined`. */
  datatype ModelEntry = ModelEntry(
    accuracy: Option<real>,
    precision: Option<real>,
    recall: Option<real>,
    f1Score: Option<real>,
    rocAuc: Option<real>,
    confusionMatrix: Option<seq<seq<int>>>,
    rocCurve: Option<Curve>)

  /** The payload: `models` (an object, in key order) and `best_model` (null when None). */
  datatype Performance = Performance(models: Option<seq<(string, ModelEntry)>>, bestModel: Option<string>)

  /** A model's metrics as the report stores them: the ROC arrays thinned to at most 99
      points each, and thinned to the same length when the curve's arrays had one. */
  function EntryOf(m: Compare.Metrics): (e: ModelEntry)
    ensures e.accuracy == Some(m.accuracy) && e.precision == Some(m.precision)
    ensures e.recall == Some(m.recall) && e.f1Score == Some(m.f1Score) && e.rocAuc == Some(m.rocAuc)
    ensures e.confusionMatrix == Some(m.confusionMatrix)
    ensures e.rocCurve == Some(Curve(Some(Compare.Thin(m.fpr)), Some(Compare.Thin(m.tpr))))
    ensures |e.rocCurve.value.fpr.value| <= 2 * Compare.ROC_TARGET_POINTS - 1
    ensures |e.rocCurve.value.tpr.value| <= 2 * Compare.ROC_TARGET_POINTS - 1
    ensures |m.fpr| == |m.tpr| ==> |e.rocCurve.value.fpr.value| == |e.rocCurve.value.tpr.value|
  {
    var e := ModelEntry(Some(m.accuracy), Some(m.precision), Some(m.recall), Some(m.f1Score), Some(m.rocAuc),
                        Some(m.confusionMatrix), Some(Curve(Some(Compare.Thin(m.fpr)), Some(Compare.Thin(m.tpr)))));
    Compare.ThinnedLengthIsBounded(m.fpr);
    Compare.ThinnedLengthIsBounded(m.tpr);
    if |m.fpr| == |m.tpr| then Compare.EqualLengthsStayEqual(m.fpr, m.tpr); e else e
  }

  function Entries(models: seq<(string, Compare.Metrics)>): (es: seq<(string, ModelEntry)>)
    ensures |es| == |models|
    ensures forall i :: 0 <= i < |models| ==> es[i] == (models[i].0, EntryOf(models[i].1))
  {
    if models == [] then [] else [(models[0].0, EntryOf(models[0].1))] + Entries(models[1..])
  }

  /** The report as written by the comparison and served unchanged: every model under its
      name in training order, and the best model's name (null when there is none). */
  function FromReport(r: Compare.Report): (p: Performance)
    ensures p.models.Some? && Keys(p.models.value) == Keys(r.models)
    ensures p.bestModel == r.bestModel
  {
    var es := Entries(r.models);
    assert Keys(es) == Keys(r.models);
    Performance(Some(es), r.bestModel)
  }

  /** The entry the payload holds for a model of the report is that model's metrics. */
  lemma ReportEntryLookup(r: Compare.Report, i: nat)
    requires i < |r.models| && Distinct(Keys(r.models))
    ensures Lookup(FromReport(r).models.value, r.models[i].0) == Some(EntryOf(r.models[i].1))
  {
    var es := FromReport(r).models.value;
    assert Keys(r.models)[i] == r.models[i].0;
    IndexOfDistinct(Keys(es), i);
  }
}
