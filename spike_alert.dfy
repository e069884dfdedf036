/** The spike alert panel of the dashboard. It stays hidden while there is nothing to say
    (no verdict yet, or a quiet verdict without a message or with the short-history
    message); otherwise it shows the verdict, and on a spike the score badge, up to three
    shifted features with bars scaled by their magnitude, and the current and baseline
    high-risk rates as whole percentages. */
module SpikeAlert {
  import opened Common
  import Schemas
  import Analytics
  import Api

  /** The `/analytics/spikes` payload as the panel reads it. A missing flag reads as false;
      a rate is undefined when its key is missing and null when the server sent null. */
  datatype SpikeData = SpikeData(
    detected: bool,
    score: Option<real>,
    message: Option<string>,
    recentRate: Nullable<real>,
    baselineRate: Nullable<real>)

  /** The `/analytics/spike-analysis` payload; a missing feature list is None. */
  datatype AnalysisData = AnalysisData(explanation: string, shiftingFeatures: Option<seq<Analytics.ShiftingFeature>>)

  datatype FeatureBar = FeatureBar(feature: string, direction: string, width: real, magnitude: real)
  datatype AnalysisBlock = AnalysisBlock(explanation: string, bars: seq<FeatureBar>)
  datatype ScoreBadge = ScoreBadge(score: Option<real>)
  /** The two rates as whole percentages; None is a rate that is not a number. */
  datatype Rates = Rates(current: Option<int>, baseline: Option<int>)

  datatype Panel = Panel(
    active: bool,
    title: string,
    message: Option<string>,
    badge: Option<ScoreBadge>,
    analysis: Option<AnalysisBlock>,
    rates: Option<Rates>)

  const SHORT_HISTORY_MARKER: string := "Insufficient"
  const SPIKE_TITLE: string := "Spike Detected!"
  const NORMAL_TITLE: string := "No Spike Detected"
  const SHOWN_FEATURES: nat := 3

  /** The payload the server sends for a verdict: every key present, a missing rate as null. */
  function FromResponse(r: Schemas.SpikeDetectionResponse): (d: SpikeData)
    ensures d.detected == r.spikeDetected && d.score == Some(r.spikeScore) && d.message == Some(r.message)
    ensures d.recentRate.Undefined? == false && d.baselineRate.Undefined? == false
    ensures d.recentRate.Defined? <==> r.recentHighRiskRate.Some?
    ensures d.recentRate.Defined? ==> d.recentRate.value == r.recentHighRiskRate.value
    ensures d.baselineRate.Defined? <==> r.baselineHighRiskRate.Some?
    ensures d.baselineRate.Defined? ==> d.baselineRate.value == r.baselineHighRiskRate.value
  {
    SpikeData(r.spikeDetected, Some(r.spikeScore), Some(r.message),
              NullableOf(r.recentHighRiskRate), NullableOf(r.baselineHighRiskRate))
  }

  function NullableOf(x: Option<real>): Nullable<real>
  {
    match x
    case None => Null
    case Some(v) => Defined(v)
  }

  /** The analysis payload the server sends. */
  function FromAnalysis(a: Analytics.SpikeAnalysis): AnalysisData
  {
    AnalysisData(a.explanation, Some(a.shiftingFeatures))
  }

  /** The panel is hidden when there is no verdict, or when no spike is detected and the
      message is empty, missing, or the short-history message. */
  predicate Hidden(data: Option<SpikeData>)
  {
    data.None? ||
    (!data.value.detected && (!Truthy(data.value.message) || Contains(data.value.message.value, SHORT_HISTORY_MARKER)))
  }

  /** `Math.min(magnitude * 25, 100)`, the bar's width in percent. */
  function BarWidth(magnitude: real): (w: real)
    ensures w <= 100.0 && w <= magnitude * 25.0
    ensures w == 100.0 || w == magnitude * 25.0
  {
    if magnitude * 25.0 < 100.0 then magnitude * 25.0 else 100.0
  }

  function Bars(fs: seq<Analytics.ShiftingFeature>): (bars: seq<FeatureBar>)
    ensures |bars| == |fs|
    ensures forall i :: 0 <= i < |fs| ==>
              bars[i] == FeatureBar(fs[i].feature, fs[i].direction, BarWidth(fs[i].shiftMagnitude), fs[i].shiftMagnitude)
  {
    if fs == [] then []
    else [FeatureBar(fs[0].feature, fs[0].direction, BarWidth(fs[0].shiftMagnitude), fs[0].shiftMagnitude)] + Bars(fs[1..])
  }

  /** `Math.round(rate * 100)`: a null rate counts as 0, an undefined one gives NaN. */
  function RatePercent(rate: Nullable<real>): (p: Option<int>)
  {
    match rate
    case Undefined => None
    case Null => Some(0)
    case Defined(x) => Some(RoundHalfUp(x * 100.0))
  }

  /** The analysis block: on a spike, with an analysis whose feature list is not empty. */
  function AnalysisOf(detected: bool, analysis: Option<AnalysisData>): Option<AnalysisBlock>
  {
    if detected && analysis.Some? && analysis.value.shiftingFeatures.Some? && |analysis.value.shiftingFeatures.value| > 0
    then Some(AnalysisBlock(analysis.value.explanation, Bars(Take(analysis.value.shiftingFeatures.value, SHOWN_FEATURES))))
    else None
  }

  /** The rendered panel, or None when it is hidden. */
  function Render(data: Option<SpikeData>, analysis: Option<AnalysisData>): (p: Option<Panel>)
    ensures p.None? <==> Hidden(data)
  {
    if Hidden(data) then None
    else
      var d := data.value;
      Some(Panel(
        d.detected,
        if d.detected then SPIKE_TITLE else NORMAL_TITLE,
        d.message,
        if d.detected then Some(ScoreBadge(d.score)) else None,
        AnalysisOf(d.detected, analysis),
        if d.detected && !d.recentRate.Undefined? then Some(Rates(RatePercent(d.recentRate), RatePercent(d.baselineRate)))
        else None))
  }

  /** A shown panel without a spike has the normal title and only the message. */
  lemma QuietPanelShowsOnlyTheMessage(data: Option<SpikeData>, analysis: Option<AnalysisData>)
    requires data.Some? && !data.value.detected && Truthy(data.value.message)
    requires !Contains(data.value.message.value, SHORT_HISTORY_MARKER)
    ensures Render(data, analysis) == Some(Panel(false, NORMAL_TITLE, data.value.message, None, None, None))
  {
  }

  /** On a spike the panel is active, carries the score badge, and shows the rates exactly
      when the current rate's key is present. */
  lemma SpikePanelShowsScoreAndRates(data: Option<SpikeData>, analysis: Option<AnalysisData>)
    requires data.Some? && data.value.detected
    ensures Render(data, analysis).Some?
    ensures var p := Render(data, analysis).value;
      && p.active && p.title == SPIKE_TITLE && p.badge == Some(ScoreBadge(data.value.score))
      && (p.rates.Some? <==> !data.value.recentRate.Undefined?)
  {
  }

  /** The analysis block appears exactly on a spike with a non-empty feature list, and shows
      the first three features in their order. */
  lemma AnalysisShowsTheFirstThree(data: Option<SpikeData>, analysis: Option<AnalysisData>)
    requires !Hidden(data)
    ensures var block := Render(data, analysis).value.analysis;
      && (block.Some? <==> data.value.detected && analysis.Some? && analysis.value.shiftingFeatures.Some?
                           && |analysis.value.shiftingFeatures.value| > 0)
      && (block.Some? ==>
            var fs := analysis.value.shiftingFeatures.value;
            && |block.value.bars| == Min(SHOWN_FEATURES, |fs|)
            && forall i :: 0 <= i < |block.value.bars| ==>
                 block.value.bars[i].feature == fs[i].feature && block.value.bars[i].magnitude == fs[i].shiftMagnitude)
  {
  }

  /** A bar of non-negative magnitude fills between 0 and 100 percent; a feature the
      analysis reports (magnitude above the shift threshold) fills more than 12.5 percent. */
  lemma BarWidthInRange(magnitude: real)
    requires magnitude >= 0.0
    ensures 0.0 <= BarWidth(magnitude) <= 100.0
    ensures magnitude > Analytics.SHIFT_THRESHOLD ==> 12.5 < BarWidth(magnitude)
    ensures magnitude >= 4.0 <==> BarWidth(magnitude) == 100.0
  {
  }

  /** Wider bars belong to larger magnitudes. */
  lemma BarWidthMonotone(a: real, b: real)
    requires a <= b
    ensures BarWidth(a) <= BarWidth(b)
  {
  }

  /** A rate in [0, 1] shows as a whole percentage in [0, 100]. */
  lemma RatePercentInRange(x: real)
    requires 0.0 <= x <= 1.0
    ensures var p := RatePercent(Defined(x)); p.Some? && 0 <= p.value <= 100
  {
  }

  /** A null rate shows as 0 percent, an undefined one as not a number. */
  lemma MissingRates()
    ensures RatePercent(Null) == Some(0) && RatePercent(Undefined).None?
  {
  }

  lemma ShortHistoryMarkerOccurs()
    ensures Contains(Analytics.INSUFFICIENT_MESSAGE, SHORT_HISTORY_MARKER)
  {
    assert OccursAt(Analytics.INSUFFICIENT_MESSAGE, SHORT_HISTORY_MARKER, 0);
  }

  /** The marker starts with a capital I, so a message without one cannot contain it. */
  lemma MarkerNeedsACapitalI(msg: string)
    requires 'I' !in msg
    ensures !Contains(msg, SHORT_HISTORY_MARKER)
  {
    forall i | 0 <= i <= |msg| - |SHORT_HISTORY_MARKER| ensures !OccursAt(msg, SHORT_HISTORY_MARKER, i) {
      assert msg[i..i + |SHORT_HISTORY_MARKER|][0] == msg[i];
    }
  }

  lemma NormalMessageHasNoMarker()
    ensures !Contains(Analytics.NORMAL_MESSAGE, SHORT_HISTORY_MARKER)
  {
    assert 'I' !in "No spike detected." && 'I' !in " Prediction patterns are normal.";
    MarkerNeedsACapitalI(Analytics.NORMAL_MESSAGE);
  }

  /** While the tracker holds fewer records than the spike window, its verdict carries the
      short-history message and the panel stays hidden. */
  lemma ShortHistoryVerdictIsHidden(t: Analytics.AnalyticsTracker, analysis: Option<AnalysisData>)
    requires |t.history| < Analytics.SPIKE_WINDOW
    ensures Render(Some(FromResponse(Api.SpikesEndpoint(t))), analysis).None?
  {
    ShortHistoryMarkerOccurs();
  }

  /** A quiet verdict over a full window is shown as the normal panel with its message and
      nothing else. */
  lemma QuietVerdictIsShown(t: Analytics.AnalyticsTracker, analysis: Option<AnalysisData>)
    requires |t.history| >= Analytics.SPIKE_WINDOW && !t.DetectSpike().detected
    ensures Render(Some(FromResponse(Api.SpikesEndpoint(t))), analysis)
            == Some(Panel(false, NORMAL_TITLE, Some(Analytics.NORMAL_MESSAGE), None, None, None))
  {
    NormalMessageHasNoMarker();
  }

  /** A detected spike is shown with its score and with the window's and the baseline's
      high-risk rates as whole percentages in [0, 100]. */
  lemma SpikeVerdictShowsItsRates(t: Analytics.AnalyticsTracker, analysis: Option<AnalysisData>)
    requires t.DetectSpike().detected
    ensures var p := Render(Some(FromResponse(Api.SpikesEndpoint(t))), analysis);
      && p.Some? && p.value.active && p.value.badge == Some(ScoreBadge(Some(t.DetectSpike().score)))
      && p.value.rates == Some(Rates(
           Some(RoundHalfUp(Analytics.HighRiskRate(LastN(t.history, Analytics.SPIKE_WINDOW)) * 100.0)),
           Some(RoundHalfUp(Analytics.BaselineRate(t.history) * 100.0))))
      && 0 <= p.value.rates.value.current.value <= 100 && 0 <= p.value.rates.value.baseline.value <= 100
  {
    RatePercentInRange(Analytics.HighRiskRate(LastN(t.history, Analytics.SPIKE_WINDOW)));
    RatePercentInRange(Analytics.BaselineRate(t.history));
  }

  /** Bars of significant features ranked by magnitude are filled more than 12.5 and at
      most 100 percent, widest first. */
  lemma {:induction false} RankedFeatureBars(fs: seq<Analytics.ShiftingFeature>)
    requires forall i :: 0 <= i < |fs| ==> fs[i].shiftMagnitude > Analytics.SHIFT_THRESHOLD
    requires forall i, j :: 0 <= i < j < |fs| ==> fs[i].shiftMagnitude >= fs[j].shiftMagnitude
    ensures forall i :: 0 <= i < |fs| ==> 12.5 < Bars(fs)[i].width <= 100.0
    ensures forall i, j :: 0 <= i < j < |fs| ==> Bars(fs)[i].width >= Bars(fs)[j].width
  {
    forall i | 0 <= i < |fs| ensures 12.5 < Bars(fs)[i].width <= 100.0 {
      BarWidthInRange(fs[i].shiftMagnitude);
    }
    forall i, j | 0 <= i < j < |fs| ensures Bars(fs)[i].width >= Bars(fs)[j].width {
      BarWidthMonotone(fs[j].shiftMagnitude, fs[i].shiftMagnitude);
    }
  }

  /** The analysis the tracker sends on a spike (its features are the first five ranked
      shifts) shows at most three bars, widest first, each filled more than 12.5 and at
      most 100 percent. */
  lemma RankedAnalysisBars(names: seq<string>, recent: seq<Analytics.Record>,
                           stats: map<string, Analytics.BaselineStat>, a: Analytics.SpikeAnalysis)
    requires a.shiftingFeatures == Take(Analytics.RankedShifts(names, recent, stats), Analytics.MAX_SHIFTING_FEATURES)
    requires a.shiftingFeatures != []
    ensures var bars := AnalysisOf(true, Some(FromAnalysis(a))).value.bars;
      && |bars| == Min(SHOWN_FEATURES, |a.shiftingFeatures|)
      && (forall i :: 0 <= i < |bars| ==> 12.5 < bars[i].width <= 100.0)
      && (forall i, j :: 0 <= i < j < |bars| ==> bars[i].width >= bars[j].width)
  {
    var ranked := Analytics.RankedShifts(names, recent, stats);
    Analytics.RankedShiftsAreSignificantAndOrdered(names, recent, stats);
    var shown := Take(a.shiftingFeatures, SHOWN_FEATURES);
    assert forall i :: 0 <= i < |shown| ==> shown[i] == ranked[i];
    RankedFeatureBars(shown);
  }
}
