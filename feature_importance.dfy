/** The feature-importance chart: the first thirteen entries of the served list, in the
    order served, as horizontal bars whose colour shifts with the position. */
module FeatureImportance {
  import opened Common
  import Api

  const SHOWN_FEATURES: nat := 13

  /** One bar with its HSL fill: hue and lightness in degrees and percent. */
  datatype Bar = Bar(name: string, importance: real, hue: int, lightness: int)

  function Hue(i: nat): int { 210 + i * 10 }
  function Lightness(i: nat): int { 55 + i * 2 }

  function BarsFrom(es: seq<Api.ImportanceEntry>, start: nat): (bars: seq<Bar>)
    ensures |bars| == |es|
    ensures forall i :: 0 <= i < |es| ==>
              bars[i] == Bar(es[i].name, es[i].importance, Hue(start + i), Lightness(start + i))
  {
    if es == [] then [] else [Bar(es[0].name, es[0].importance, Hue(start), Lightness(start))] + BarsFrom(es[1..], start + 1)
  }

  /** The chart, or None when there is no list or it is empty. */
  function Chart(features: Option<seq<Api.ImportanceEntry>>): Option<seq<Bar>>
  {
    if features.None? || |features.value| == 0 then None
    else Some(BarsFrom(Take(features.value, SHOWN_FEATURES), 0))
  }

  /** The chart appears exactly for a non-empty list and shows its first min(13, n)
      entries unchanged and in order. */
  lemma ChartShowsTheFirstThirteen(features: Option<seq<Api.ImportanceEntry>>)
    ensures Chart(features).Some? <==> features.Some? && features.value != []
    ensures Chart(features).Some? ==>
              var bars := Chart(features).value;
              && |bars| == Min(SHOWN_FEATURES, |features.value|)
              && forall i :: 0 <= i < |bars| ==>
                   bars[i].name == features.value[i].name && bars[i].importance == features.value[i].importance
  {
  }

  /** The colours step through hues 210 to 330 and lightness 55 to 79 percent, one step
      per position, so no two bars share a colour. */
  lemma ColoursAreDistinctAndInRange(features: Option<seq<Api.ImportanceEntry>>)
    requires Chart(features).Some?
    ensures var bars := Chart(features).value;
      && (forall i :: 0 <= i < |bars| ==> 210 <= bars[i].hue <= 330 && 55 <= bars[i].lightness <= 79)
      && (forall i, j :: 0 <= i < j < |bars| ==> bars[i].hue < bars[j].hue && bars[i].lightness < bars[j].lightness)
  {
  }

  /** Over the server's list the chart shows the thirteen most important features: each
      shown importance is at least every hidden one, and the shown features are among the
      mapping's items with their own importances. */
  lemma ChartShowsTheMostImportant(items: seq<(string, real)>)
    requires items != []
    ensures var body := Api.FeatureImportanceEndpoint(Some(items)).body;
      var bars := Chart(Some(body)).value;
      && (forall i, j :: 0 <= i < |bars| && |bars| <= j < |body| ==> bars[i].importance >= body[j].importance)
      && (forall i :: 0 <= i < |bars| ==> (bars[i].name, bars[i].importance) in multiset(items))
  {
    var body := Api.FeatureImportanceEndpoint(Some(items)).body;
    Api.ImportanceIsSortedPermutation(items);
    ShownOutrankHidden(body);
    ShownAreListed(body);
  }

  lemma ShownOutrankHidden(body: seq<Api.ImportanceEntry>)
    requires body != []
    requires forall i, j :: 0 <= i < j < |body| ==> body[i].importance >= body[j].importance
    ensures var bars := Chart(Some(body)).value;
      forall i, j :: 0 <= i < |bars| && |bars| <= j < |body| ==> bars[i].importance >= body[j].importance
  {
    ChartShowsTheFirstThirteen(Some(body));
  }

  lemma ShownAreListed(body: seq<Api.ImportanceEntry>)
    requires body != []
    ensures var bars := Chart(Some(body)).value;
      forall i :: 0 <= i < |bars| ==> (bars[i].name, bars[i].importance) in multiset(Api.Pairs(body))
  {
    ChartShowsTheFirstThirteen(Some(body));
    var bars := Chart(Some(body)).value;
    var kvs := Api.Pairs(body);
    forall i | 0 <= i < |bars| ensures (bars[i].name, bars[i].importance) in multiset(kvs) {
      assert kvs[i] == (bars[i].name, bars[i].importance);
    }
  }
}
