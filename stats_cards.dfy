/** The four statistic cards at the top of the dashboard: total, high-risk and low-risk
    counts, and the average confidence as a whole percentage; the high-risk card also
    shows the high-risk rate as a whole percentage. */
module StatsCards {
  import opened Common
  import Schemas
  import Analytics

  datatype CardValue = Count(n: int) | Percentage(p: int)

  /** One card. `sub` is the small line under the value; only the high-risk card has one,
      and as a non-empty text it is always shown. */
  datatype Card = Card(name: string, value: CardValue, sub: Option<int>)

  /** `Math.round(fraction * 100)`. */
  function PercentOf(fraction: real): int
  {
    RoundHalfUp(fraction * 100.0)
  }

  /** The cards for the statistics response, or None before any statistics arrive. The
      high-risk line is 0 percent while nothing has been predicted. */
  function Cards(stats: Option<Schemas.StatsResponse>): Option<seq<Card>>
  {
    match stats
    case None => None
    case Some(s) => Some([
      Card("Total Predictions", Count(s.totalPredictions), None),
      Card("High Risk", Count(s.highRiskCount),
           Some(if s.totalPredictions > 0 then PercentOf(s.highRiskRate) else 0)),
      Card("Low Risk", Count(s.lowRiskCount), None),
      Card("Avg Confidence", Percentage(PercentOf(s.averageConfidence)), None)])
  }

  /** Four cards in a fixed order, showing the response's counts; only the high-risk card
      has a line under its value, and it reads 0 percent when nothing was predicted. */
  lemma CardsShowTheCounts(s: Schemas.StatsResponse)
    ensures var cards := Cards(Some(s)).value;
      && |cards| == 4
      && cards[0].name == "Total Predictions" && cards[0].value == Count(s.totalPredictions)
      && cards[1].name == "High Risk" && cards[1].value == Count(s.highRiskCount)
      && cards[2].name == "Low Risk" && cards[2].value == Count(s.lowRiskCount)
      && cards[3].name == "Avg Confidence" && cards[3].value == Percentage(PercentOf(s.averageConfidence))
      && (forall i :: 0 <= i < 4 ==> (cards[i].sub.Some? <==> i == 1))
      && (s.totalPredictions <= 0 ==> cards[1].sub == Some(0))
      && (s.totalPredictions > 0 ==> cards[1].sub == Some(PercentOf(s.highRiskRate)))
    ensures Cards(None).None?
  {
  }

  /** For the tracker's statistics the high-risk line is the high-risk share of all
      predictions rounded to a whole percentage, between 0 and 100, and the two risk cards
      add up to the total card. */
  lemma TrackerCardsAreConsistent(t: Analytics.AnalyticsTracker)
    requires t.Valid()
    ensures var cards := Cards(Some(t.GetStats())).value;
      && cards[1].value.n + cards[2].value.n == cards[0].value.n
      && 0 <= cards[1].sub.value <= 100
      && (t.total == 0 ==> cards[1].sub == Some(0) && cards[3].value == Percentage(0))
      && (t.total > 0 ==>
            cards[1].sub.value as real - 0.5 <= (t.highRisk as real / t.total as real) * 100.0 < cards[1].sub.value as real + 0.5)
  {
    var s := t.GetStats();
    if t.total > 0 {
      assert s.highRiskRate == t.highRisk as real / t.total as real;
    }
  }
}
