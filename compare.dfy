/** Model selection after training: the per-model report and the choice of the best model
    by F1 score, and the thinning of each ROC curve to about fifty points. Training and the
    metric computations themselves are outside calls; their results are inputs here. */
module Compare {
  import opened Common

  /** The metrics recorded for one trained model. */
  datatype Metrics = Metrics(
    accuracy: real,
    precision: real,
    recall: real,
    f1Score: real,
    rocAuc: real,
    confusionMatrix: seq<seq<nat>>,
    fpr: seq<real>,
    tpr: seq<real>)

  datatype Report = Report(models: seq<(string, Metrics)>, bestModel: Option<string>)

  /** The F1 every model must beat to become the first best model. */
  const INITIAL_BEST_F1: real := -1.0
  const ROC_TARGET_POINTS: nat := 50

  /** Model i is the one the selection names: its F1 beats the initial value, no model
      has a larger F1, and every model before it has a strictly smaller one. */
  ghost predicate IsFirstBest(trained: seq<(string, Metrics)>, i: int)
  {
    && 0 <= i < |trained|
    && trained[i].1.f1Score > INITIAL_BEST_F1
    && (forall j :: 0 <= j < |trained| ==> trained[j].1.f1Score <= trained[i].1.f1Score)
    && (forall j :: 0 <= j < i ==> trained[j].1.f1Score < trained[i].1.f1Score)
  }

  /** Builds the report over the trained models in iteration order: every model's metrics
      under its name, and as best model the first one attaining the maximal F1, provided
      that F1 exceeds -1.0; with no such model the best model stays None. */
  method CompareModels(trained: seq<(string, Metrics)>) returns (report: Report)
    requires Distinct(Keys(trained))
    ensures report.models == trained
    ensures report.bestModel.None? <==> forall j :: 0 <= j < |trained| ==> trained[j].1.f1Score <= INITIAL_BEST_F1
    ensures report.bestModel.Some? ==> exists i :: IsFirstBest(trained, i) && report.bestModel.value == trained[i].0
  {
    var models: seq<(string, Metrics)> := [];
    var best: Option<string> := None;
    var bestF1 := INITIAL_BEST_F1;
    ghost var bestIndex := 0;
    for n := 0 to |trained|
      invariant models == trained[..n]
      invariant best.None? ==> bestF1 == INITIAL_BEST_F1
      invariant best.None? ==> forall j :: 0 <= j < n ==> trained[j].1.f1Score <= INITIAL_BEST_F1
      invariant best.Some? ==> 0 <= bestIndex < n && best.value == trained[bestIndex].0
      invariant best.Some? ==> bestF1 == trained[bestIndex].1.f1Score > INITIAL_BEST_F1
      invariant best.Some? ==> forall j :: 0 <= j < n ==> trained[j].1.f1Score <= bestF1
      invariant best.Some? ==> forall j :: 0 <= j < bestIndex ==> trained[j].1.f1Score < bestF1
    {
      var name := trained[n].0;
      var metrics := trained[n].1;
      NextKeyIsFresh(trained, n);
      AppendFreshModel(trained, n);
      models := Assign(models, name, metrics);
      if metrics.f1Score > bestF1 {
        bestF1 := metrics.f1Score;
        best := Some(name);
        bestIndex := n;
      }
    }
    assert trained[..|trained|] == trained;
    if best.Some? {
      assert IsFirstBest(trained, bestIndex);
    }
    report := Report(models, best);
  }

  lemma AppendFreshModel(trained: seq<(string, Metrics)>, n: nat)
    requires n < |trained| && trained[n].0 !in Keys(trained[..n])
    ensures Assign(trained[..n], trained[n].0, trained[n].1) == trained[..n + 1]
  {
    assert trained[..n + 1] == trained[..n] + [(trained[n].0, trained[n].1)];
  }

  lemma NextKeyIsFresh(trained: seq<(string, Metrics)>, n: nat)
    requires Distinct(Keys(trained)) && n < |trained|
    ensures trained[n].0 !in Keys(trained[..n])
  {
    forall j | 0 <= j < n ensures Keys(trained[..n])[j] != trained[n].0 {
      assert Keys(trained[..n])[j] == Keys(trained)[j];
      assert Keys(trained)[n] == trained[n].0;
    }
  }

  /** A best model is always named once some model's F1 is non-negative, as every real
      F1 score is. */
  lemma NonNegativeScoreNamesABest(trained: seq<(string, Metrics)>, i: int)
    requires 0 <= i < |trained| && trained[i].1.f1Score >= 0.0
    ensures !(forall j :: 0 <= j < |trained| ==> trained[j].1.f1Score <= INITIAL_BEST_F1)
  {
  }

  // ----- ROC thinning -----

  /** The step of the ROC thinning: one in every n/50 points, at least every point. */
  function Stride(n: nat): (s: nat)
    ensures s >= 1
    ensures n < 2 * ROC_TARGET_POINTS ==> s == 1
    ensures n >= 2 * ROC_TARGET_POINTS ==> n <= (2 * ROC_TARGET_POINTS - 1) * s
  {
    Max(1, n / ROC_TARGET_POINTS)
  }

  /** ceil(n / s), counted by repeated subtraction. */
  function CeilDiv(n: nat, s: nat): nat
    requires s >= 1
    decreases n
  {
    if n == 0 then 0 else if n <= s then 1 else 1 + CeilDiv(n - s, s)
  }

  /** CeilDiv is the ceiling of the quotient: the least k with n <= k * s. */
  lemma {:induction false} CeilDivIsCeiling(n: nat, s: nat)
    requires s >= 1
    ensures n <= CeilDiv(n, s) * s
    ensures n > 0 ==> (CeilDiv(n, s) - 1) * s < n
    decreases n
  {
    if n > s {
      CeilDivIsCeiling(n - s, s);
      MulStep(CeilDiv(n, s), s);
    }
  }

  lemma {:induction false} CeilDivAtMost(n: nat, s: nat, k: nat)
    requires s >= 1 && n <= k * s
    ensures CeilDiv(n, s) <= k
    decreases n
  {
    if n > s {
      MulStep(k, s);
      CeilDivAtMost(n - s, s, k - 1);
    }
  }

  lemma MulStep(i: int, s: int)
    ensures (i - 1) * s + s == i * s
  {
  }

  lemma {:induction false} MulMonotone(i: nat, j: nat, s: nat)
    requires i <= j
    ensures i * s <= j * s
    decreases j
  {
    if i < j {
      MulMonotone(i, j - 1, s);
      MulStep(j, s);
    }
  }

  /** `xs[::step]`: the elements at indices 0, step, 2*step, ... */
  function EveryNth<T>(xs: seq<T>, step: nat): (r: seq<T>)
    requires step >= 1
    ensures |r| == CeilDiv(|xs|, step)
    decreases |xs|
  {
    if xs == [] then []
    else if |xs| <= step then [xs[0]]
    else [xs[0]] + EveryNth(xs[step..], step)
  }

  lemma {:induction false} EveryNthAt<T>(xs: seq<T>, step: nat, i: nat)
    requires step >= 1 && i < |EveryNth(xs, step)|
    ensures i * step < |xs| && EveryNth(xs, step)[i] == xs[i * step]
    decreases |xs|
  {
    if i > 0 {
      EveryNthAt(xs[step..], step, i - 1);
      MulStep(i, step);
    }
  }

  /** The thinning applied to each of the fpr and tpr arrays, with its own length. */
  function Thin(xs: seq<real>): seq<real>
  {
    EveryNth(xs, Stride(|xs|))
  }

  /** The thinned array keeps the first point and every stride-th one after it, and its
      length is the ceiling of n / stride. */
  lemma ThinPicksEveryStrideth(xs: seq<real>)
    ensures |Thin(xs)| * Stride(|xs|) >= |xs|
    ensures xs != [] ==> (|Thin(xs)| - 1) * Stride(|xs|) < |xs|
    ensures forall i :: 0 <= i < |Thin(xs)| ==> i * Stride(|xs|) < |xs| && Thin(xs)[i] == xs[i * Stride(|xs|)]
  {
    CeilDivIsCeiling(|xs|, Stride(|xs|));
    forall i | 0 <= i < |Thin(xs)| ensures i * Stride(|xs|) < |xs| && Thin(xs)[i] == xs[i * Stride(|xs|)] {
      EveryNthAt(xs, Stride(|xs|), i);
    }
  }

  /** Arrays of fewer than 100 points are kept whole. */
  lemma ShortCurvesAreKeptWhole(xs: seq<real>)
    requires |xs| < 2 * ROC_TARGET_POINTS
    ensures Thin(xs) == xs
  {
    var r := Thin(xs);
    CeilDivIsCeiling(|xs|, 1);
    forall i | 0 <= i < |r| ensures r[i] == xs[i] {
      EveryNthAt(xs, 1, i);
    }
  }

  /** Arrays of equal length are thinned to equal lengths, so the fpr and tpr arrays of
      one curve stay aligned index by index. */
  lemma EqualLengthsStayEqual(fpr: seq<real>, tpr: seq<real>)
    requires |fpr| == |tpr|
    ensures |Thin(fpr)| == |Thin(tpr)|
  {
  }

  /** A thinned array never has more than 99 points. */
  lemma ThinnedLengthIsBounded(xs: seq<real>)
    ensures |Thin(xs)| <= 2 * ROC_TARGET_POINTS - 1
  {
    if |xs| >= 2 * ROC_TARGET_POINTS {
      CeilDivAtMost(|xs|, Stride(|xs|), 2 * ROC_TARGET_POINTS - 1);
    } else {
      CeilDivAtMost(|xs|, 1, |xs|);
    }
  }

  ghost predicate NonDecreasing(xs: seq<real>)
  {
    forall i, j :: 0 <= i < j < |xs| ==> xs[i] <= xs[j]
  }

  /** The thinned array is a subsequence, so a non-decreasing fpr array stays so. */
  lemma ThinKeepsNonDecreasing(xs: seq<real>)
    requires NonDecreasing(xs)
    ensures NonDecreasing(Thin(xs))
  {
    var s := Stride(|xs|);
    var r := Thin(xs);
    forall i, j | 0 <= i < j < |r| ensures r[i] <= r[j] {
      EveryNthAt(xs, s, i);
      EveryNthAt(xs, s, j);
      MulMonotone(i, j, s);
    }
  }
}
