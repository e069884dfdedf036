/** The confusion-matrix panel: the best model's 2x2 matrix as four cells in the fixed
    order true negative, false positive, false negative, true positive, each with its raw
    count and its share of the total as a whole percentage. */
module ConfusionMatrix {
  import opened Common
  import opened Payload
  import Compare

  /** One cell. A missing count reads as `undefined`; a percentage that is not a finite
      number (NaN from 0/0, or an infinite quotient) is None. */
  datatype Cell = Cell(name: string, value: Option<int>, pct: Option<int>, cls: string)

  /** `cm[r][c]` of a matrix with at least r + 1 rows; `undefined` past the row's end. */
  function EntryAt(cm: seq<seq<int>>, r: nat, c: nat): (v: Option<int>)
    requires r < |cm|
    ensures v.Some? <==> c < |cm[r]|
    ensures v.Some? ==> v.value == cm[r][c]
  {
    if c < |cm[r]| then Some(cm[r][c]) else None
  }

  /** `tn + fp + fn + tp`: undefined as soon as one addend is. */
  function Total(tn: Option<int>, fp: Option<int>, fn: Option<int>, tp: Option<int>): (t: Option<int>)
    ensures t.Some? <==> tn.Some? && fp.Some? && fn.Some? && tp.Some?
    ensures t.Some? ==> t.value == tn.value + fp.value + fn.value + tp.value
  {
    if tn.Some? && fp.Some? && fn.Some? && tp.Some? then Some(tn.value + fp.value + fn.value + tp.value)
    else None
  }

  /** `Math.round((v / total) * 100)`: the nearest whole percentage, a half rounded up;
      None when the quotient is not a finite number. */
  function Percent(v: Option<int>, total: Option<int>): (p: Option<int>)
    ensures p.Some? <==> v.Some? && total.Some? && total.value != 0
    ensures p.Some? ==>
              p.value as real - 0.5 <= (v.value as real / total.value as real) * 100.0 < p.value as real + 0.5
  {
    if v.Some? && total.Some? && total.value != 0 then
      Some(RoundHalfUp((v.value as real / total.value as real) * 100.0))
    else None
  }

  /** The matrix the panel shows, or None when it renders nothing: no payload, no models,
      no truthy best model, no entry for it, no matrix, or fewer than two rows. */
  function BestMatrix(perf: Option<Performance>): Option<seq<seq<int>>>
  {
    if perf.None? || perf.value.models.None? || !Truthy(perf.value.bestModel) then None
    else
      match Lookup(perf.value.models.value, perf.value.bestModel.value)
      case None => None
      case Some(entry) =>
        if entry.confusionMatrix.None? || |entry.confusionMatrix.value| < 2 then None
        else entry.confusionMatrix
  }

  /** The four cells of a matrix with at least two rows. */
  function CellsOf(cm: seq<seq<int>>): (cells: seq<Cell>)
    requires |cm| >= 2
    ensures |cells| == 4
    ensures cells[0].value == EntryAt(cm, 0, 0) && cells[1].value == EntryAt(cm, 0, 1)
    ensures cells[2].value == EntryAt(cm, 1, 0) && cells[3].value == EntryAt(cm, 1, 1)
  {
    var tn, fp, fn, tp := EntryAt(cm, 0, 0), EntryAt(cm, 0, 1), EntryAt(cm, 1, 0), EntryAt(cm, 1, 1);
    var total := Total(tn, fp, fn, tp);
    [ Cell("True Negative", tn, Percent(tn, total), "cm-tn"),
      Cell("False Positive", fp, Percent(fp, total), "cm-fp"),
      Cell("False Negative", fn, Percent(fn, total), "cm-fn"),
      Cell("True Positive", tp, Percent(tp, total), "cm-tp") ]
  }

  /** The panel: nothing, or the four cells of the best model's matrix. */
  function Cells(perf: Option<Performance>): Option<seq<Cell>>
  {
    match BestMatrix(perf)
    case None => None
    case Some(cm) => Some(CellsOf(cm))
  }

  /** The panel renders exactly when the payload, its models and a truthy best model are
      present, the best model has an entry with a matrix, and the matrix has two rows. */
  lemma RendersOnlyWithABestMatrix(perf: Option<Performance>)
    ensures Cells(perf).Some? <==>
              && perf.Some? && perf.value.models.Some? && Truthy(perf.value.bestModel)
              && Lookup(perf.value.models.value, perf.value.bestModel.value).Some?
              && Lookup(perf.value.models.value, perf.value.bestModel.value).value.confusionMatrix.Some?
              && |Lookup(perf.value.models.value, perf.value.bestModel.value).value.confusionMatrix.value| >= 2
  {
  }

  /** The cells come in the order TN, FP, FN, TP with the raw counts of cm[0][0],
      cm[0][1], cm[1][0] and cm[1][1]. */
  lemma CellsInFixedOrder(cm: seq<seq<int>>)
    requires |cm| >= 2 && |cm[0]| >= 2 && |cm[1]| >= 2
    ensures var cells := CellsOf(cm);
      && cells[0].name == "True Negative" && cells[0].value == Some(cm[0][0])
      && cells[1].name == "False Positive" && cells[1].value == Some(cm[0][1])
      && cells[2].name == "False Negative" && cells[2].value == Some(cm[1][0])
      && cells[3].name == "True Positive" && cells[3].value == Some(cm[1][1])
  {
  }

  /** The share of a count between 0 and a positive total is a percentage in [0, 100]. */
  lemma PercentInRange(v: int, total: int)
    requires 0 <= v <= total && total > 0
    ensures var p := Percent(Some(v), Some(total)); p.Some? && 0 <= p.value <= 100
  {
    var q := v as real / total as real;
    assert q * total as real == v as real;
    assert 0.0 <= q <= 1.0;
  }

  /** With non-negative counts and a positive total, all four percentages are in [0, 100]. */
  lemma PercentagesInRange(cm: seq<seq<int>>)
    requires |cm| >= 2 && |cm[0]| >= 2 && |cm[1]| >= 2
    requires cm[0][0] >= 0 && cm[0][1] >= 0 && cm[1][0] >= 0 && cm[1][1] >= 0
    requires cm[0][0] + cm[0][1] + cm[1][0] + cm[1][1] > 0
    ensures forall i :: 0 <= i < 4 ==> CellsOf(cm)[i].pct.Some? && 0 <= CellsOf(cm)[i].pct.value <= 100
  {
    var t := cm[0][0] + cm[0][1] + cm[1][0] + cm[1][1];
    PercentInRange(cm[0][0], t);
    PercentInRange(cm[0][1], t);
    PercentInRange(cm[1][0], t);
    PercentInRange(cm[1][1], t);
  }

  /** An all-zero matrix divides zero by zero: every percentage is NaN. */
  lemma ZeroMatrixHasNoPercentages()
    ensures forall i :: 0 <= i < 4 ==> CellsOf([[0, 0], [0, 0]])[i].pct.None?
  {
  }

  /** Percent is the whole number p whose half-open interval [p - 0.5, p + 0.5) holds
      the share. */
  lemma PercentIs(v: int, total: int, p: int)
    requires total != 0
    requires p as real - 0.5 <= (v as real / total as real) * 100.0 < p as real + 0.5
    ensures Percent(Some(v), Some(total)) == Some(p)
  {
  }

  /** A matrix of 100 predictions shows its counts as percentages. */
  lemma HundredPredictionsShowTheirCounts()
    ensures var cells := CellsOf([[50, 10], [5, 35]]);
      cells[0].pct == Some(50) && cells[1].pct == Some(10) && cells[2].pct == Some(5) && cells[3].pct == Some(35)
  {
    PercentIs(50, 100, 50);
    PercentIs(10, 100, 10);
    PercentIs(5, 100, 5);
    PercentIs(35, 100, 35);
  }

  /** The rounded shares need not add up to 100: those of [[1, 1], [1, 0]] are 33, 33, 33
      and 0. */
  lemma RoundedSharesNeedNotSumToHundred()
    ensures var cells := CellsOf([[1, 1], [1, 0]]);
      cells[0].pct == Some(33) && cells[1].pct == Some(33) && cells[2].pct == Some(33) && cells[3].pct == Some(0)
  {
    PercentIs(1, 3, 33);
    PercentIs(0, 3, 0);
  }

  /** For a report whose best model has a matrix of two rows, the panel shows that model's
      matrix. */
  lemma ShowsTheBestModelsMatrix(r: Compare.Report, i: nat)
    requires i < |r.models| && Distinct(Keys(r.models))
    requires r.bestModel == Some(r.models[i].0) && r.models[i].0 != ""
    requires |r.models[i].1.confusionMatrix| >= 2
    ensures Cells(Some(FromReport(r))) == Some(CellsOf(r.models[i].1.confusionMatrix))
  {
    ReportEntryLookup(r, i);
  }
}
