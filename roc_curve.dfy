/** The ROC chart: every model's (fpr, tpr) samples merged onto one shared x-axis. A sample
    joins the first row whose fpr lies within 0.001 of its own and otherwise starts a new
    row at its fpr; the rows are then sorted by fpr and each gets the diagonal `Random`
    value equal to its fpr. */
module RocCurve {
  import opened Common
  import opened Sorting
  import opened Payload
  import Compare

  const TOLERANCE: real := 0.001

  /** One row of the merged data: its fpr, fixed when the row is created, and the models'
      tpr values in the order they were first set. A value of None is `undefined`: the
      model's tpr array was shorter than its fpr array. */
  datatype Row = Row(fpr: real, tprs: seq<(string, Option<real>)>)

  /** A row of the chart: the merged row plus the diagonal. */
  datatype Point = Point(fpr: real, tprs: seq<(string, Option<real>)>, random: real)

  predicate Near(a: real, b: real)
  {
    Abs(a - b) < TOLERANCE
  }

  /** The index `allData.find` stops at: the first row near x, or |rows| when none is. */
  function FindRow(rows: seq<Row>, x: real): (i: nat)
    ensures i <= |rows|
    ensures i < |rows| ==> Near(rows[i].fpr, x)
    ensures forall j :: 0 <= j < i ==> !Near(rows[j].fpr, x)
  {
    if rows == [] then 0 else if Near(rows[0].fpr, x) then 0 else 1 + FindRow(rows[1..], x)
  }

  /** One sample (x, t) of a model: set on the first near row, or appended as a new row. */
  function Step(rows: seq<Row>, name: string, x: real, t: Option<real>): seq<Row>
  {
    var i := FindRow(rows, x);
    if i < |rows| then rows[i := Row(rows[i].fpr, Assign(rows[i].tprs, name, t))]
    else rows + [Row(x, [(name, t)])]
  }

  /** `tpr[i]`, undefined past the end. */
  function TprAt(tpr: seq<real>, i: nat): Option<real>
  {
    if i < |tpr| then Some(tpr[i]) else None
  }

  /** The rows after merging a model's samples fpr[0], fpr[1], ... in order. */
  function MergeCurve(rows: seq<Row>, name: string, fpr: seq<real>, tpr: seq<real>): seq<Row>
    decreases |fpr|
  {
    if fpr == [] then rows
    else
      var n := |fpr| - 1;
      Step(MergeCurve(rows, name, fpr[..n], tpr), name, fpr[n], TprAt(tpr, n))
  }

  /** A model's curve when its entry has `roc_curve` with both arrays. */
  function CurveOf(models: seq<(string, ModelEntry)>, name: string): Option<(seq<real>, seq<real>)>
  {
    match Lookup(models, name)
    case None => None
    case Some(e) =>
      if e.rocCurve.Some? && e.rocCurve.value.fpr.Some? && e.rocCurve.value.tpr.Some?
      then Some((e.rocCurve.value.fpr.value, e.rocCurve.value.tpr.value))
      else None
  }

  /** The rows after merging the curves of the given models in order. */
  function MergeModels(models: seq<(string, ModelEntry)>, names: seq<string>): seq<Row>
    decreases |names|
  {
    if names == [] then []
    else
      var prev := MergeModels(models, names[..|names| - 1]);
      var name := names[|names| - 1];
      match CurveOf(models, name)
      case None => prev
      case Some(c) => MergeCurve(prev, name, c.0, c.1)
  }

  /** The sort key: `allData.sort((a, b) => a.fpr - b.fpr)` is ascending in fpr. */
  function NegFpr(r: Row): real { -r.fpr }

  function WithDiagonal(rows: seq<Row>): (ps: seq<Point>)
    ensures |ps| == |rows|
    ensures forall i :: 0 <= i < |rows| ==> ps[i] == Point(rows[i].fpr, rows[i].tprs, rows[i].fpr)
  {
    seq(|rows|, i requires 0 <= i < |rows| => Point(rows[i].fpr, rows[i].tprs, rows[i].fpr))
  }

  /** The chart data, or None without a payload or without models. */
  function Chart(perf: Option<Performance>): Option<seq<Point>>
  {
    if perf.None? || perf.value.models.None? then None
    else
      var models := perf.value.models.value;
      Some(WithDiagonal(SortDescending(MergeModels(models, Keys(models)), NegFpr)))
  }

  // ----- the component's loops -----

  /** `allData.find(...)`, then either `existing[name] = t` or `allData.push(entry)`. */
  method AddSample(rows: seq<Row>, name: string, x: real, t: Option<real>) returns (updated: seq<Row>)
    ensures updated == Step(rows, name, x, t)
  {
    var i := 0;
    while i < |rows| && !Near(rows[i].fpr, x)
      invariant 0 <= i <= |rows|
      invariant forall j :: 0 <= j < i ==> !Near(rows[j].fpr, x)
    {
      i := i + 1;
    }
    if i < |rows| {
      updated := rows[i := Row(rows[i].fpr, Assign(rows[i].tprs, name, t))];
    } else {
      updated := rows + [Row(x, [(name, t)])];
    }
  }

  /** `roc.fpr.forEach((fpr, i) => ...)` for one model. */
  method AddCurve(rows: seq<Row>, name: string, fpr: seq<real>, tpr: seq<real>) returns (updated: seq<Row>)
    ensures updated == MergeCurve(rows, name, fpr, tpr)
  {
    updated := rows;
    for i := 0 to |fpr|
      invariant updated == MergeCurve(rows, name, fpr[..i], tpr)
    {
      assert fpr[..i + 1][..i] == fpr[..i];
      updated := AddSample(updated, name, fpr[i], TprAt(tpr, i));
    }
    assert fpr[..|fpr|] == fpr;
  }

  /** Builds the chart data: merges every model's curve in key order, sorts the rows by
      fpr and adds the diagonal. */
  method ChartData(perf: Option<Performance>) returns (data: Option<seq<Point>>)
    ensures data == Chart(perf)
  {
    if perf.None? || perf.value.models.None? {
      return None;
    }
    var models := perf.value.models.value;
    var names := Keys(models);
    var rows: seq<Row> := [];
    for k := 0 to |names|
      invariant rows == MergeModels(models, names[..k])
    {
      assert names[..k + 1][..k] == names[..k];
      var curve := CurveOf(models, names[k]);
      if curve.Some? {
        rows := AddCurve(rows, names[k], curve.value.0, curve.value.1);
      }
    }
    assert names[..|names|] == names;
    rows := SortDescending(rows, NegFpr);
    data := Some(WithDiagonal(rows));
  }

  // ----- properties -----

  /** No two rows have fprs within the tolerance of each other. */
  ghost predicate Separated(rows: seq<Row>)
  {
    forall i, j :: 0 <= i < |rows| && 0 <= j < |rows| && i != j ==> !Near(rows[i].fpr, rows[j].fpr)
  }

  /** A sample either lands on an existing row, whose fpr stays as it was, or opens a row
      at its own fpr; every other row keeps its fpr and the values of the other models. */
  lemma StepKeepsOtherRows(rows: seq<Row>, name: string, x: real, t: Option<real>)
    ensures var s := Step(rows, name, x, t);
      && |rows| <= |s| <= |rows| + 1
      && (forall j :: 0 <= j < |rows| ==> s[j].fpr == rows[j].fpr)
      && (forall j, other :: 0 <= j < |rows| && other != name ==> Lookup(s[j].tprs, other) == Lookup(rows[j].tprs, other))
      && (|s| == |rows| + 1 ==> s[|rows|] == Row(x, [(name, t)]) && forall j :: 0 <= j < |rows| ==> !Near(rows[j].fpr, x))
  {
    var i := FindRow(rows, x);
    if i < |rows| {
      forall j, other | 0 <= j < |rows| && other != name
        ensures Lookup(Step(rows, name, x, t)[j].tprs, other) == Lookup(rows[j].tprs, other)
      {
        AssignThenLookup(rows[i].tprs, name, t, other);
      }
    }
  }

  /** The sample's value is set on the row it lands on, which is the first row near its
      fpr. */
  lemma StepSetsTheSample(rows: seq<Row>, name: string, x: real, t: Option<real>)
    ensures var s := Step(rows, name, x, t); var k := FindRow(rows, x);
      && k < |s| && Near(s[k].fpr, x) && Lookup(s[k].tprs, name) == Some(t)
  {
    var k := FindRow(rows, x);
    if k < |rows| {
      AssignThenLookup(rows[k].tprs, name, t, name);
    }
  }

  lemma StepKeepsSeparated(rows: seq<Row>, name: string, x: real, t: Option<real>)
    requires Separated(rows)
    ensures Separated(Step(rows, name, x, t))
  {
    StepKeepsOtherRows(rows, name, x, t);
  }

  lemma {:induction false} MergeCurveKeepsSeparated(rows: seq<Row>, name: string, fpr: seq<real>, tpr: seq<real>)
    requires Separated(rows)
    ensures Separated(MergeCurve(rows, name, fpr, tpr))
    decreases |fpr|
  {
    if fpr != [] {
      var n := |fpr| - 1;
      MergeCurveKeepsSeparated(rows, name, fpr[..n], tpr);
      StepKeepsSeparated(MergeCurve(rows, name, fpr[..n], tpr), name, fpr[n], TprAt(tpr, n));
    }
  }

  lemma {:induction false} MergedRowsAreSeparated(models: seq<(string, ModelEntry)>, names: seq<string>)
    ensures Separated(MergeModels(models, names))
    decreases |names|
  {
    if names != [] {
      var prev := MergeModels(models, names[..|names| - 1]);
      MergedRowsAreSeparated(models, names[..|names| - 1]);
      var c := CurveOf(models, names[|names| - 1]);
      if c.Some? {
        MergeCurveKeepsSeparated(prev, names[|names| - 1], c.value.0, c.value.1);
      }
    }
  }

  /** The chart's fprs increase strictly, each by at least the tolerance, and every point's
      diagonal value is its fpr. */
  lemma ChartFprsIncrease(perf: Option<Performance>)
    requires Chart(perf).Some?
    ensures var ps := Chart(perf).value;
      && (forall i, j :: 0 <= i < j < |ps| ==> ps[i].fpr + TOLERANCE <= ps[j].fpr)
      && (forall i :: 0 <= i < |ps| ==> ps[i].random == ps[i].fpr)
  {
    var models := perf.value.models.value;
    var merged := MergeModels(models, Keys(models));
    MergedRowsAreSeparated(models, Keys(models));
    var apart := (a: Row, b: Row) => !Near(a.fpr, b.fpr);
    SortKeepsPairwise(merged, NegFpr, apart);
    var sorted := SortDescending(merged, NegFpr);
    var ps := Chart(perf).value;
    forall i, j | 0 <= i < j < |ps| ensures ps[i].fpr + TOLERANCE <= ps[j].fpr {
      assert NegFpr(sorted[i]) >= NegFpr(sorted[j]);
      assert apart(sorted[i], sorted[j]);
    }
  }

  /** The number of samples of the given models' curves. */
  function SampleCount(models: seq<(string, ModelEntry)>, names: seq<string>): nat
    decreases |names|
  {
    if names == [] then 0
    else
      SampleCount(models, names[..|names| - 1]) +
      match CurveOf(models, names[|names| - 1])
      case None => 0
      case Some(c) => |c.0|
  }

  lemma {:induction false} MergeCurveLength(rows: seq<Row>, name: string, fpr: seq<real>, tpr: seq<real>)
    ensures |rows| <= |MergeCurve(rows, name, fpr, tpr)| <= |rows| + |fpr|
    decreases |fpr|
  {
    if fpr != [] {
      var n := |fpr| - 1;
      MergeCurveLength(rows, name, fpr[..n], tpr);
      StepKeepsOtherRows(MergeCurve(rows, name, fpr[..n], tpr), name, fpr[n], TprAt(tpr, n));
    }
  }

  /** There are never more rows than samples. */
  lemma {:induction false} AtMostOneRowPerSample(models: seq<(string, ModelEntry)>, names: seq<string>)
    ensures |MergeModels(models, names)| <= SampleCount(models, names)
    decreases |names|
  {
    if names != [] {
      var prev := MergeModels(models, names[..|names| - 1]);
      AtMostOneRowPerSample(models, names[..|names| - 1]);
      var c := CurveOf(models, names[|names| - 1]);
      if c.Some? {
        MergeCurveLength(prev, names[|names| - 1], c.value.0, c.value.1);
      }
    }
  }

  /** Every value in every row is defined. */
  ghost predicate AllDefined(rows: seq<Row>)
  {
    forall i, j :: 0 <= i < |rows| && 0 <= j < |rows[i].tprs| ==> rows[i].tprs[j].1.Some?
  }

  lemma AssignKeepsDefined(kvs: seq<(string, Option<real>)>, k: string, v: real)
    requires forall j :: 0 <= j < |kvs| ==> kvs[j].1.Some?
    ensures forall j :: 0 <= j < |Assign(kvs, k, Some(v))| ==> Assign(kvs, k, Some(v))[j].1.Some?
  {
  }

  lemma {:induction false} MergeCurveKeepsDefined(rows: seq<Row>, name: string, fpr: seq<real>, tpr: seq<real>)
    requires AllDefined(rows) && |fpr| <= |tpr|
    ensures AllDefined(MergeCurve(rows, name, fpr, tpr))
    decreases |fpr|
  {
    if fpr != [] {
      var n := |fpr| - 1;
      var prev := MergeCurve(rows, name, fpr[..n], tpr);
      MergeCurveKeepsDefined(rows, name, fpr[..n], tpr);
      var i := FindRow(prev, fpr[n]);
      if i < |prev| {
        AssignKeepsDefined(prev[i].tprs, name, tpr[n]);
      }
    }
  }

  /** When no model's tpr array is shorter than its fpr array, as for curves thinned from
      arrays of equal length, the chart has no undefined value. */
  lemma {:induction false} EqualLengthCurvesAreFullyDefined(models: seq<(string, ModelEntry)>, names: seq<string>)
    requires forall i :: 0 <= i < |names| && CurveOf(models, names[i]).Some? ==>
               |CurveOf(models, names[i]).value.0| <= |CurveOf(models, names[i]).value.1|
    ensures AllDefined(MergeModels(models, names))
    decreases |names|
  {
    if names != [] {
      var init := names[..|names| - 1];
      var prev := MergeModels(models, init);
      assert forall i :: 0 <= i < |init| ==> init[i] == names[i];
      EqualLengthCurvesAreFullyDefined(models, init);
      var c := CurveOf(models, names[|names| - 1]);
      if c.Some? {
        MergeCurveKeepsDefined(prev, names[|names| - 1], c.value.0, c.value.1);
      }
    }
  }

  /** The chart of a report written by the comparison, whose every model has fpr and tpr
      arrays of one length, has no undefined value: both arrays are thinned with the same
      stride, so they stay of one length. */
  lemma ReportCurvesAreFullyDefined(r: Compare.Report)
    requires forall i :: 0 <= i < |r.models| ==> |r.models[i].1.fpr| == |r.models[i].1.tpr|
    ensures AllDefined(MergeModels(FromReport(r).models.value, Keys(r.models)))
  {
    var es := FromReport(r).models.value;
    var names := Keys(r.models);
    forall i | 0 <= i < |names| && CurveOf(es, names[i]).Some?
      ensures |CurveOf(es, names[i]).value.0| <= |CurveOf(es, names[i]).value.1|
    {
      var j := IndexOf(Keys(es), names[i]);
      assert Lookup(es, names[i]) == Some(es[j].1);
      assert es[j].1 == EntryOf(r.models[j].1);
    }
    EqualLengthCurvesAreFullyDefined(es, names);
  }

  /** Models without a usable curve add no rows; with none at all the chart is empty. */
  lemma {:induction false} NoCurvesNoRows(models: seq<(string, ModelEntry)>, names: seq<string>)
    requires forall i :: 0 <= i < |names| ==> CurveOf(models, names[i]).None?
    ensures MergeModels(models, names) == []
    decreases |names|
  {
    if names != [] {
      var init := names[..|names| - 1];
      assert forall i :: 0 <= i < |init| ==> init[i] == names[i];
      NoCurvesNoRows(models, init);
    }
  }

  /** Repeated samples at one fpr leave a single row holding the last sample's tpr. */
  lemma LastSampleWins()
    ensures MergeCurve([], "lr", [0.0, 0.0], [0.1, 0.2]) == [Row(0.0, [("lr", Some(0.2))])]
  {
    var first := MergeCurve([], "lr", [0.0], [0.1, 0.2]);
    assert first == [Row(0.0, [("lr", Some(0.1))])];
    assert [0.0, 0.0][..1] == [0.0];
    assert FindRow(first, 0.0) == 0;
    assert Keys(first[0].tprs) == ["lr"];
    assert Assign(first[0].tprs, "lr", Some(0.2)) == [("lr", Some(0.2))];
  }

  /** Samples within the tolerance share the row of the first, which keeps its fpr. */
  lemma NearSamplesShareARow()
    ensures MergeCurve([], "lr", [0.5, 0.5005], [0.7, 0.8]) == [Row(0.5, [("lr", Some(0.8))])]
  {
    var first := MergeCurve([], "lr", [0.5], [0.7, 0.8]);
    assert first == [Row(0.5, [("lr", Some(0.7))])];
    assert [0.5, 0.5005][..1] == [0.5];
    assert FindRow(first, 0.5005) == 0;
    assert Keys(first[0].tprs) == ["lr"];
    assert Assign(first[0].tprs, "lr", Some(0.8)) == [("lr", Some(0.8))];
  }

  /** A row without a sample of a model has no key for it, rather than 0. */
  lemma MissingModelHasNoKey()
    ensures var rows := MergeCurve(MergeCurve([], "a", [0.0], [1.0]), "b", [0.5], [1.0]);
      rows == [Row(0.0, [("a", Some(1.0))]), Row(0.5, [("b", Some(1.0))])] && Lookup(rows[0].tprs, "b").None?
  {
    var first := MergeCurve([], "a", [0.0], [1.0]);
    assert first == [Row(0.0, [("a", Some(1.0))])];
    assert FindRow(first, 0.5) == 1;
  }

  /** A tpr array shorter than its fpr array leaves the model's key set to undefined. */
  lemma ShortTprIsUndefined()
    ensures MergeCurve([], "a", [0.0, 0.5], [1.0]) == [Row(0.0, [("a", Some(1.0))]), Row(0.5, [("a", None)])]
  {
    var first := MergeCurve([], "a", [0.0], [1.0]);
    assert first == [Row(0.0, [("a", Some(1.0))])];
    assert [0.0, 0.5][..1] == [0.0];
    assert FindRow(first, 0.5) == 1;
  }

  /** The chart exists exactly when the payload has models; its points are the merged rows
      in sorted order, each with the diagonal. */
  lemma ChartIsTheSortedMerge(perf: Option<Performance>)
    ensures Chart(perf).Some? <==> perf.Some? && perf.value.models.Some?
    ensures Chart(perf).Some? ==>
              var merged := MergeModels(perf.value.models.value, Keys(perf.value.models.value));
              var ps := Chart(perf).value;
              && |ps| == |merged|
              && multiset(seq(|ps|, i requires 0 <= i < |ps| => Row(ps[i].fpr, ps[i].tprs))) == multiset(merged)
  {
    if Chart(perf).Some? {
      var models := perf.value.models.value;
      var sorted := SortDescending(MergeModels(models, Keys(models)), NegFpr);
      var ps := Chart(perf).value;
      assert seq(|ps|, i requires 0 <= i < |ps| => Row(ps[i].fpr, ps[i].tprs)) == sorted;
    }
  }
}
