/** The model-comparison bar chart: one group of bars per metric, one bar per model, and a
    badge naming the best model. Each metric's chart row is a JavaScript object built by
    first setting its `metric` label and then assigning every model's value under the
    model's name. */
module ModelComparison {
  import opened Common
  import opened Payload
  import Compare

  const METRIC_KEYS: seq<string> := ["accuracy", "precision", "recall", "f1_score", "roc_auc"]
  const COLORS: seq<string> := ["#38bdf8", "#818cf8", "#f59e0b"]
  /** The key under which a row carries its metric's label. */
  const METRIC_KEY: string := "metric"

  /** A value in a chart row: the metric's label, or a model's metric (None when missing). */
  datatype Cell = Text(s: string) | Number(v: Option<real>)

  /** The chart: one row per metric, one (name, colour) bar per model in key order, and the
      best model's badge. */
  datatype Chart = Chart(rows: seq<seq<(string, Cell)>>, bars: seq<(string, string)>, badge: Option<string>)

  /** ASCII upper case of a lower-case letter; any other character is kept. */
  function Upper(c: char): char
  {
    if 'a' <= c <= 'z' then (c as int - 32) as char else c
  }

  /** `s.charAt(0).toUpperCase() + s.slice(1)`. */
  function Capitalize(s: string): (r: string)
    ensures |r| == |s| && (s != [] ==> r[1..] == s[1..])
  {
    if s == [] then [] else [Upper(s[0])] + s[1..]
  }

  /** The axis label of a metric key. */
  function Label(key: string): string
  {
    if key == "f1_score" then "F1" else if key == "roc_auc" then "AUC" else Capitalize(key)
  }

  /** `entry[key]` for a metric key; any other key reads as undefined. */
  function ValueOf(e: ModelEntry, key: string): Option<real>
  {
    if key == "accuracy" then e.accuracy
    else if key == "precision" then e.precision
    else if key == "recall" then e.recall
    else if key == "f1_score" then e.f1Score
    else if key == "roc_auc" then e.rocAuc
    else None
  }

  /** `performance.models[name][key]`. */
  function Metric(models: seq<(string, ModelEntry)>, name: string, key: string): Option<real>
  {
    match Lookup(models, name)
    case None => None
    case Some(e) => ValueOf(e, key)
  }

  /** The row for a metric after assigning the given model names in order. */
  function Row(models: seq<(string, ModelEntry)>, names: seq<string>, key: string): seq<(string, Cell)>
    decreases |names|
  {
    if names == [] then [(METRIC_KEY, Text(Label(key)))]
    else
      var last := names[|names| - 1];
      Assign(Row(models, names[..|names| - 1], key), last, Number(Metric(models, last, key)))
  }

  /** Builds one metric's row by assigning every model's value under its name. */
  method PivotRow(models: seq<(string, ModelEntry)>, key: string) returns (entry: seq<(string, Cell)>)
    ensures entry == Row(models, Keys(models), key)
  {
    var names := Keys(models);
    entry := [(METRIC_KEY, Text(Label(key)))];
    for i := 0 to |names|
      invariant entry == Row(models, names[..i], key)
    {
      assert names[..i + 1][..i] == names[..i];
      entry := Assign(entry, names[i], Number(Metric(models, names[i], key)));
    }
    assert names[..|names|] == names;
  }

  function Rows(models: seq<(string, ModelEntry)>): (rows: seq<seq<(string, Cell)>>)
    ensures |rows| == |METRIC_KEYS|
    ensures forall k :: 0 <= k < |METRIC_KEYS| ==> rows[k] == Row(models, Keys(models), METRIC_KEYS[k])
  {
    seq(|METRIC_KEYS|, k requires 0 <= k < |METRIC_KEYS| => Row(models, Keys(models), METRIC_KEYS[k]))
  }

  function Bars(names: seq<string>): (bars: seq<(string, string)>)
    ensures |bars| == |names|
  {
    seq(|names|, i requires 0 <= i < |names| => (names[i], COLORS[i % |COLORS|]))
  }

  /** The chart, or None without a payload or without models. The badge shows for a
      truthy best-model name. */
  function View(perf: Option<Performance>): Option<Chart>
  {
    if perf.None? || perf.value.models.None? then None
    else
      var models := perf.value.models.value;
      Some(Chart(Rows(models), Bars(Keys(models)),
                 if Truthy(perf.value.bestModel) then perf.value.bestModel else None))
  }

  /** Builds the chart rows metric by metric, in the order of METRIC_KEYS. */
  method ChartRows(models: seq<(string, ModelEntry)>) returns (rows: seq<seq<(string, Cell)>>)
    ensures rows == Rows(models)
  {
    rows := [];
    for k := 0 to |METRIC_KEYS|
      invariant |rows| == k
      invariant forall j :: 0 <= j < k ==> rows[j] == Row(models, Keys(models), METRIC_KEYS[j])
    {
      var row := PivotRow(models, METRIC_KEYS[k]);
      rows := rows + [row];
    }
  }

  /** After assigning names, each assigned name holds its model's value. */
  lemma {:induction false} RowHoldsEveryModel(models: seq<(string, ModelEntry)>, names: seq<string>, key: string, x: string)
    requires x in names
    ensures Lookup(Row(models, names, key), x) == Some(Number(Metric(models, x, key)))
    decreases |names|
  {
    var init := names[..|names| - 1];
    var last := names[|names| - 1];
    AssignThenLookup(Row(models, init, key), last, Number(Metric(models, last, key)), x);
    if x != last {
      var j :| 0 <= j < |names| && names[j] == x;
      assert init[j] == x;
      RowHoldsEveryModel(models, init, key, x);
    }
  }

  /** The label survives unless a model is named `metric`. */
  lemma {:induction false} RowKeepsTheLabel(models: seq<(string, ModelEntry)>, names: seq<string>, key: string)
    requires METRIC_KEY !in names
    ensures Lookup(Row(models, names, key), METRIC_KEY) == Some(Text(Label(key)))
    decreases |names|
  {
    if names != [] {
      var init := names[..|names| - 1];
      var last := names[|names| - 1];
      assert METRIC_KEY !in init by {
        forall j | 0 <= j < |init| ensures init[j] != METRIC_KEY { assert init[j] == names[j]; }
      }
      RowKeepsTheLabel(models, init, key);
      AssignThenLookup(Row(models, init, key), last, Number(Metric(models, last, key)), METRIC_KEY);
    }
  }

  /** With distinct names, none of them `metric`, the row's keys are `metric` followed by
      the names. */
  lemma {:induction false} RowKeys(models: seq<(string, ModelEntry)>, names: seq<string>, key: string)
    requires Distinct(names) && METRIC_KEY !in names
    ensures Keys(Row(models, names, key)) == [METRIC_KEY] + names
    decreases |names|
  {
    if names != [] {
      var init := names[..|names| - 1];
      var last := names[|names| - 1];
      assert last !in init && METRIC_KEY !in init && Distinct(init) by {
        forall j | 0 <= j < |init| ensures init[j] != last && init[j] != METRIC_KEY { assert init[j] == names[j]; }
        forall i, j | 0 <= i < j < |init| ensures init[i] != init[j] { assert init[i] == names[i] && init[j] == names[j]; }
      }
      RowKeys(models, init, key);
      var prev := Row(models, init, key);
      assert last !in Keys(prev);
      assert Keys(Row(models, names, key)) == Keys(prev) + [last];
      SplitLast(names);
      assert [METRIC_KEY] + init + [last] == [METRIC_KEY] + (init + [last]);
    }
  }

  lemma SplitLast<T>(s: seq<T>)
    requires s != []
    ensures s == s[..|s| - 1] + [s[|s| - 1]]
  {
  }

  /** For a payload with distinct model names, none of them `metric`, a metric's row
      starts with its label and holds each model's own value for that metric, under the
      model's name, in the models' order. */
  lemma RowHoldsEachModelsValue(models: seq<(string, ModelEntry)>, key: string, i: nat)
    requires Distinct(Keys(models)) && METRIC_KEY !in Keys(models) && i < |models|
    ensures var row := Row(models, Keys(models), key);
      && Keys(row) == [METRIC_KEY] + Keys(models)
      && Lookup(row, METRIC_KEY) == Some(Text(Label(key)))
      && Lookup(row, models[i].0) == Some(Number(ValueOf(models[i].1, key)))
  {
    var ks := Keys(models);
    assert ks[i] == models[i].0;
    RowHoldsEveryModel(models, ks, key, models[i].0);
    RowKeepsTheLabel(models, ks, key);
    RowKeys(models, ks, key);
    IndexOfDistinct(ks, i);
  }

  /** A model named `metric` overwrites the row's label with its own value. */
  lemma ModelNamedMetricHidesTheLabel(e: ModelEntry, key: string)
    ensures Lookup(Row([(METRIC_KEY, e)], [METRIC_KEY], key), METRIC_KEY) == Some(Number(ValueOf(e, key)))
  {
    RowHoldsEveryModel([(METRIC_KEY, e)], [METRIC_KEY], key, METRIC_KEY);
  }

  lemma CapitalizedKeys()
    ensures Capitalize("accuracy") == "Accuracy"
    ensures Capitalize("precision") == "Precision"
    ensures Capitalize("recall") == "Recall"
  {
    assert Capitalize("accuracy") == "A" + "accuracy"[1..];
    assert Capitalize("precision") == "P" + "precision"[1..];
    assert Capitalize("recall") == "R" + "recall"[1..];
  }

  /** The five groups are labelled Accuracy, Precision, Recall, F1 and AUC, in that order. */
  lemma AxisLabels()
    ensures seq(|METRIC_KEYS|, k requires 0 <= k < |METRIC_KEYS| => Label(METRIC_KEYS[k]))
            == ["Accuracy", "Precision", "Recall", "F1", "AUC"]
  {
    CapitalizedKeys();
  }

  /** The chart appears exactly when the payload has models; its badge names the best model
      exactly when that name is a non-empty string; bars follow the models' order with the
      three colours in turn, so neighbouring models never share a colour. */
  lemma ViewShape(perf: Option<Performance>)
    ensures View(perf).Some? <==> perf.Some? && perf.value.models.Some?
    ensures View(perf).Some? ==>
              var c := View(perf).value;
              && |c.rows| == 5
              && (c.badge.Some? <==> Truthy(perf.value.bestModel))
              && (c.badge.Some? ==> c.badge == perf.value.bestModel)
              && Keys(c.bars) == Keys(perf.value.models.value)
              && (forall i :: 0 <= i < |c.bars| ==> c.bars[i].1 == COLORS[i % 3])
              && (forall i :: 0 <= i < |c.bars| - 1 ==> c.bars[i].1 != c.bars[i + 1].1)
  {
    if View(perf).Some? {
      NeighboursDiffer(Keys(perf.value.models.value));
    }
  }

  lemma NeighboursDiffer(names: seq<string>)
    ensures forall i :: 0 <= i < |names| - 1 ==> Bars(names)[i].1 != Bars(names)[i + 1].1
  {
    forall i | 0 <= i < |names| - 1 ensures Bars(names)[i].1 != Bars(names)[i + 1].1 {
      assert Bars(names)[i].1 == COLORS[i % 3] && Bars(names)[i + 1].1 == COLORS[(i + 1) % 3];
      assert (i + 1) % 3 != i % 3;
    }
  }

  /** A report written by the comparison has a value for every metric. */
  lemma ReportEntriesHaveEveryMetric(m: Compare.Metrics, k: nat)
    requires k < |METRIC_KEYS|
    ensures ValueOf(EntryOf(m), METRIC_KEYS[k]).Some?
  {
  }

  /** Over the comparison's report, each metric's row holds every model's metric under the
      model's name, and the badge names the best model whenever it has a non-empty name. */
  lemma ReportChart(r: Compare.Report, key: string, i: nat)
    requires Distinct(Keys(r.models)) && METRIC_KEY !in Keys(r.models) && i < |r.models|
    ensures var models := FromReport(r).models.value;
      Lookup(Row(models, Keys(models), key), r.models[i].0) == Some(Number(ValueOf(EntryOf(r.models[i].1), key)))
    ensures r.bestModel.Some? && r.bestModel.value != "" ==> View(Some(FromReport(r))).value.badge == r.bestModel
  {
    var models := FromReport(r).models.value;
    ReportEntryLookup(r, i);
    assert models[i].0 == r.models[i].0 by { assert Keys(models)[i] == Keys(r.models)[i]; }
    RowHoldsEachModelsValue(models, key, i);
    assert models[i].1 == EntryOf(r.models[i].1) by {
      IndexOfDistinct(Keys(models), i);
    }
  }
}
