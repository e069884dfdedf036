/** The request and response shapes of the prediction API: the 13-field range check a
    prediction request must pass, and the defaults of the response models. */
module Schemas {
  import opened Common

  /** A JSON value in a request body: a number, or anything else (a string that is not a
      number, null, a boolean, an object or a list). */
  datatype JsonValue = JNumber(n: real) | JOther

  type Body = map<string, JsonValue>

  /** One field of the input model: its name, inclusive bounds (`ge`, `le`), and whether it
      is declared `int` (which accepts only whole numbers). */
  datatype FieldSpec = FieldSpec(name: string, lo: real, hi: real, integral: bool)

  /** The 13 clinical features of a prediction request, in declaration order. */
  const FIELDS: seq<FieldSpec> := [
    FieldSpec("age", 0.0, 120.0, false),
    FieldSpec("sex", 0.0, 1.0, true),
    FieldSpec("cp", 0.0, 3.0, true),
    FieldSpec("trestbps", 0.0, 300.0, false),
    FieldSpec("chol", 0.0, 600.0, false),
    FieldSpec("fbs", 0.0, 1.0, true),
    FieldSpec("restecg", 0.0, 2.0, true),
    FieldSpec("thalach", 0.0, 300.0, false),
    FieldSpec("exang", 0.0, 1.0, true),
    FieldSpec("oldpeak", 0.0, 10.0, false),
    FieldSpec("slope", 0.0, 2.0, true),
    FieldSpec("ca", 0.0, 4.0, true),
    FieldSpec("thal", 0.0, 3.0, true)
  ]

  /** The model's feature names (the training module's list), the same names in the same
      order as FIELDS; the tracker keys recorded features by them. */
  const FEATURE_NAMES: seq<string> :=
    ["age", "sex", "cp", "trestbps", "chol", "fbs", "restecg", "thalach", "exang", "oldpeak", "slope", "ca", "thal"]

  const UNPROCESSABLE_ENTITY: int := 422

  /** The check one field makes: present, a number, within the inclusive bounds, and a
      whole number when the field is an `int`. */
  predicate FieldAccepts(body: Body, f: FieldSpec)
  {
    && f.name in body
    && body[f.name].JNumber?
    && f.lo <= body[f.name].n <= f.hi
    && (f.integral ==> body[f.name].n.Floor as real == body[f.name].n)
  }

  datatype Validation = Accepted(features: map<string, real>) | Rejected(status: int)

  /** Validates `fields` one after another; the accepted values are collected by name. */
  function ValidateFields(body: Body, fields: seq<FieldSpec>): (r: Validation)
    ensures r.Accepted? <==> forall i :: 0 <= i < |fields| ==> FieldAccepts(body, fields[i])
    ensures r.Rejected? ==> r.status == UNPROCESSABLE_ENTITY
    ensures r.Accepted? ==> r.features.Keys == set i | 0 <= i < |fields| :: fields[i].name
    ensures r.Accepted? ==> forall k :: k in r.features ==> k in body && body[k] == JNumber(r.features[k])
  {
    if fields == [] then Accepted(map[])
    else
      var f := fields[|fields| - 1];
      match ValidateFields(body, fields[..|fields| - 1])
      case Rejected(s) => Rejected(s)
      case Accepted(m) =>
        if FieldAccepts(body, f) then
          assert forall i :: 0 <= i < |fields| - 1 ==> fields[..|fields| - 1][i] == fields[i];
          Accepted(m[f.name := body[f.name].n])
        else Rejected(UNPROCESSABLE_ENTITY)
  }

  /** Request validation of a prediction body: accepted iff all 13 fields pass, otherwise
      a 422 response. The accepted map holds exactly the 13 names with the body's values. */
  function ValidateInput(body: Body): (r: Validation)
    ensures r.Accepted? <==> forall i :: 0 <= i < |FIELDS| ==> FieldAccepts(body, FIELDS[i])
    ensures r.Rejected? ==> r.status == UNPROCESSABLE_ENTITY
    ensures r.Accepted? ==> r.features.Keys == set i | 0 <= i < |FIELDS| :: FIELDS[i].name
    ensures r.Accepted? ==> forall k :: k in r.features ==> body[k] == JNumber(r.features[k])
  {
    ValidateFields(body, FIELDS)
  }

  /** The example request documented on the input model, which is also the test suite's
      sample input, with the given value for "age" (the sample has 52). */
  function SampleBody(age: JsonValue): Body
  {
    map[
    "age" := age, "sex" := JNumber(1.0), "cp" := JNumber(0.0),
    "trestbps" := JNumber(125.0), "chol" := JNumber(212.0), "fbs" := JNumber(0.0),
    "restecg" := JNumber(1.0), "thalach" := JNumber(168.0), "exang" := JNumber(0.0),
    "oldpeak" := JNumber(1.0), "slope" := JNumber(2.0), "ca" := JNumber(2.0),
    "thal" := JNumber(3.0)]
  }

  const EXAMPLE_BODY: Body := SampleBody(JNumber(52.0))

  /** Every age within the inclusive bounds [0, 120], the ends included, is accepted
      alongside the sample's other fields. */
  lemma AnyAgeInBoundsIsAccepted(age: real)
    requires 0.0 <= age <= 120.0
    ensures ValidateInput(SampleBody(JNumber(age))).Accepted?
  {
    SampleFieldsAccepted(age, 0, 4);
    SampleFieldsAccepted(age, 4, 8);
    SampleFieldsAccepted(age, 8, 13);
  }

  /** The sample's fields lo up to hi pass their checks. */
  lemma SampleFieldsAccepted(age: real, lo: nat, hi: nat)
    requires 0.0 <= age <= 120.0
    requires (lo == 0 && hi == 4) || (lo == 4 && hi == 8) || (lo == 8 && hi == 13)
    ensures forall i :: lo <= i < hi ==> FieldAccepts(SampleBody(JNumber(age)), FIELDS[i])
  {
    var b := SampleBody(JNumber(age));
    if lo == 0 {
      assert FieldAccepts(b, FIELDS[0]) && FieldAccepts(b, FIELDS[1]);
      assert FieldAccepts(b, FIELDS[2]) && FieldAccepts(b, FIELDS[3]);
    } else if lo == 4 {
      assert FieldAccepts(b, FIELDS[4]) && FieldAccepts(b, FIELDS[5]);
      assert FieldAccepts(b, FIELDS[6]) && FieldAccepts(b, FIELDS[7]);
    } else {
      assert FieldAccepts(b, FIELDS[8]) && FieldAccepts(b, FIELDS[9]) && FieldAccepts(b, FIELDS[10]);
      assert FieldAccepts(b, FIELDS[11]) && FieldAccepts(b, FIELDS[12]);
    }
  }

  /** The documented example is accepted. The bounds are inclusive: an age of 0 or of 120
      is accepted. */
  lemma AgeBoundsAreInclusive()
    ensures ValidateInput(EXAMPLE_BODY).Accepted?
    ensures ValidateInput(SampleBody(JNumber(0.0))).Accepted?
    ensures ValidateInput(SampleBody(JNumber(120.0))).Accepted?
  {
    AnyAgeInBoundsIsAccepted(52.0);
    AnyAgeInBoundsIsAccepted(0.0);
    AnyAgeInBoundsIsAccepted(120.0);
  }

  /** An empty body, a body with only some fields, a non-numeric age, an age of 200 and a
      fractional value for an `int` field are refused with 422. */
  lemma IncompleteOrMistypedBodiesAreRejected()
    ensures ValidateInput(map[]) == Rejected(422)
    ensures ValidateInput(map["age" := JNumber(52.0), "sex" := JNumber(1.0)]) == Rejected(422)
    ensures ValidateInput(SampleBody(JOther)) == Rejected(422)
    ensures ValidateInput(SampleBody(JNumber(200.0))) == Rejected(422)
    ensures ValidateInput(EXAMPLE_BODY["sex" := JNumber(0.5)]) == Rejected(422)
  {
    assert !FieldAccepts(map[], FIELDS[0]);
    assert !FieldAccepts(map["age" := JNumber(52.0), "sex" := JNumber(1.0)], FIELDS[2]);
    assert !FieldAccepts(SampleBody(JOther), FIELDS[0]);
    assert !FieldAccepts(SampleBody(JNumber(200.0)), FIELDS[0]);
    assert !FieldAccepts(EXAMPLE_BODY["sex" := JNumber(0.5)], FIELDS[1]);
  }

  /** The prediction response. Fields the constructor is not given take their defaults. */
  datatype PredictionResponse = PredictionResponse(
    prediction: int,
    probability: real,
    isOutlier: bool,
    anomalyScore: real,
    featureContributions: seq<(string, real)>,
    status: string)

  /** Builds a prediction response; `None` for an argument means it was not passed.
      A probability outside [0, 1] fails validation. */
  function NewPredictionResponse(prediction: int, probability: real, isOutlier: Option<bool>,
                                 anomalyScore: Option<real>, contributions: Option<seq<(string, real)>>)
    : (r: Option<PredictionResponse>)
    ensures r.Some? <==> 0.0 <= probability <= 1.0
    ensures r.Some? ==> r.value.prediction == prediction && r.value.probability == probability
    ensures r.Some? ==> r.value.status == "success"
    ensures r.Some? && isOutlier.None? ==> !r.value.isOutlier
    ensures r.Some? && anomalyScore.None? ==> r.value.anomalyScore == 0.0
    ensures r.Some? && contributions.None? ==> r.value.featureContributions == []
    ensures r.Some? && isOutlier.Some? ==> r.value.isOutlier == isOutlier.value
    ensures r.Some? && anomalyScore.Some? ==> r.value.anomalyScore == anomalyScore.value
    ensures r.Some? && contributions.Some? ==> r.value.featureContributions == contributions.value
  {
    if 0.0 <= probability <= 1.0 then
      Some(PredictionResponse(
        prediction, probability,
        match isOutlier case Some(b) => b case None => false,
        match anomalyScore case Some(a) => a case None => 0.0,
        match contributions case Some(c) => c case None => [],
        "success"))
    else None
  }

  /** The statistics response; every field defaults to zero. */
  datatype StatsResponse = StatsResponse(
    totalPredictions: int,
    highRiskCount: int,
    lowRiskCount: int,
    highRiskRate: real,
    averageConfidence: real,
    outlierCount: int)

  const DEFAULT_STATS: StatsResponse := StatsResponse(0, 0, 0, 0.0, 0.0, 0)

  /** The spike-detection response. Rates missing from the tracker's verdict default to
      None (sent as JSON null); keys the model does not declare are dropped. */
  datatype SpikeDetectionResponse = SpikeDetectionResponse(
    spikeDetected: bool,
    spikeScore: real,
    message: string,
    recentHighRiskRate: Option<real>,
    baselineHighRiskRate: Option<real>,
    windowSize: int)

  const DEFAULT_SPIKE: SpikeDetectionResponse := SpikeDetectionResponse(false, 0.0, "", None, None, 0)
}
