/**
 * The risk classifier of scripts/risk_predictor.py: a three-way comparison
 * of a dryness index against the learned threshold, and the loader of that
 * threshold, which falls back to 0.65 on any failure.
 */
module RiskPredictor {
  import opened Wrappers
  import opened Json
  import TrainModel
  import TrainingTable

  datatype Risk = Low | Medium | High

  const DefaultThreshold: real := 0.65

  /** How far above the threshold dryness must be to be HIGH. */
  const HighMargin: real := 0.10

  /** classify_risk(dryness, threshold). */
  function ClassifyRisk(dryness: real, threshold: real): (r: Risk)
    ensures r == High <==> dryness >= threshold + HighMargin
    ensures r == Medium <==> threshold <= dryness < threshold + HighMargin
    ensures r == Low <==> dryness < threshold
  {
    if dryness >= threshold + HighMargin then High
    else if dryness >= threshold then Medium
    else Low
  }

  /** The order of the levels. */
  function Level(r: Risk): nat
  {
    match r
    case Low => 0
    case Medium => 1
    case High => 2
  }

  /** Drier never means a lower level. */
  lemma ClassifyMonotone(d1: real, d2: real, threshold: real)
    requires d1 <= d2
    ensures Level(ClassifyRisk(d1, threshold)) <= Level(ClassifyRisk(d2, threshold))
  {
  }

  /** A higher threshold never means a higher level. */
  lemma ClassifyAntitoneInThreshold(dryness: real, t1: real, t2: real)
    requires t1 <= t2
    ensures Level(ClassifyRisk(dryness, t2)) <= Level(ClassifyRisk(dryness, t1))
  {
  }

  /** With the default threshold 0.65: 0.80 is HIGH, 0.68 MEDIUM, 0.50 LOW. */
  lemma ClassifyExamples()
    ensures ClassifyRisk(0.80, DefaultThreshold) == High
    ensures ClassifyRisk(0.68, DefaultThreshold) == Medium
    ensures ClassifyRisk(0.50, DefaultThreshold) == Low
  {
  }

  /** The threshold file: missing, unreadable (open or json.load raised), or the parsed document. */
  datatype ThresholdFile = Absent | Unreadable | Parsed(doc: JsonValue)

  /** `float(v)` on a value json.load produced; None where it raises. */
  function AsFloat(v: JsonValue): (r: Option<real>)
    ensures v.Num? ==> r == Some(v.x)
    ensures v.Null? || v.Array? || v.Object? ==> r == None
  {
    match v
    case Num(x) => Some(x)
    case Bool(b) => Some(if b then 1.0 else 0.0)
    case _ => None
  }

  /**
   * load_threshold(default): the stored "risk_threshold" as a float, the
   * default when the key is absent, and the default whenever anything
   * raises (no file, bad JSON, a document that is not an object, a value
   * float() refuses).
   */
  function LoadThreshold(file: ThresholdFile, default: real): (th: real)
    ensures !file.Parsed? ==> th == default
    ensures file.Parsed? && !file.doc.Object? ==> th == default
    ensures file.Parsed? && file.doc.Object? ==>
      var fields := file.doc.fields;
      && (TrainModel.ThresholdKey !in fields ==> th == default)
      && (TrainModel.ThresholdKey in fields && AsFloat(fields[TrainModel.ThresholdKey]).None? ==> th == default)
      && (TrainModel.ThresholdKey in fields && AsFloat(fields[TrainModel.ThresholdKey]).Some? ==>
            th == AsFloat(fields[TrainModel.ThresholdKey]).value)
  {
    match file
    case Parsed(Object(fields)) =>
      if TrainModel.ThresholdKey !in fields then default
      else
        var v := AsFloat(fields[TrainModel.ThresholdKey]);
        if v.Some? then v.value else default
    case _ => default
  }

  /** The loader reads back exactly the threshold the trainer wrote. */
  lemma LoadWrittenThreshold(th: real, default: real)
    ensures LoadThreshold(Parsed(TrainModel.ThresholdDocument(th)), default) == th
  {
  }

  /**
   * After a training run that returned a threshold, the loader yields that
   * threshold, which lies in [0.5, 0.85].
   */
  lemma TrainThenLoad(table: seq<TrainingTable.Row>, score: real, modelOut: string)
    requires |table| >= TrainModel.MinRows
    ensures var o := TrainModel.TrainFireModel(Some(table), score, modelOut).value;
      && o.threshold.Some? && o.thresholdFile.Some?
      && LoadThreshold(Parsed(o.thresholdFile.value), DefaultThreshold) == o.threshold.value
      && TrainModel.MinThreshold <= LoadThreshold(Parsed(o.thresholdFile.value), DefaultThreshold) <= TrainModel.MaxThreshold
  {
    LoadWrittenThreshold(TrainModel.ThresholdFromScore(score), DefaultThreshold);
  }

  /** run_module_5(dryness_value): classify against the loaded threshold. */
  function RunModule5(file: ThresholdFile, dryness: real): (r: Risk)
    ensures !file.Parsed? ==> r == ClassifyRisk(dryness, DefaultThreshold)
  {
    ClassifyRisk(dryness, LoadThreshold(file, DefaultThreshold))
  }

  /**
   * Training then prediction end to end: after a run on 200 rows or more,
   * run_module_5 classifies against the clipped held-out accuracy.
   */
  lemma TrainThenPredict(table: seq<TrainingTable.Row>, score: real, modelOut: string, dryness: real)
    requires |table| >= TrainModel.MinRows
    ensures var o := TrainModel.TrainFireModel(Some(table), score, modelOut).value;
      o.thresholdFile.Some? &&
      RunModule5(Parsed(o.thresholdFile.value), dryness) == ClassifyRisk(dryness, TrainModel.ThresholdFromScore(score))
  {
    TrainThenLoad(table, score, modelOut);
  }

  /** With no threshold file the default dryness 0.75 is HIGH. */
  lemma DefaultRunIsHigh()
    ensures RunModule5(Absent, 0.75) == High
  {
  }
}
