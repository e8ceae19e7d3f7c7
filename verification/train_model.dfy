/**
 * The threshold trainer of scripts/train_model.py. The random-forest fit
 * and its held-out accuracy are opaque: the accuracy `score` is an input.
 * What is modelled is the row guard, the clipping of the score into a
 * dryness threshold, and which artifacts a run leaves behind.
 */
module TrainModel {
  import opened Wrappers
  import opened Grids
  import opened Json
  import opened TrainingTable
  import Accumulator
  import Stream

  /** Fewer rows than this and no model is trained. */
  const MinRows: nat := 200

  const MinThreshold: real := 0.5
  const MaxThreshold: real := 0.85

  /** The key under which the threshold file stores the threshold. */
  const ThresholdKey: string := "risk_threshold"

  /** `float(np.clip(score, 0.5, 0.85))`. */
  function ThresholdFromScore(score: real): (th: real)
    ensures MinThreshold <= th <= MaxThreshold
    ensures MinThreshold <= score <= MaxThreshold ==> th == score
    ensures score < MinThreshold ==> th == MinThreshold
    ensures MaxThreshold < score ==> th == MaxThreshold
  {
    Clip(score, MinThreshold, MaxThreshold)
  }

  /** A more accurate model never yields a lower threshold. */
  lemma ThresholdMonotone(s1: real, s2: real)
    requires s1 <= s2
    ensures ThresholdFromScore(s1) <= ThresholdFromScore(s2)
  {
  }

  /** The document `json.dump({"risk_threshold": threshold}, f)` writes. */
  function ThresholdDocument(th: real): (doc: JsonValue)
    ensures doc.Object? && doc.fields.Keys == {ThresholdKey}
    ensures doc.fields[ThresholdKey] == Num(th)
  {
    Object(map[ThresholdKey := Num(th)])
  }

  /** `pd.read_csv` raises when the table does not exist. */
  datatype Failure = TableMissing

  /**
   * What a run returns and leaves behind: the model path and the threshold
   * (None when no training happened), whether the model file was written,
   * and the threshold document written, if any.
   */
  datatype Outcome = Outcome(modelPath: string, threshold: Option<real>,
                             modelWritten: bool, thresholdFile: Option<JsonValue>)

  /**
   * train_fire_model(csv, model_out, th_path), with `table` the rows of the
   * CSV file (None when it is absent) and `score` the accuracy the fitted
   * forest reaches on the held-out 20%.
   */
  function TrainFireModel(table: Option<seq<Row>>, score: real, modelOut: string): (r: Result<Outcome, Failure>)
    ensures r.Err? <==> table.None?
    ensures r.Ok? ==> r.value.modelPath == modelOut
    ensures r.Ok? && |table.value| < MinRows ==>
      r.value.threshold == None && !r.value.modelWritten && r.value.thresholdFile == None
    ensures r.Ok? && |table.value| >= MinRows ==>
      && r.value.threshold == Some(ThresholdFromScore(score))
      && r.value.modelWritten
      && r.value.thresholdFile == Some(ThresholdDocument(ThresholdFromScore(score)))
  {
    match table
    case None => Err(TableMissing)
    case Some(rows) =>
      if |rows| < MinRows then Ok(Outcome(modelOut, None, false, None))
      else
        var th := ThresholdFromScore(score);
        Ok(Outcome(modelOut, Some(th), true, Some(ThresholdDocument(th))))
  }

  /**
   * A threshold file is written exactly when a threshold is returned, and
   * then it stores that threshold under "risk_threshold", which lies in
   * [0.5, 0.85].
   */
  lemma WrittenIffReturned(table: Option<seq<Row>>, score: real, modelOut: string)
    requires TrainFireModel(table, score, modelOut).Ok?
    ensures var o := TrainFireModel(table, score, modelOut).value;
      && (o.thresholdFile.Some? <==> o.threshold.Some?)
      && (o.modelWritten <==> o.threshold.Some?)
      && (o.threshold.Some? <==> |table.value| >= MinRows)
      && (o.threshold.Some? ==>
            && MinThreshold <= o.threshold.value <= MaxThreshold
            && o.thresholdFile.value.Object?
            && o.thresholdFile.value.fields == map[ThresholdKey := Num(o.threshold.value)])
  {
  }

  /**
   * One stream call appends its 500-row batch (Stream.StreamState.RunModule3Stream
   * leaves `table.Rows() == old(table.Rows()) + batch`), so a table the stream
   * has written to is large enough to train on, whatever it held before.
   */
  lemma StreamedTableTrains(prior: seq<Row>, cum: Grid, u: Grid, idx: seq<int>, now: DateTime,
                            score: real, modelOut: string)
    requires Rect(cum, Stream.H, Stream.W) && Rect(u, Stream.H, Stream.W)
    requires |idx| == Stream.SampleCount
    requires forall k :: 0 <= k < |idx| ==> 0 <= idx[k] < Stream.H * Stream.W
    ensures var index := Accumulator.IndexGrid(cum);
      var batch := Stream.SampleBatch(index, Stream.FireMask(index, u), idx, now);
      TrainFireModel(Some(prior + batch), score, modelOut).value.threshold == Some(ThresholdFromScore(score))
  {
  }
}
