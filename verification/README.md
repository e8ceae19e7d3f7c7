# Peat dryness and fire risk: a verified model of the synthetic chain

This project models, in Dafny, the synthetic peat-dryness and fire-risk chain
under `scripts/`:

- **Displacement synthesis.** `synth_utils.py` holds the pure helpers: AR(1)
  memory, planar ramp, seasonal cycle, line-of-sight projection, logistic
  fire probability and the blurred cluster mask. `module2_stream.py` is the
  live generator: a 15-step cycle of 10 drying and 5 rewetting steps, at most
  one shock per step, and a persisted vertical field.
- **The dryness accumulator.** It exists in two different rules.
  `module3_historical.py` and `module3_stream.py` both write
  `clip(cum + sub − 0.3·up, 0, 10)`, defined once in `Accumulator`.
  `dryness_model.py` writes `clip(cum + 0.7·sub/5 − 0.3·(0.3·up)/5, 0, 10)`;
  there the recovery factor is applied twice, so uplift counts −0.018 per
  centimetre. Each file's rule is modelled as written, and the two are not
  reconciled. The dryness index is deficit/10.
- **The historical archive** (`module3_historical.py`). 120 epochs ten days
  apart from 1 January 2020. Each epoch has a month-based seasonal bias,
  ENSO, drought and rain pulses, and the deficit threaded from epoch to
  epoch. Each epoch produces a dryness raster and a fire mask, under
  `dry_YYYYMMDD.tif` and `fire_YYYYMMDD.tif`.
- **Training-table construction.** `fire_overlay.py` builds the table:
  - it globs and sorts both archive directories and pairs the files in order;
  - it fails on a count mismatch and skips pairs whose shapes differ;
  - it drops NaN pixels and samples `min(500, n)` of the rest without
    replacement;
  - it stamps every row with the date in the dryness file's name, then
    concatenates and rewrites the CSV.

  `module3_stream.py` appends 500 pixels, drawn with replacement, per call.
  It writes the header only when the file is new.
- **Threshold training** (`train_model.py`). The row guard (200 rows), the
  clip of the held-out accuracy into [0.5, 0.85], and the files a run leaves.
- **Risk classification** (`risk_predictor.py`). `classify_risk` and
  `load_threshold` with its 0.65 fallback.

How the model is built:

- Grids are `seq<seq<real>>`. The numpy operations the scripts use
  (element-wise arithmetic, `clip`, `flatten`, `mean`, `zeros_like`) are
  functions in `Grids`.
- Dates, `timedelta`, `strftime("%Y%m%d")` and `strptime` are in `Calendar`.
- Files a script overwrites or appends to are fields of classes. An absent
  file is `None` (`LiveDisplacement.DisplacementStream`,
  `DrynessModel.LiveDryness`, `Stream.StreamState`,
  `TrainingTable.TrainingCsv`).
- The source has two loops: the epoch loop of `module3_historical.py` and the
  pair loop of `fire_overlay.py`. Both are `while`/`for` methods proved equal
  to a recursive specification function.
- Everything else is vectorised numpy, modelled by functions.
- Randomness and transcendental functions are parameters of the model, as
  are the Gaussian blur and the fitted classifier's score:
  - `sinCycle(x)` stands for sin(2πx) and `cosInc` for cos(37°);
  - `exp` is required positive, and monotone where monotonicity is proved;
  - `blur` is `gaussian_filter`, required in the archive to keep a 200×200 raster 200×200;
  - uniform draw grids, single draws, sampled positions, a sampler
    function, the smooth noise field and the clock are inputs.

## Model

| member | source | states |
|---|---|---|
| Grids.Clip | scripts/dryness_model.py:43 | `np.clip(x, lo, hi)` lies in [lo, hi], is x inside the range and the nearer bound outside it |
| Grids.ZerosLike | scripts/dryness_model.py:36 | `np.zeros_like` has the input's shape and is zero everywhere |
| Grids.FlattenAt | scripts/module3_stream.py:58-59 | row-major `flatten()` of an h×w raster has h·w values and holds cell (i, j) at position i·w + j |
| Grids.MeanWithin | scripts/dryness_model.py:56 | the mean of a non-empty raster whose cells lie in [lo, hi] lies in [lo, hi] |
| Calendar.AddDays | scripts/module3_historical.py:42 | adding n days to a valid date gives a valid date at most n years later |
| Calendar.YearLength | scripts/module3_historical.py:42 | the twelve month lengths add up to 366 days in a leap year and 365 otherwise |
| Calendar.NextDayOrdinal | scripts/module3_historical.py:42 | the next calendar day is exactly one day-ordinal (`toordinal()`) later |
| Calendar.AddDaysOrdinal | scripts/module3_historical.py:42 | `d + timedelta(days=n)` is exactly n day-ordinals after d |
| Calendar.Parse | scripts/fire_overlay.py:32 | `strptime(s, "%Y%m%d")` succeeds only on the eight-digit formatted form of a valid date: a parsed date formats back to s; anything else is a failure |
| Calendar.PaddedOfNumber | scripts/fire_overlay.py:32 | a digit string is the zero-padded form, at its own width, of the number it denotes |
| Calendar.Format | scripts/module3_historical.py:86 | `strftime("%Y%m%d")` is eight decimal digits |
| Calendar.ParseFormat | scripts/fire_overlay.py:32 | `strptime(strftime(d), "%Y%m%d")` gives d back for every valid date |
| Calendar.NumberOfPadded | scripts/module3_historical.py:86 | reading back w zero-padded digits of n gives n mod 10^w |
| SynthUtils.PlanarRamp | scripts/synth_utils.py:14-17 | the ramp has shape h×w and cell (y, x) is ax·x + ay·y |
| SynthUtils.Ar1Series | scripts/synth_utils.py:19-21 | every cell is phi·prev + innovation |
| SynthUtils.Ar1FromZero | scripts/synth_utils.py:19-21 | a zero previous grid returns the innovation unchanged |
| SynthUtils.SeasonalComponent | scripts/synth_utils.py:23-25 | the term is amp·sin(2π·phase) with the phase (t mod period)/period inside one cycle [0, 1) |
| SynthUtils.SeasonalPeriodic | scripts/synth_utils.py:23-25 | the seasonal term at t + period equals the term at t |
| SynthUtils.SeasonalZeroAtCycleStart | scripts/synth_utils.py:23-25 | the seasonal term is 0 whenever t mod period is 0 |
| SynthUtils.SeasonalBounded | scripts/synth_utils.py:25 | the seasonal term never exceeds the amplitude in magnitude, given that sine stays within [−1, 1] |
| SynthUtils.LosFromVertical | scripts/synth_utils.py:27-30 | the projection scales every cell by the one constant cos(incidence) |
| SynthUtils.LosPreservesSign | scripts/synth_utils.py:27-30 | with a positive cosine the projection keeps every cell's sign, and zero maps to zero |
| SynthUtils.LosAdditive | scripts/synth_utils.py:27-30 | projecting a sum is the sum of the projections |
| SynthUtils.Logistic | scripts/synth_utils.py:36-38 | `1/(1 + exp(−p))` lies strictly between 0 and 1 when exp is positive |
| SynthUtils.FireProbability | scripts/synth_utils.py:40-42 | the fire probability lies strictly in (0, 1) |
| SynthUtils.FireProbabilityMonotone | scripts/synth_utils.py:40-42 | with a non-negative scale and a monotone exp, a drier pixel never gets a lower probability |
| SynthUtils.FireProbabilityGrid | scripts/synth_utils.py:40-42 | the probability raster has the dryness raster's shape and lies in [0, 1] |
| SynthUtils.ClusterMask | scripts/synth_utils.py:44-49 | the mask holds only 0 and 1, and a cell is 1 iff the blurred raw-fire field exceeds 0.35 there |
| SynthUtils.ClusterMaskOfZeroProbability | scripts/synth_utils.py:47-49 | a zero probability field (with a blur that keeps zero at zero) gives an all-zero mask |
| LiveDisplacement.PhaseOf | scripts/module2_stream.py:57-58 | a step is dry iff its position in the 15-step cycle is below 10, wet iff it is one of the last 5 |
| LiveDisplacement.PhasePeriodic | scripts/module2_stream.py:57-58 | the dry/wet phase repeats every 15 steps |
| LiveDisplacement.PhaseWithinCycle | scripts/module2_stream.py:14-17 | within every cycle the first 10 steps are dry and the last 5 wet, both directions |
| LiveDisplacement.PhaseBias | scripts/module2_stream.py:20-21 | the bias is −0.012 (subsidence) when dry and +0.008 (uplift) when wet |
| LiveDisplacement.ShockOf | scripts/module2_stream.py:74-81 | a drought happens iff the phase is dry and the draw is below 0.12, a storm iff it is wet and the draw is below 0.08; never both |
| LiveDisplacement.ShockMagnitude | scripts/module2_stream.py:74-81 | no shock adds nothing, a drought subtracts, a storm adds |
| LiveDisplacement.PriorOrZeros | scripts/module2_stream.py:51-54 | without a saved state the memory is a 200×200 zero grid, otherwise the saved grid |
| LiveDisplacement.Vertical | scripts/module2_stream.py:66-81 | every cell is 0.93·prev + innovation + ramp + 0.00005·t + phase bias + shock |
| LiveDisplacement.VerticalComposition | scripts/module2_stream.py:57-81 | the vertical cell value in each of the four phase/shock cases, with the constants written out |
| LiveDisplacement.ColdStartMemory | scripts/module2_stream.py:51-54 | on a cold start the AR(1) term is exactly the innovation |
| LiveDisplacement.DisplacementStream.GenerateLiveDisplacement | scripts/module2_stream.py:47-104 | the persisted state becomes the new vertical field (not the line-of-sight one), and the output raster is that field times cos(37°) |
| Accumulator.PriorDeficit | scripts/module3_stream.py:33-36 | the saved deficit when its file exists, otherwise zeros of the displacement's shape (`np.zeros_like`); the same fallback as scripts/dryness_model.py:33-36 |
| Accumulator.StepSub | scripts/module3_stream.py:40 | subsidence in centimetres is non-negative, −100·d for d ≤ 0 and 0 for d ≥ 0 |
| Accumulator.StepUp | scripts/module3_stream.py:41 | rewetting is non-negative, 30·d for d ≥ 0 and 0 for d ≤ 0 |
| Accumulator.DeficitStep | scripts/module3_stream.py:39-44 | the new deficit lies in [0, 10] for any displacement and equals clip(cum − 100·d) when subsiding, clip(cum − 30·d) when rising |
| Accumulator.DrynessIndex | scripts/module3_stream.py:48 | the index lies in [0, 1] and is deficit/10 for a deficit in range |
| Accumulator.ZeroDisplacementKeeps | scripts/module3_stream.py:39-44 | zero displacement leaves an in-range deficit unchanged |
| Accumulator.DeficitAntitone | scripts/module3_historical.py:28-31 | more subsidence never lowers the deficit |
| Accumulator.SubsidenceThenUplift | scripts/module3_historical.py:29-31 | x cm of subsidence then x cm of uplift from c gives c + 0.7·x, never below c |
| Accumulator.SustainedDroughtRises | scripts/module3_historical.py:31 | under steady subsidence s the deficit rises by at least 100·s per epoch until it reaches the 10 cm cap, never beyond |
| Accumulator.SustainedDroughtSaturates | scripts/module3_historical.py:31-32 | after enough epochs of drought the deficit is exactly 10 and the index exactly 1 |
| Accumulator.UpdateGrid | scripts/module3_stream.py:44 | the updated raster lies in [0, 10] and is the per-cell step |
| Accumulator.IndexGrid | scripts/module3_stream.py:48 | the index raster lies in [0, 1] and is deficit/10 cell by cell when the deficit is in range |
| Accumulator.MeanIndexWithin | scripts/module3_stream.py:71 | the mean index of any non-empty raster lies in [0, 1] |
| DrynessModel.Increase | scripts/dryness_model.py:27 | drying is non-negative, positive iff the surface subsides, and −100·d when it does |
| DrynessModel.Decrease | scripts/dryness_model.py:30 | rewetting is non-negative, positive iff the surface rises, and 30·d when it does |
| DrynessModel.DryingXorRewetting | scripts/dryness_model.py:27-30 | at most one of drying and rewetting is non-zero, and both are zero for no movement |
| DrynessModel.LiveDeficitStep | scripts/dryness_model.py:40-43 | the new deficit lies in [0, 10] and is clip(cum − 14·d) when subsiding, clip(cum − 1.8·d) when rising |
| DrynessModel.DryingOutweighsRewetting | scripts/dryness_model.py:40 | equal subsidence moves the deficit further up than equal uplift moves it down |
| DrynessModel.FiveCentimetreScenario | scripts/dryness_model.py:24-49 | from 0, a displacement of −0.05 m gives deficit 0.7 and index 0.07 |
| DrynessModel.LiveUpdateGrid | scripts/dryness_model.py:40-43 | every updated cell lies in [0, 10] and is the per-cell step |
| DrynessModel.LiveDryness.RunModule2 | scripts/dryness_model.py:14-56 | a missing state starts from zeros of the input's shape; the state becomes the updated deficit, the index raster its index, and the returned mean lies in [0, 1]; a saved state of another shape fails and changes nothing |
| Historical.DisplacementToDryness | scripts/module3_historical.py:27-33 | returns an index in [0, 1] and a deficit in [0, 10], with index = deficit/10 cell by cell |
| Historical.SeasonalBias | scripts/module3_historical.py:46-51 | months 11, 12, 1 and 2 give +0.015; months 6 to 9 give −0.025; every other month gives 0 |
| Historical.EpochDate | scripts/module3_historical.py:42 | the date of epoch t (1 January 2020 + 10·t days) is a valid date |
| Historical.ClimateBias | scripts/module3_historical.py:53-65 | seasonal bias plus 0.02·sin(2π·t/90), lowered by 0.06 when the drought draw is below 0.05, raised by 0.08 when the rain draw is below 0.03, net +0.02 when both fire |
| Historical.Memory | scripts/module3_historical.py:73 | the AR(1) memory is cum/100 cell by cell |
| Historical.EpochVertical | scripts/module3_historical.py:54-78 | every vertical cell is 0.92·cum/100 + noise + trend + season + ramp + climate bias |
| Historical.CumAfter | scripts/module3_historical.py:37-81 | the deficit after any number of epochs is a 200×200 raster in [0, 10] |
| Historical.EpochMaskShape | scripts/module3_historical.py:84 | every epoch's fire mask is a 200×200 raster, given a blur that keeps a raster's shape |
| Historical.EpochResult | scripts/module3_historical.py:81-88 | epoch t is written under its date's names, its dryness raster is the deficit carried out of the epoch divided by 10 (so in [0, 1]), and its fire mask holds only 0 and 1 |
| Historical.RunModule3Historical | scripts/module3_historical.py:35-102 | all 120 epochs are produced in order, epoch t being computed from the deficit threaded out of epoch t − 1 (zeros before epoch 0) |
| Historical.RunEpoch | scripts/module3_historical.py:41-88 | one pass of the loop produces epoch t's output and the deficit for epoch t + 1 |
| TrainingTable.RowsOfAppend | scripts/module3_stream.py:63-68 | reading a file made of two parts gives the first part's rows followed by the second's |
| TrainingTable.RowsOfRecords | scripts/module3_stream.py:63-68 | the records written for a batch read back as exactly that batch |
| TrainingTable.TrainingCsv.Append | scripts/module3_stream.py:63-68 | existing lines are kept as a prefix, the header is written iff the file did not exist, and the rows grow by exactly the batch |
| TrainingTable.TrainingCsv.Overwrite | scripts/fire_overlay.py:66 | the file becomes one header followed by exactly the given rows |
| Stream.FireMask | scripts/module3_stream.py:51-52 | the mask holds only 0 and 1, and a cell is 1 iff its draw is below 0.15 × its index |
| Stream.NoFireWithoutDryness | scripts/module3_stream.py:51-52 | where the deficit (and so the index) is 0, the mask is 0 |
| Stream.SampleBatch | scripts/module3_stream.py:55-60 | the batch has one row per drawn position, all with the same timestamp |
| Stream.SampleBatchCells | scripts/module3_stream.py:55-60 | row k is the index and the fire value of cell (idx[k] / 200, idx[k] % 200) |
| Stream.SampledValues | scripts/module3_stream.py:55-60 | every sampled dryness lies in [0, 1] and every fire value is 0 or 1 |
| Stream.MeanIndex | scripts/module3_stream.py:71 | the returned mean index lies in [0, 1] |
| Stream.FireFlag | scripts/module3_stream.py:71 | the flag is 0 or 1, and 1 iff the mean of the fire mask exceeds 0.01 |
| Stream.NoDeficitNoFlag | scripts/module3_stream.py:51-71 | a deficit of zero everywhere gives a fire flag of 0 |
| Stream.StreamState.RunModule3Stream | scripts/module3_stream.py:23-71 | the state becomes the updated deficit; the table keeps its lines and gains exactly 500 rows (header only if it was new); the mean index and fire flag of the new index are returned |
| FireOverlay.Glob | scripts/fire_overlay.py:21-22 | exactly the listed files whose names match `*.tif` (not hidden) are kept |
| FireOverlay.NameLeTotal | scripts/fire_overlay.py:21-22 | any two names are ordered one way or the other |
| FireOverlay.NameLeTransitive | scripts/fire_overlay.py:21-22 | the name order is transitive |
| FireOverlay.Insert | scripts/fire_overlay.py:21-22 | inserting into a sorted list keeps it sorted and adds exactly the one file |
| FireOverlay.SortByName | scripts/fire_overlay.py:21-22 | `sorted` returns the same files (as a multiset) in name order |
| FireOverlay.IndexOf | scripts/fire_overlay.py:31 | the first occurrence of a character, or none when it does not occur |
| FireOverlay.SecondField | scripts/fire_overlay.py:31 | `split("_")[1]` fails iff the name has no underscore |
| FireOverlay.RemoveAll | scripts/fire_overlay.py:31 | `str.replace(pat, "")` only deletes characters: never longer, every character comes from the input, and a string without the pattern is unchanged |
| FireOverlay.RemoveAllLeftmost | scripts/fire_overlay.py:31 | `str.replace` removes the leftmost occurrence first: with no occurrence starting inside a, `(a + pat + b).replace(pat, "")` is a followed by `b.replace(pat, "")` |
| FireOverlay.RemoveAllFirstAt | scripts/fire_overlay.py:31 | scanning from offset j, the characters before the first occurrence at i are kept and the result continues after that occurrence |
| FireOverlay.TimestampOf | scripts/fire_overlay.py:31-32 | a parsed timestamp is a valid date |
| FireOverlay.RemoveSuffix | scripts/fire_overlay.py:31 | `replace(".tif", "")` on digits followed by ".tif" leaves the digits |
| FireOverlay.ArchiveNameTimestamp | scripts/fire_overlay.py:31-32 | the name of every raster the historical generator writes parses back to its epoch date |
| FireOverlay.KeptPositions | scripts/fire_overlay.py:47-50 | the NaN mask keeps, in increasing order, every non-NaN position and no NaN one |
| FireOverlay.NonNaNPairs | scripts/fire_overlay.py:47-50 | the filtered arrays hold exactly one (dryness, fire) pair per non-NaN position the mask keeps |
| FireOverlay.SampleSize | scripts/fire_overlay.py:53 | the sample size is min(500, n): never above either |
| FireOverlay.PairBatch | scripts/fire_overlay.py:29-61 | a pair fails iff its dryness name gives no date, is skipped iff the shapes differ, and otherwise gives at most 500 rows |
| FireOverlay.BatchRowsArePixels | scripts/fire_overlay.py:44-59 | a batch has min(500, n) rows, all stamped with the file's date at midnight; each row is the dryness and fire value of one and the same non-NaN pixel; no pixel is sampled twice |
| FireOverlay.PairOutcomes | scripts/fire_overlay.py:29-32 | one outcome per pair of the zipped listings; a pair can only fail with its dryness file's bad timestamp |
| FireOverlay.Batches | scripts/fire_overlay.py:27-61 | the first n pairs contribute at most n batches, and a failure is the error of one of those pairs |
| FireOverlay.FailureSticks | scripts/fire_overlay.py:31-32 | once a pair's timestamp fails, the run fails with that error |
| FireOverlay.BatchesInPairOrder | scripts/fire_overlay.py:29-61 | the batches are those of an increasing sequence of pairs, each its own pair's batch, and skipped pairs contribute nothing |
| FireOverlay.Concat | scripts/fire_overlay.py:65 | `pd.concat` keeps every row of every batch and adds no row that is in none of them |
| FireOverlay.ConcatLayout | scripts/fire_overlay.py:65 | `pd.concat` lays the batches end to end in list order: the table has as many rows as the batches together, and batch m is the slice right after batches 0 .. m-1 |
| FireOverlay.ConcatLength | scripts/fire_overlay.py:65 | the concatenated table has exactly the batches' total number of rows |
| FireOverlay.ConcatSlice | scripts/fire_overlay.py:65 | batch m occupies, unchanged, the rows that follow those of the batches before it |
| FireOverlay.ConcatBound | scripts/fire_overlay.py:65 | concatenating batches of at most 500 rows gives at most 500 rows per batch |
| FireOverlay.TrainingData | scripts/fire_overlay.py:20-66 | build_training_data fails with the count mismatch exactly when the sorted listings differ in length |
| FireOverlay.TrainingDataBound | scripts/fire_overlay.py:24-65 | a count mismatch fails the run; a successful run yields at most 500 rows per pair |
| FireOverlay.CollectBatches | scripts/fire_overlay.py:27-61 | the pair loop computes exactly the batches of the specification, stopping at the first failure |
| FireOverlay.ProcessPair | scripts/fire_overlay.py:29-61 | one pass of the loop extends the batch list by the pair's outcome |
| FireOverlay.BuildTrainingData | scripts/fire_overlay.py:20-66 | the result is the specified table; on success the CSV becomes a header plus exactly those rows, and on failure it is left unchanged |
| TrainModel.ThresholdFromScore | scripts/train_model.py:29 | the threshold lies in [0.5, 0.85], equals the score when the score is in range, and is the nearer bound otherwise |
| TrainModel.ThresholdMonotone | scripts/train_model.py:29 | a higher score never gives a lower threshold |
| TrainModel.ThresholdDocument | scripts/train_model.py:32-33 | the JSON document is an object with the single key "risk_threshold", holding the threshold |
| TrainModel.TrainFireModel | scripts/train_model.py:7-35 | a missing table fails; fewer than 200 rows returns no threshold and writes nothing; otherwise the model is written and the clipped threshold is both returned and written under "risk_threshold" |
| TrainModel.WrittenIffReturned | scripts/train_model.py:11-35 | a threshold file is written iff a threshold is returned iff the table has 200 rows or more, and it holds exactly that threshold |
| TrainModel.StreamedTableTrains | scripts/module3_stream.py:55-68 | whatever the table held, appending one stream batch of 500 sampled rows makes training return the clipped threshold |
| RiskPredictor.ClassifyRisk | scripts/risk_predictor.py:14-21 | HIGH iff dryness ≥ threshold + 0.10, MEDIUM iff threshold ≤ dryness < threshold + 0.10, LOW iff dryness < threshold |
| RiskPredictor.ClassifyMonotone | scripts/risk_predictor.py:14-21 | raising dryness at a fixed threshold never lowers the level |
| RiskPredictor.ClassifyAntitoneInThreshold | scripts/risk_predictor.py:14-21 | raising the threshold never raises the level |
| RiskPredictor.ClassifyExamples | scripts/risk_predictor.py:14-21 | at threshold 0.65, 0.80 is HIGH, 0.68 MEDIUM and 0.50 LOW |
| RiskPredictor.AsFloat | scripts/risk_predictor.py:10 | a number converts to itself; null, lists and objects do not convert |
| RiskPredictor.LoadThreshold | scripts/risk_predictor.py:5-12 | the default when the file is missing or unreadable, is not an object, lacks the key, or holds a value float() refuses; otherwise the stored value |
| RiskPredictor.LoadWrittenThreshold | scripts/risk_predictor.py:8-10 | loading the document the trainer writes gives back its threshold |
| RiskPredictor.TrainThenLoad | scripts/train_model.py:29-35 | after a run on 200 rows or more, the loader yields the returned threshold, which lies in [0.5, 0.85] |
| RiskPredictor.RunModule5 | scripts/risk_predictor.py:23-27 | without a threshold file, dryness is classified against 0.65 |
| RiskPredictor.TrainThenPredict | scripts/risk_predictor.py:23-27 | after training on 200 rows or more, `run_module_5` with the written threshold file classifies dryness against the clipped held-out accuracy |
| RiskPredictor.DefaultRunIsHigh | scripts/risk_predictor.py:23-27 | with no threshold file the default dryness 0.75 is HIGH |

## Left out

- `gaussian_field` (normal draws, blur, standard deviation) is not modelled. The smooth noise field of each step or epoch is an input grid.
- `default_transform`, `Affine`, the CRS and the raster profiles are not modelled. Rasters are their band-1 values.
- Randomness is not modelled. Uniform draws, the sampled positions, `np.random.choice` and `datetime.now()` are inputs.
- `sin`, `cos`, `exp` and `gaussian_filter` are parameters of the model, not definitions.
- Float32 casts and floating-point rounding are not modelled. Arithmetic is on reals.
- File I/O is not modelled byte for byte. A persisted file is a class field or a returned value. The raw displacement file that `simulate_displacement` writes is not kept; its grid is an input of `Stream.StreamState.RunModule3Stream`.
- Console output, the `__main__` blocks, the infinite loop with `time.sleep` in `module2_stream.py`, and `run_module_4` with its fixed paths are not modelled.
- `Historical.RunModule3Historical` returns the epochs' rasters in order. It does not write them to the two archive directories.
- `DrynessModel.LiveDryness.RunModule2` treats any saved deficit whose shape differs from the input as a failure. numpy would broadcast some such shapes instead of raising.
- `Calendar.Format` writes `%Y` as four zero-padded digits for every year. Python's zero padding of years below 1000 depends on the platform; the archive formats only the years 2020–2023.
- `Calendar.Parse` accepts only the eight-digit `%Y%m%d` form. `strptime` also accepts some shorter unpadded forms.
- `RiskPredictor.AsFloat` treats every JSON string as unconvertible. Python's `float` accepts numeric strings. JSON's `NaN` and `Infinity` are not modelled.
- `TrainModel.TrainFireModel` does not model the classifier. The random forest, `train_test_split` and the saved model's contents are opaque; the held-out accuracy is an input, and the model file is recorded only as written or not.
- `LiveDisplacement.DisplacementStream.GenerateLiveDisplacement` and `Stream.StreamState.RunModule3Stream` assume a saved state of shape 200×200. Only these methods write those states.
- `FireOverlay.BuildTrainingData` does not model raster read failures. A fire mask is an integer raster, so the `astype(int)` cast is the identity.
- `FireOverlay.SortByName` sorts base names, while the source sorts full paths. Within one directory the two orders coincide.
- Concurrent writers of the training table are not modelled.
- `TrainModel.TrainFireModel` writes the threshold JSON in place; a crash mid-write is not modelled.
- `RiskPredictor.LoadThreshold` returns the default for every load failure alike; it has no distinct error results.
- `FireOverlay.PairBatch` samples `min(500, n)` pixels without replacement, while `Stream.SampleBatch` always takes 500 positions with replacement; neither falls back to the other's mode.
