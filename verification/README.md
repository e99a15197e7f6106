# HeartWaves screening core in Dafny

This project models the decision logic of HeartWaves, an autonomic-health screening tool.

- It reads daily Apple Health summaries (resting heart rate, HRV SDNN, stand and active minutes, blood pressure).
- A rule-based screener flags a `needs_followup` status and picks a phenotype hint: POTS-like, IST-like, OH-like, VVS-like or unspecified autonomic.
- A k-means model trained offline scores the same person, and the server reconciles the two verdicts.
- The server then chooses a follow-up questionnaire and relabels the screening from the survey answers.

The offline pipeline is modelled too:

- the training-table labeller;
- the stratified train/validation/test split;
- k-means++ / Lloyd training with cluster-to-label mapping and evaluation metrics.

The pure insight helpers of the React front end are also modelled.

Everything is a pure function over immutable datatypes, except where loops over a random draw sequence need methods. Those are weighted choice, k-means++ initialisation, Lloyd iterations, restarts and training. Status, phenotype hint and confidence are enumerations. Ruby's empty string for them is the explicit constructors `NoHint` and `NoConfidence`, and any status other than the two known ones is `UnknownStatus`. A screening is one record (`Domain.Screening`), and the in-place mutators of the source become record-to-record functions.

Modules, one per component:

| file | module | component |
|---|---|---|
| wrappers.dfy | Wrappers | `Option` / `Result` |
| text.dfy | Text | Ruby `strip`, `downcase`, `upcase`, `include?`, `uniq` |
| numbers.dfy | Numbers | sums, means, Ruby and JavaScript rounding, Ruby `Float()` parsing |
| domain.dfy | Domain | status, hint, confidence and its rank, signals, notes, questions, the screening record |
| robust_stats.dfy | RobustStats | sorting, interpolated percentile, median/quartiles/IQR |
| baseline.dfy | Baseline | the rule screener (`lib/screening/baseline.rb`) |
| legacy_baseline.dfy | LegacyBaseline | the older screener (`HeartWaves/lib/screening/baseline.rb`) |
| clustering_model.dfy | ClusteringModel | the online k-means scorer |
| reconcile.dfy | Reconcile | quick-check calibration, merge, normalisation, answer sanitisation and the import and answers pipelines of `server.rb` |
| survey_labeling.dfy | SurveyLabeling | vote tables, support score, alignment and the relabelling state machine |
| kmeans.dfy | KMeans | random draws, weighted choice, k-means++, Lloyd iterations, restarts |
| training.dfy | Training | median/stddev preprocessing, cluster mapping, prediction and metrics |
| training_table.dfy | TrainingTable | header matching and the training-label cascade |
| split_table.dfy | SplitTable | per-label split counts and slicing |
| health_insights.dfy | HealthInsights | score normalisation, daily composites, trend, metric insights, the cross-metric message |

Behaviours of the code that the model reproduces and proves:

- Calibration sets confidence to medium even when the model said high (`Reconcile.CalibrationCanLowerConfidence`).
- The answers endpoint normalises the profile again after the survey has run. A survey revert to normal writes confidence medium, but the endpoint returns confidence high (`Reconcile.RevertEndsHigh`).
- A merge upgrade of a normal/high screening takes the model's possibly lower confidence (`Reconcile.MergeUpgradeMayLowerConfidence`).
- Applying the survey twice with supporting answers promotes confidence twice (`SurveyLabeling.RepeatedSupportPromotesTwice`).

## Model

| member | source | states |
|---|---|---|
| Text.TrimLeft | server.rb:115 | the leading whitespace Ruby strips is removed: the result is a suffix of the input, does not start with whitespace, and only whitespace was dropped |
| Text.TrimRight | server.rb:115 | the mirror of TrimLeft for trailing whitespace (a prefix, no trailing whitespace, only whitespace dropped) |
| Text.Strip | server.rb:115 | `strip` yields the contiguous middle slice with neither end whitespace, everything cut is whitespace, and the result is empty iff the input is all whitespace |
| Text.Lower | lib/screening/survey_labeling.rb:178 | `downcase` keeps the length and lowers each character independently |
| Text.Upper | scripts/build_training_table.rb:46 | `upcase` keeps the length and raises each character independently |
| Text.Contains | scripts/build_training_table.rb:39 | `include?` on strings holds iff the needle occurs at some offset of the haystack |
| Text.Dedup | server.rb:280 | `uniq` returns a duplicate-free list with exactly the same elements, no longer than the input, and leaves a duplicate-free list unchanged |
| Text.DedupOrder | server.rb:280 | `uniq` lists the distinct elements in the order of their first occurrences in the input, which with Dedup's contract fixes the result |
| Text.DedupAppend | lib/screening/survey_labeling.rb:236-238 | appending a note and deduplicating is a no-op when the note is already present and a plain append otherwise |
| Numbers.Min | HeartWavesUIReact/src/utils/healthInsights.ts:140 | `Math.min(...values)` is an element of the list and bounds every element from below |
| Numbers.Max | HeartWavesUIReact/src/utils/healthInsights.ts:141 | `Math.max(...values)` is an element of the list and bounds every element from above |
| Numbers.SumAppend | lib/screening/baseline.rb:276 | the sum of a concatenation is the sum of the parts |
| Numbers.Mean | lib/screening/baseline.rb:274-277 | the mean is nil exactly for an empty list and otherwise lies between its minimum and maximum |
| Numbers.RoundHalfAway | lib/screening/survey_labeling.rb:153 | Ruby `round` gives an integer within 0.5 of the input, rounding a tie away from zero |
| Numbers.Round3 | scripts/build_training_table.rb:179-180 | `round(3)` moves a value by at most 0.0005 and keeps a value of [-1, 1] in [-1, 1] |
| Numbers.JsRound | HeartWavesUIReact/src/utils/healthInsights.ts:27 | `Math.round` gives an integer within 0.5 of the input, a tie rounding up |
| Numbers.JsRoundMonotone | HeartWavesUIReact/src/utils/healthInsights.ts:27-39 | `Math.round` is monotone |
| Numbers.ParseInteger | server.rb:117 | an optionally signed digit run parses to its signed decimal value, and nothing else parses |
| Numbers.DigitsText | server.rb:117 | the decimal spelling of a natural number is a non-empty digit string whose value is that number |
| Numbers.IntegerRoundTrip | server.rb:117 | every integer, written in decimal, parses back to itself both as an integer and as a float |
| Numbers.DigitsParse | server.rb:117 | a text of decimal digits parses as the integer it spells |
| Numbers.ParseUnsignedDecimal | server.rb:117 | an accepted unsigned decimal starts with a digit and holds only digits and points; its value is that of its digit string or of its `whole.frac` split at the point |
| Numbers.DecimalParse | server.rb:117 | `whole.frac` for two non-empty digit runs parses to whole + frac / 10^len(frac) |
| Numbers.ParseUnsignedFloat | server.rb:117 | an accepted unsigned float starts with a digit and holds only number characters; its value is the plain decimal, or the decimal before the first exponent mark scaled by ten to the parsed exponent |
| Numbers.MantissaParse | server.rb:117 | a decimal without exponent parses to the same value as a float |
| Numbers.ExponentParse | server.rb:117 | a decimal, an `e`/`E` and an integer parse to the decimal times ten to that integer |
| Numbers.ParseFloat | server.rb:117 | `Float()` on the decimal forms: an accepted text is non-empty, made of number characters and holds a digit; without a sign it reads as the unsigned float, with `+` as the unsigned rest, with `-` as its negation, and a digit string reads as its value |
| Numbers.ParseOptionalFloat | server.rb:114-120 | a blank text parses to nil; any other text parses as `Float()` of its stripped form |
| Domain.ConfidenceRank | server.rb:198-205 | ranks lie in 0..3 and rank 0 is exactly the empty/unknown confidence |
| RobustStats.Insert | lib/screening/baseline.rb:280 | inserting into a sorted list keeps it sorted and adds exactly the new element (multiset) |
| RobustStats.Sort | lib/screening/baseline.rb:280 | `sort` yields a sorted permutation of its input |
| RobustStats.Percentile | lib/screening/baseline.rb:290-299 | nil iff the list is empty; otherwise the value at an integral rank, or else the linear interpolation of the two neighbouring ranks, and within [first, last] |
| RobustStats.PercentileMonotone | lib/screening/baseline.rb:290-299 | on a sorted list the percentile is monotone in p |
| RobustStats.Summarize | lib/screening/baseline.rb:279-288 | nil iff fewer than 5 values; otherwise n is the value count, median, q1 and q3 are the 50th, 25th and 75th percentiles of the sorted values, q1 <= median <= q3, iqr = q3 - q1 >= 0, all within [min, max] |
| RobustStats.MedianOfFourInterpolates | lib/screening/baseline.rb:290-299 | the median of [10, 20, 30, 40] is the interpolated 25 |
| Baseline.ValueFor | lib/screening/baseline.rb:107-112 | a reading is present iff it is a finite number, and then it is that number |
| Baseline.SeriesFor | lib/screening/baseline.rb:103-105 | a single row gives its value iff that is finite; the series holds only finite readings taken from the rows, is full when every row is finite and empty when none is |
| Baseline.SeriesForAppend | lib/screening/baseline.rb:103-105 | the series of two stretches of days is the first's followed by the second's, so with the single-row case the series is every finite reading in row order |
| Baseline.BpDataPresent | lib/screening/baseline.rb:114-118 | holds iff some row has a finite value under one of the four BP keys |
| Baseline.Last | lib/screening/baseline.rb:25 | `last(n)` is the suffix of length min(n, size) |
| Baseline.HrThresholdIsStrict | lib/screening/baseline.rb:35-47 | a recent resting-HR mean equal to median + max(5, 1.5 IQR), or not above median + 5, does not raise the signal |
| Baseline.HrvThresholdIsStrict | lib/screening/baseline.rb:49-60 | a recent HRV mean equal to median - max(10, 1.5 IQR), or not below median - 10, does not raise the signal |
| Baseline.Signals | lib/screening/baseline.rb:35-60 | the elevated-HR signal is present iff its rule fires, likewise the suppressed-HRV signal, each at moderate severity, no duplicates, no cluster signal |
| Baseline.ClassifyPhenotype | lib/screening/baseline.rb:124-195 | normal status gives (normal, high); elevated HR gives IST- or POTS-like with high confidence by stand shift; suppressed HRV alone gives VVS- or OH-like with low confidence; otherwise unspecified/low; never an empty hint |
| Baseline.NormalQuestionnaire | lib/screening/baseline.rb:232-238 | three questions with distinct ids, each with at least three options |
| Baseline.PotsQuestionnaire | lib/screening/baseline.rb:201-208 | the POTS-like set has five questions with distinct ids |
| Baseline.IstQuestionnaire | lib/screening/baseline.rb:209-216 | the IST-like set has five questions with distinct ids |
| Baseline.OhQuestionnaire | lib/screening/baseline.rb:240-253 | the OH-like set has five questions with distinct ids |
| Baseline.VvsQuestionnaire | lib/screening/baseline.rb:255-268 | the VVS-like set has five questions with distinct ids |
| Baseline.FallbackQuestionnaire | lib/screening/baseline.rb:221-228 | the fallback set has five questions with distinct ids |
| Baseline.QuestionnaireFor | lib/screening/baseline.rb:197-230 | normal status always gets the normal set whatever the hint; every follow-up path gets five distinct questions, chosen by hint |
| Baseline.BpOnlyChangesLastQuestion | lib/screening/baseline.rb:197-268 | blood-pressure availability changes only the fifth question, and only for the OH- and VVS-like sets |
| Baseline.WindowOf | lib/screening/baseline.rb:13-30 | each statistic summarises its metric's full series, each recent series is the series of the last seven days and a tail of the full series, and holds at most seven values |
| Baseline.TrendNotes | lib/screening/baseline.rb:35-60 | the not-enough-data note for a metric is present iff that metric could not be assessed |
| Baseline.ScreeningNotes | lib/screening/baseline.rb:73-93 | the data notes keep the trend notes' meaning, include every phenotype note, and are duplicate-free |
| Baseline.Screen | lib/screening/baseline.rb:32-100 | status is needs_followup iff a rule fires iff a signal exists; the signals are the rule signals; hint, confidence and reason are `classify_phenotype`'s for that status and those signals, and all its notes are kept; the questionnaire is the status's or hint's set; the statistics are the window's |
| Baseline.Run | lib/screening/baseline.rb:9-101 | fails exactly on a nil or empty series; otherwise the screening of the series' window with BP presence read from every row, so status, signals, hint, notes and statistics are Screen's |
| Baseline.ElevatedHrWithoutStandBaselineIsPotsLike | lib/screening/baseline.rb:134-160 | a risen resting HR with no stand-minute baseline gives needs_followup, POTS-like, high confidence |
| Baseline.NoHeartDataScreensNormal | lib/screening/baseline.rb:35-62 | without resting-HR and HRV data the screening is normal and carries both not-enough-data notes |
| LegacyBaseline.Column | HeartWaves/lib/screening/baseline.rb:11-12 | a single row gives its value iff it is present; the column drops missing values and is full when none is missing |
| LegacyBaseline.ColumnAppend | HeartWaves/lib/screening/baseline.rb:11-12 | the column of two stretches of days is the first's followed by the second's, so with the single-row case it is every present value in row order |
| LegacyBaseline.LegacyQuestionnaire | HeartWaves/lib/screening/baseline.rb:56-71 | the older questionnaire depends only on status: the normal set, or five fixed follow-up questions |
| LegacyBaseline.LegacyRun | HeartWaves/lib/screening/baseline.rb:7-84 | fails exactly on a nil or empty series; status is needs_followup iff a signal exists; stats hold only resting HR and HRV |
| LegacyBaseline.ColumnIsSeries | HeartWaves/lib/screening/baseline.rb:11-12 | the older column is the newer `series_for` on the same rows |
| LegacyBaseline.WindowMatches | HeartWaves/lib/screening/baseline.rb:11-22 | the older statistics and recent series equal the newer screener's window |
| LegacyBaseline.LegacyAgreesWithCurrent | HeartWaves/lib/screening/baseline.rb:27-54 | the older and newer screeners give the same status and the same not-enough-data notes |
| ClusteringModel.FindKey | lib/screening/clustering_model.rb:121 | finds the first entry under a key, or reports that none exists |
| ClusteringModel.OrthoValue | lib/screening/clustering_model.rb:119-124 | the value under the first present key in order, nil when none is present or the input is not a hash |
| ClusteringModel.Numeric | lib/screening/clustering_model.rb:126-135 | nil for nil, the number for a number, and the optional float parse for text |
| ClusteringModel.Delta | lib/screening/clustering_model.rb:103-114 | a given delta wins; otherwise stand - sit when both halves exist; nil otherwise |
| ClusteringModel.BuildFeatureValues | lib/screening/clustering_model.rb:75-117 | one entry per distinct continuous feature, in order, holding that feature's derived value |
| ClusteringModel.Get | lib/screening/clustering_model.rb:148 | the value of the first entry for the feature; a value read belongs to an entry for that feature, and an absent feature reads nil |
| ClusteringModel.Present | lib/screening/clustering_model.rb:139 | the present count equals the size iff all are present and is 0 iff none is |
| ClusteringModel.Coverage | lib/screening/clustering_model.rb:137-142 | coverage lies in [0, 1], is 1 iff the map is non-empty and full, and 0 iff nothing is present |
| ClusteringModel.BaseName | lib/screening/clustering_model.rb:153 | removes a trailing `_missing` suffix, and only that |
| ClusteringModel.Unscaled | lib/screening/clustering_model.rb:147-155 | an indicator is 1 iff its base feature is missing; a continuous feature is its value, or the training median when missing; anything else is 0 |
| ClusteringModel.StdAt | lib/screening/clustering_model.rb:161-162 | a stored std of 0 is replaced by 1; any other std is kept |
| ClusteringModel.Standardize | lib/screening/clustering_model.rb:163 | the z-score maps back to the raw value (z * std + mean) |
| ClusteringModel.BuildVector | lib/screening/clustering_model.rb:144-166 | one dimension per listed feature, each the standardised unscaled value |
| ClusteringModel.SqDist | lib/screening/clustering_model.rb:181-188 | a squared distance is never negative |
| ClusteringModel.SqDistSelf | lib/screening/clustering_model.rb:181-188 | a vector is at distance 0 from itself |
| ClusteringModel.NearestCentroid | lib/screening/clustering_model.rb:168-179 | the index of a minimal-distance centroid, with the first index winning ties; index 0 and no distance for an empty list |
| ClusteringModel.ConfidenceFor | lib/screening/clustering_model.rb:190-206 | the purity ladder, never ranked above the base; low coverage forces low for follow-up and demotes only high otherwise |
| ClusteringModel.ConfidenceMonotoneInPurity | lib/screening/clustering_model.rb:190-206 | more purity never lowers confidence |
| ClusteringModel.ConfidenceMonotoneInCoverage | lib/screening/clustering_model.rb:190-206 | more coverage never lowers confidence |
| ClusteringModel.Score | lib/screening/clustering_model.rb:14-73 | nil without a model file; a parse failure or missing key becomes an error result; otherwise the derived feature values, the nearest centroid to their standardised vector and its distance, the cluster's hint defaulting to normal, its status (derived from the hint when unmapped), its purity (0 when unmapped), the coverage and the derived confidence |
| Reconcile.ParseFormFloat | server.rb:114-120 | an absent form field is nil; a present one is parsed as an optional float |
| Reconcile.Kept | server.rb:360-365 | the hash keeps exactly the candidates that have a value, under their names |
| Reconcile.OrthoOverride | server.rb:360-371 | the override is absent iff no form value parsed, else the hash of the kept values |
| Reconcile.ReadBack | server.rb:365 | each kept value reads back under its own name, and a missing one reads nil |
| Reconcile.FormReadsBack | server.rb:360-371 | every form value, the two deltas included, reads back from the override under its feature name |
| Reconcile.ScorerDelta | lib/screening/clustering_model.rb:103-108 | the scorer's heart-rate delta agrees with the one stored in a consistent hash |
| Reconcile.FormDeltaReachesScorer | server.rb:366-371 | the scorer handed the form's hash sees stand - sit heart rate when both parsed, nil otherwise |
| Reconcile.QuickCheckOf | server.rb:135-168 | the quick-check cascade in priority order: POTS-like on a 30-beat rise without a 20 mmHg SBP drop, then OH-like on the drop, then IST-like on resting HR >= 90 |
| Reconcile.Calibrate | server.rb:122-171 | error results and results below 0.8 coverage are unchanged; a firing rule sets needs_followup, medium and its hint; nothing else changes |
| Reconcile.CalibrateIdempotent | server.rb:122-171 | calibrating twice equals calibrating once |
| Reconcile.CalibrationCanLowerConfidence | server.rb:147-150 | a high-confidence result with a 25 mmHg SBP drop leaves calibration at medium |
| Reconcile.Normalize | server.rb:173-196 | normal implies (normal, high, a reason); needs_followup with an empty or normal hint gets unspecified with low confidence if empty; other statuses are untouched; only hint, confidence and reason change |
| Reconcile.NormalizeIdempotent | server.rb:173-196 | normalising twice equals normalising once |
| Reconcile.WithClusterSignal | server.rb:251-259 | afterwards exactly one cluster follow-up signal exists; an existing one is kept as is |
| Reconcile.Upgrade | server.rb:235-273 | a normal screening is upgraded to the model's hint (or unspecified), confidence and questionnaire with the cluster signal; a non-normal one keeps status, raises confidence to the max rank and fills a generic hint; data, stats and notes are untouched |
| Reconcile.VerdictNote | server.rb:274-278 | no verdict note on an upgrade, a low-confidence note for a weak follow-up verdict, an aligned-normal note otherwise |
| Reconcile.Merge | server.rb:207-281 | nil is a no-op; the calibrated result is stored; an error only adds a note; an upgrading verdict gives Upgrade of the screening with the merged notes; any other verdict only stores the result and notes; a non-normal status is kept with no lower confidence; old notes are kept |
| Reconcile.MergeNotes | server.rb:227-228 | the cluster reason is added to the notes, which stay duplicate-free and keep every old note |
| Reconcile.MergeUpgradeMayLowerConfidence | server.rb:236-239 | a normal/high screening upgraded by a medium model verdict ends at medium confidence |
| Reconcile.QuestionById | server.rb:457-463 | an empty id finds nothing; otherwise the last question with that id, or nothing if none has it |
| Reconcile.Sanitize | server.rb:465-479 | the sanitised pairs keep exactly the valid submissions, each with its question's prompt, and only submitted pairs; a single pair gives its SanitizedPair |
| Reconcile.SanitizedPair | server.rb:467-478 | a pair gives one answer with its question's prompt iff it names a stored question and one of its options, and nothing otherwise |
| Reconcile.SanitizeAppend | server.rb:465-479 | sanitising two batches gives the first batch's kept answers followed by the second's, so kept answers stay in submitted order |
| Reconcile.ImportScreening | server.rb:379-410 | fails exactly on a nil or empty series; the screener and the scorer read the same imported data, the scorer with the form override; status follows the merge, the stored model result is the calibrated score, statistics and BP presence are the screener's; the result is normalised; without a model file no cluster result is attached |
| Reconcile.WithOrtho | server.rb:379 | the form's override, when present, replaces the stored orthostatic input; the daily series and age are untouched |
| Reconcile.SubmitAnswers | server.rb:486-488 | the assessment is stored, the screening is normalised, and the status is kept or moved from needs_followup to normal |
| Reconcile.RevertEndsHigh | server.rb:486-488 | a survey revert writes medium confidence, but the endpoint returns normal with high confidence |
| SurveyLabeling.RulesAreConsistent | lib/screening/survey_labeling.rb:5-43 | no vote table lists an answer both for and against a hint |
| SurveyLabeling.NormalizedHint | lib/screening/survey_labeling.rb:193-197 | an empty hint becomes unspecified; any other hint is kept |
| SurveyLabeling.Lookup | lib/screening/survey_labeling.rb:188 | a lookup finds a value iff some entry has the id, and with distinct ids it is that entry's value |
| SurveyLabeling.Put | lib/screening/survey_labeling.rb:181 | assigning a key makes it read back the new answer, leaves other keys alone, and keeps ids distinct |
| SurveyLabeling.AnswerMapOf | lib/screening/survey_labeling.rb:165-184 | the answer map has distinct ids, no more entries than items, and only non-empty ids and answers |
| SurveyLabeling.AnswerMapIsLastAnswer | lib/screening/survey_labeling.rb:174-181 | each id maps to the last non-empty, stripped and lowered answer given for it |
| SurveyLabeling.TallyOf | lib/screening/survey_labeling.rb:119-131 | support and against count the answers voting for and against the hint, informative counts the answers with a rule, support + against <= informative <= answered, and no rule gives an empty tally |
| SurveyLabeling.VoteOf | lib/screening/survey_labeling.rb:119-131 | an answer has no vote iff its question has no rule for the hint |
| SurveyLabeling.SupportScore | lib/screening/survey_labeling.rb:134 | the score lies in [-1, 1], is 0 with no informative answer, is never positive without a supporting vote nor negative without a contrary one |
| SurveyLabeling.SevereRedFlag | lib/screening/survey_labeling.rb:186-191 | holds iff presyncope is faint or fainting is once or multiple |
| SurveyLabeling.AlignmentFor | lib/screening/survey_labeling.rb:135-144 | inconclusive iff fewer than 2 informative answers; supports on a red flag or score >= 0.35; does-not-support only without a red flag at score <= -0.25; mixed in between |
| SurveyLabeling.AlignmentMonotone | lib/screening/survey_labeling.rb:135-144 | a higher score never weakens support and a lower one never weakens rejection |
| SurveyLabeling.Assess | lib/screening/survey_labeling.rb:111-158 | the counts are the tally's, the stored score is the tally's score rounded to three places, the alignment is AlignmentFor of the count, red flag and score, and the red flag is the answers' red flag |
| SurveyLabeling.Promote | lib/screening/survey_labeling.rb:207-213 | promotion never lowers confidence, strictly raises anything but high, and never yields low or empty |
| SurveyLabeling.Demote | lib/screening/survey_labeling.rb:215-222 | high demotes to medium and every other value, unknown included, to low; a known rank above low drops by one |
| SurveyLabeling.PromoteDemote | lib/screening/survey_labeling.rb:207-222 | promotion undoes demotion from medium or high |
| SurveyLabeling.AppendNote | lib/screening/survey_labeling.rb:233-239 | the notes afterwards are duplicate-free and contain exactly the old notes and the new one |
| SurveyLabeling.Relabel | lib/screening/survey_labeling.rb:63-92 | supports promotes; does-not-support reverts to normal only without a red flag at rank <= 2 and otherwise demotes; mixed demotes only at rank >= 2; inconclusive changes no confidence |
| SurveyLabeling.FollowUp | lib/screening/survey_labeling.rb:63-106 | after the transition a follow-up screening gets the questionnaire for its hint, and a reverted one gets the normal set |
| SurveyLabeling.Apply | lib/screening/survey_labeling.rb:50-109 | the assessment is stored and its summary noted; a screening not in follow-up changes nothing else; signals, stats and model result are kept |
| SurveyLabeling.RepeatedSupportPromotesTwice | lib/screening/survey_labeling.rb:64-65 | supporting answers applied twice move low to medium, then to high |
| KMeans.RandIndex | scripts/train_clustering_baseline.rb:104 | `rand(n)` is an index below n |
| KMeans.RandBelow | scripts/train_clustering_baseline.rb:117 | one draw gives an index below n and advances the generator by one |
| KMeans.ChooseWeightedIndex | scripts/train_clustering_baseline.rb:102-113 | the index is in range; uniform when the total weight is at most EPS, else the first index whose running sum reaches the threshold |
| KMeans.ChosenWeightIsPositive | scripts/train_clustering_baseline.rb:106-111 | with a positive draw, the chosen weight is positive |
| KMeans.PositiveDistanceIsNewCentre | scripts/train_clustering_baseline.rb:120-122 | a vector at positive distance from every centroid is not one of them |
| KMeans.NearestDistances | scripts/train_clustering_baseline.rb:120 | one distance per vector, each the least squared distance from that vector to any centre and attained by one of them |
| KMeans.NearestDistance | scripts/train_clustering_baseline.rb:120 | the distance to the nearest centre is no greater than the distance to any centre and equal to one of them |
| KMeans.NextCentre | scripts/train_clustering_baseline.rb:119-123 | the next centre is an input vector and, when the data is spread, a new one |
| KMeans.InitKMeansPlusPlus | scripts/train_clustering_baseline.rb:115-125 | exactly k centres, each an input vector, one draw each |
| KMeans.Assign | scripts/train_clustering_baseline.rb:137-145 | each vector goes to a nearest centroid, the first among ties |
| KMeans.Inertia | scripts/train_clustering_baseline.rb:165-167 | inertia is non-negative |
| KMeans.AssignMinimisesInertia | scripts/train_clustering_baseline.rb:137-167 | the nearest-centroid assignment has inertia no greater than any other assignment |
| KMeans.Members | scripts/train_clustering_baseline.rb:150-152 | exactly the indices assigned to the cluster, strictly increasing |
| KMeans.MeanCoordinate | scripts/train_clustering_baseline.rb:160 | a coordinate mean lies between its minimum and maximum |
| KMeans.MeanCentroid | scripts/train_clustering_baseline.rb:147-160 | each coordinate of the new centre is the members' mean |
| KMeans.UpdateCentroids | scripts/train_clustering_baseline.rb:147-162 | a non-empty cluster moves to its members' mean; an empty one is reseeded with an input vector |
| KMeans.Restart | scripts/train_clustering_baseline.rb:132-169 | k centres, assignments in range, inertia matching the assignments, and a converged run is a fixed point of assignment |
| KMeans.RunKMeans | scripts/train_clustering_baseline.rb:127-174 | one inertia per restart; the kept restart has minimal inertia, the first winning ties; none when there are no restarts |
| Training.Compact | scripts/train_clustering_baseline.rb:58 | dropping nils leaves nothing iff every value was nil; a single value is kept iff present |
| Training.CompactAppend | scripts/train_clustering_baseline.rb:58 | compacting two lists gives the first's values followed by the second's, so with the single-value case every present value is kept in order |
| Training.Median | scripts/train_clustering_baseline.rb:57-66 | nil iff there are no values; otherwise within the values' range |
| Training.MiddleIsPercentile50 | scripts/train_clustering_baseline.rb:60-65 | the middle element, or the mean of the two middle ones, is the interpolated 50th percentile |
| Training.MedianIsPercentile50 | scripts/train_clustering_baseline.rb:57-66 | the training median equals the screener's 50th percentile of the sorted values |
| Training.MeanOrZero | scripts/train_clustering_baseline.rb:68-71 | 0 for no values, otherwise within their range |
| Training.Stddev | scripts/train_clustering_baseline.rb:73-78 | always positive; 1 for no values or when the root is at most EPS, else the root of the variance |
| Training.SafeDiv | scripts/train_clustering_baseline.rb:180-183 | nil iff the denominator is 0; a fraction of a part lies in [0, 1] |
| Training.Tally | scripts/train_clustering_baseline.rb:185-203 | tp + fp + tn + fn is the row count; tp + fn counts actual follow-ups and tp + fp predicted ones |
| Training.TallyCountsCells | scripts/train_clustering_baseline.rb:191-203 | tp is the number of rows both actually and predicted follow-up, fp only predicted, fn only actual, tn neither |
| Training.HarmonicMeanBetween | scripts/train_clustering_baseline.rb:210 | F1 lies between precision and recall |
| Training.F1 | scripts/train_clustering_baseline.rb:207-211 | nil iff precision or recall is nil or they sum to 0; otherwise within [0, 1] |
| Training.Binary | scripts/train_clustering_baseline.rb:185-221 | the confusion is Tally's; precision = tp/(tp+fp), recall = tp/(tp+fn), accuracy = (tp+tn)/n and F1 of the two, each nil exactly when its denominator is 0 and in [0, 1] otherwise |
| Training.Occurrences | scripts/train_clustering_baseline.rb:233 | a label occurs iff it is in the list |
| Training.OccurrencesIsMultiplicity | scripts/train_clustering_baseline.rb:233 | the count of a label is its multiplicity in the list |
| Training.CorrectIn | scripts/train_clustering_baseline.rb:235 | a class never has more correct predictions than occurrences |
| Training.CorrectInCountsHits | scripts/train_clustering_baseline.rb:235 | the correct count of a class is the number of rows whose actual and predicted labels both equal it |
| Training.ClassStats | scripts/train_clustering_baseline.rb:230-236 | one entry per distinct actual label, with its positive count |
| Training.Recalls | scripts/train_clustering_baseline.rb:238-239 | one recall per class, under its name: the class's correct count over its count, nil iff the count is 0, otherwise in [0, 1] |
| Training.Phenotype | scripts/train_clustering_baseline.rb:223-247 | exact accuracy is correct/total (nil iff no rows); support and predicted count each actual and predicted label; recall is correct-in-class over support for every actual label |
| Training.CountCorrectCountsMatches | scripts/train_clustering_baseline.rb:225 | `correct` is the number of rows whose target equals their prediction |
| Training.ImputedValues | scripts/train_clustering_baseline.rb:260-264 | each continuous value is the row's value or the training median |
| Training.Indicators | scripts/train_clustering_baseline.rb:265-267 | each of the eight indicators is 1 iff its feature is missing |
| Training.UnscaledRow | scripts/train_clustering_baseline.rb:260-269 | nine imputed continuous values followed by eight missing-value indicators |
| Training.Medians | scripts/train_clustering_baseline.rb:254-258 | one median per continuous feature, 0 when the feature has no value |
| Training.ComputePreprocess | scripts/train_clustering_baseline.rb:253-282 | the vectors are the unscaled rows; means and stds are per dimension, with every std positive |
| Training.StandardizeRow | scripts/train_clustering_baseline.rb:418-420 | the z-scored row maps back to the raw row |
| Training.TransformRows | scripts/train_clustering_baseline.rb:284-296 | each row is imputed with the training medians and z-scored with the training means and stds |
| Training.TrainingVectorsAreTransformed | scripts/train_clustering_baseline.rb:417-420 | standardising the training vectors equals transforming the training rows |
| Training.IndicatorFeatures | scripts/train_clustering_baseline.rb:41 | there are eight indicator features |
| Training.IndicatorsAreNotContinuous | scripts/train_clustering_baseline.rb:29-41 | no indicator name is a continuous-feature name |
| Training.ContinuousFeaturesDistinct | scripts/train_clustering_baseline.rb:29-39 | the continuous-feature names are distinct |
| Training.ScorerMatchesTransform | scripts/train_clustering_baseline.rb:284-296 | the online scorer, given the trained artifact, builds the same vector as training's transform |
| Training.StrLessTotal | scripts/train_clustering_baseline.rb:334 | the label order used to break ties is total |
| Training.StrLessTransitive | scripts/train_clustering_baseline.rb:334 | the label order used to break ties is transitive |
| Training.ClusterOf | scripts/train_clustering_baseline.rb:301 | a row's cluster is below k |
| Training.LabelsIn | scripts/train_clustering_baseline.rb:299-304 | exactly the labels of the rows assigned to the cluster; a single row contributes its label iff it is in the cluster |
| Training.LabelsInAppend | scripts/train_clustering_baseline.rb:299-304 | the labels of two batches of rows are the first batch's followed by the second's, so every row of the cluster contributes its label once, in row order |
| Training.ClustersPartitionRows | scripts/train_clustering_baseline.rb:299-304 | the cluster sizes add up to the row count |
| Training.Dominant | scripts/train_clustering_baseline.rb:334 | the chosen label is a candidate beating all others by count, then alphabetically |
| Training.NonNormal | scripts/train_clustering_baseline.rb:330 | exactly the member labels other than normal |
| Training.MapCluster | scripts/train_clustering_baseline.rb:311-343 | empty gives (normal, normal, 0, 0); follow-up iff the rate reaches the threshold; a normal status has the normal hint; otherwise the dominant non-normal label, or unspecified |
| Training.MapClustersToHints | scripts/train_clustering_baseline.rb:298-353 | one consistent mapping per cluster |
| Training.StatusFromHint | scripts/train_clustering_baseline.rb:176-178 | the status is normal iff the hint is |
| Training.PredictOne | scripts/train_clustering_baseline.rb:361-369 | the prediction takes the nearest cluster's hint and status, normal for an unmapped cluster |
| Training.Predict | scripts/train_clustering_baseline.rb:355-383 | one prediction per vector, each at a minimal-distance centroid |
| Training.PredictRows | scripts/train_clustering_baseline.rb:355-383 | binary metrics are scored on predicted statuses and phenotype metrics on predicted hints |
| Training.Fit | scripts/train_clustering_baseline.rb:417-452 | one test prediction per test row, from the trained centroids and mapping |
| Training.Train | scripts/train_clustering_baseline.rb:412-452 | aborts when there are fewer train rows than K; otherwise the whole pipeline holds |
| TrainingTable.Squash | scripts/build_training_table.rb:27 | only kept characters and single spaces remain, and the result ends in a space iff the input ends in another character |
| TrainingTable.SquashKeepsKept | scripts/build_training_table.rb:27 | a text of lowercase letters and digits is unchanged |
| TrainingTable.SquashCollapsesRun | scripts/build_training_table.rb:27 | a non-empty run of other characters becomes one space |
| TrainingTable.SquashAppend | scripts/build_training_table.rb:27 | squashing splits over any cut not inside a run of other characters, so with the two cases above every run becomes one space and the kept characters survive in order |
| TrainingTable.NormalizeName | scripts/build_training_table.rb:26-28 | the result has only lowercase letters, digits and single inner spaces |
| TrainingTable.NormalizeIdempotent | scripts/build_training_table.rb:26-28 | normalising twice equals normalising once |
| TrainingTable.ExactIsPartial | scripts/build_training_table.rb:34-39 | an exact match is also a partial match |
| TrainingTable.FirstExact | scripts/build_training_table.rb:34 | the first header matching a candidate exactly, or none |
| TrainingTable.FirstPartial | scripts/build_training_table.rb:39 | the first header containing or contained in a candidate, or none |
| TrainingTable.ExactPass | scripts/build_training_table.rb:32-36 | the exact pass finds a header iff some candidate matches some header exactly |
| TrainingTable.ExactPassPriority | scripts/build_training_table.rb:32-36 | the exact pass returns the first header matching the earliest candidate that has an exact match |
| TrainingTable.PartialPass | scripts/build_training_table.rb:37-41 | the partial pass finds a header iff some candidate partially matches some header |
| TrainingTable.PartialPassPriority | scripts/build_training_table.rb:37-41 | the partial pass returns the first header matching the earliest candidate that has a partial match |
| TrainingTable.FindHeader | scripts/build_training_table.rb:30-43 | an exact match is returned whenever one exists; the result is a header matching some candidate; nil only when nothing matches |
| TrainingTable.FindHeaderPrefersExact | scripts/build_training_table.rb:30-36 | the first header of the earliest candidate with an exact match wins |
| TrainingTable.FindHeaderFallsBackToPartial | scripts/build_training_table.rb:30-41 | with no exact match anywhere, the first header of the earliest candidate with a partial match wins |
| TrainingTable.ExactFoundIsPartial | scripts/build_training_table.rb:30-43 | an exact match rules out the nil answer |
| TrainingTable.PhenotypeFor | scripts/build_training_table.rb:57-115 | the cascade OH > VVS > POTS > IST > normal, with each branch's confidence; status normal iff hint normal; control group iff high |
| TrainingTable.SbpDropOverridesEverything | scripts/build_training_table.rb:66-74 | a 20 mmHg SBP drop labels OH-like whatever else holds |
| TrainingTable.Delta | scripts/build_training_table.rb:179-180 | a delta exists iff both halves do, and is stand - sit within rounding |
| TrainingTable.LocateColumns | scripts/build_training_table.rb:123-134 | each of the twelve columns is looked up with its own candidate names |
| TrainingTable.MissingRequired | scripts/build_training_table.rb:136-138 | subject and group are reported missing exactly when they were not found |
| TrainingTable.RequireColumns | scripts/build_training_table.rb:136-139 | fails iff a required column is missing, listing what is missing |
| TrainingTable.BuildRow | scripts/build_training_table.rb:166-236 | a row is skipped exactly for a blank subject or group; a kept row is labelled by the cascade |
| TrainingTable.BuildTable | scripts/build_training_table.rb:166-236 | kept rows plus skipped rows equal the input rows |
| TrainingTable.NothingSkipped | scripts/build_training_table.rb:168-172 | when every record has a subject and a group, every record becomes a row |
| TrainingTable.TableRowsLabelled | scripts/build_training_table.rb:202-235 | every output row carries a consistent label |
| SplitTable.Adjust | scripts/split_training_table.rb:45-49 | the three counts add up to n, train is kept, and val is cut only on a shortfall |
| SplitTable.RoundedShareBounds | scripts/split_training_table.rb:43-44 | a rounded share of n lies in [0, n] |
| SplitTable.SplitCounts | scripts/split_training_table.rb:42-50 | the counts add up to n, each share within 0.5 of its ratio |
| SplitTable.NoShortfall | scripts/split_training_table.rb:43-49 | the 0.70/0.15 shares never overshoot, so the shortfall branch never runs |
| SplitTable.Slice | scripts/split_training_table.rb:51-53 | `s[start, len]` is the clipped slice, empty past the end |
| SplitTable.SplitGroup | scripts/split_training_table.rb:51-53 | train, val and test concatenate back to the shuffled group, with the computed sizes |
| SplitTable.GroupOf | scripts/split_training_table.rb:34 | a group holds exactly the rows with that label |
| SplitTable.GroupLabels | scripts/split_training_table.rb:33-34 | each label occurs once among the groups |
| SplitTable.GroupOfSnoc | scripts/split_training_table.rb:34 | adding a row grows only its own label's group |
| SplitTable.GroupsCoverRows | scripts/split_training_table.rb:33-34 | the groups together hold exactly the rows (multiset) |
| SplitTable.SplitGroups | scripts/split_training_table.rb:40-54 | the three splits together hold exactly the groups' rows |
| SplitTable.ShufflesKeepRows | scripts/split_training_table.rb:40-41 | shuffling the groups keeps their rows |
| SplitTable.SplitTable | scripts/split_training_table.rb:26-54 | fails iff the label column is missing; otherwise every row lands in exactly one split |
| SplitTable.LabelCountsSumToSize | scripts/split_training_table.rb:80-83 | the per-label counts of a split add up to its size |
| HealthInsights.MinutesScore | HeartWavesUIReact/src/utils/healthInsights.ts:32-39 | a minutes score lies in [0, 100] and is 100 from 30 minutes on |
| HealthInsights.NormalizeScore | HeartWavesUIReact/src/utils/healthInsights.ts:19-43 | every score lies in [0, 100] for a non-negative input; heart-rate scores always do |
| HealthInsights.RestingScoreNonIncreasing | HeartWavesUIReact/src/utils/healthInsights.ts:24-27 | a higher resting HR never scores higher |
| HealthInsights.VariabilityScoreNonDecreasing | HeartWavesUIReact/src/utils/healthInsights.ts:28-31 | a higher HRV never scores lower |
| HealthInsights.MinutesScoreNonDecreasing | HeartWavesUIReact/src/utils/healthInsights.ts:32-39 | more minutes never score lower |
| HealthInsights.ValueOn | HeartWavesUIReact/src/utils/healthInsights.ts:58-61 | the value of the first entry on the date, 0 when there is none |
| HealthInsights.CompositeScore | HeartWavesUIReact/src/utils/healthInsights.ts:68-70 | the composite is within 0.5 of the mean of the four scores (a tie rounding up) and between the least and greatest of them |
| HealthInsights.CompositeFor | HeartWavesUIReact/src/utils/healthInsights.ts:57-79 | the day's metrics and their scores, and a composite within 0.5 of the scores' mean; the composite is in [0, 100] when the stand and active values are non-negative |
| HealthInsights.DailyComposites | HeartWavesUIReact/src/utils/healthInsights.ts:55-81 | one composite per resting-HR date, in order |
| HealthInsights.Trend | HeartWavesUIReact/src/utils/healthInsights.ts:83-95 | stable with 0 below two values or for a zero early mean; stable iff under 3 % in magnitude, otherwise up iff positive |
| HealthInsights.TrendIgnoresMiddle | HeartWavesUIReact/src/utils/healthInsights.ts:85-86 | the middle value of an odd-length list has no effect on the trend |
| HealthInsights.ExtremeIndex | HeartWavesUIReact/src/utils/healthInsights.ts:139-144 | the first index of the minimum (or maximum) |
| HealthInsights.ExtremeDay | HeartWavesUIReact/src/utils/healthInsights.ts:145-150 | the first day holding the extreme value (no earlier day holds it), or an empty day for an empty series |
| HealthInsights.TipFor | HeartWavesUIReact/src/utils/healthInsights.ts:155-207 | each metric's tip cascade in its own order; the "good" tips quote the best day |
| HealthInsights.InsightFor | HeartWavesUIReact/src/utils/healthInsights.ts:130-221 | trend, baseline, recent mean, best and worst day (reversed for resting HR) and tip for one metric |
| HealthInsights.MetricInsights | HeartWavesUIReact/src/utils/healthInsights.ts:97-130 | exactly four insights in the order resting HR, HRV, stand, active |
| HealthInsights.RestingBestIsLowest | HeartWavesUIReact/src/utils/healthInsights.ts:139-141 | the best resting-HR day has the lowest value |
| HealthInsights.CrossMetric | HeartWavesUIReact/src/utils/healthInsights.ts:224-236 | no message iff fewer than 3 days; otherwise the activity/HR message iff a low-activity day has above-average HR, else by the composite trend |

## Left out

- Input and output: the HTTP server and its routing, multipart uploads, session files, the report endpoint, the CSV and JSON reading and writing of the scripts, and the prediction CSV writer.
- The Apple Health import (`lib/apple_health/import.rb`), the Gemini client (`lib/llm/gemini.rb`) and its merge block (server.rb:388-408). The import pipeline is modelled as if no language model is configured.
- Front-end code other than `healthInsights.ts`, the iOS app and the PDF generator: these are DOM, React, SwiftUI, HealthKit and network code.
- Floating point: Ruby and JavaScript floats are modelled as exact reals, so NaN, infinity and rounding error are not modelled. A non-finite reading is dropped by `value_for`, as in the source.
- ClusteringModel.Score: its mean of daily readings also drops non-finite values, where the source would carry a NaN or infinity into the vector.
- SplitTable.SplitCounts: shares are rounded exactly on reals. In floats `45 * 0.7` is 31.499999999999996, which rounds to 31, while the exact 31.5 rounds to 32.
- Numbers.ParseFloat: Ruby's `Float()` also accepts spellings outside `[+-]digits[.digits][(e|E)[+-]digits]`, among them underscores between digits (`1_000`) and hexadecimal (`0x1A`). The model rejects them as nil.
- Numbers.ParseUnsignedDecimal: rejects underscores between digits, which Ruby's `Float()` accepts.
- Numbers.ParseUnsignedFloat: rejects underscores and hexadecimal, which Ruby's `Float()` accepts.
- Display rounding (`round(1)`, `round(4)`, `round(6)`, `toFixed`) is ignored. The one exception is the stored survey score (`round(3)`).
- Reconcile.Calibrate: compares the unrounded coverage with 0.8, where the source compares the coverage rounded to four places.
- Message wording: reasons, summaries, tip reasons and the cross-metric sentences are constructors, not strings.
- Case mapping and whitespace follow ASCII. Unicode case folding is not modelled.
- Randomness: `Random.new(seed)`, `rand` and `shuffle` become a draw sequence passed in as a parameter, and the shuffled groups of the split are given as inputs. Properties hold for every draw sequence; seeded reproducibility is not modelled.
- Training.Stddev: `Math.sqrt` is a function parameter. Only the EPS fallback and the call on the variance are stated, because no square-root axioms are available.
- The ordering of the summary hashes (`counts.sort.to_h`) and of the training report is not modelled.
- SplitTable.LabelCountsSumToSize: states the counts only, not their key order.
- KMeans.RunKMeans: with N_INIT = 0 the source returns nil and the training script then fails on it. With K = 0 the update step indexes an empty count array. The model returns no result for N_INIT = 0, and Training.Train reports failure for either.
- HealthInsights.NormalizeScore: the default branch (score 50) is unreachable with the four metric constructors, so it is not modelled.
- TrainingTable.RequireColumns: takes the located columns, not the raw header list. Only the two required columns are checked, as in the source.
- The Ruby symbol/string key duality of the screening hash is a typed record. A status, hint or confidence string outside the known values is not modelled, apart from the empty string and an unknown status.
- The React `reconcileScreeningProfile` copies of the normalisation are not modelled; Reconcile.Normalize models the server version.
