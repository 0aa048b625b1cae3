# A Dafny model of Proxeus

Proxeus answers PromQL queries from several backends as if they were one store.  This project models the parts that
decide whether the answer is right, and proves that it is:

- **Sample merging.** `GapFill`, `GapFillTheory`, `FillExactness`, `PriorityMerge` and `Intervals` cover the priority
  gap filling with its recursive, shared-cursor walk; `AntiAffinity` and `HaMerge` the anti-affinity merge of replicas
  and its n-way fold; `SeriesConversion` the conversions around them.
- **Fan-out.** `FanOut` covers the collection of answers in arrival order with early abort, partial responses and
  cancellation, for all arrival orders and cancellation points.
- **Cross-group dedup.** `Dedup` is what both implementations compute, `CollisionStats` and `Attribution` whom a
  collision is charged to, `CrossGroupDedup` the query path's loop, `MetadataDedup` the metadata path's loop and their
  agreement.
- **Pushdown.** `PromQL` gives a fragment of the language its meaning, `FilterMatchers` selection through stamped
  labels, `Aggregation` two-step aggregation, `LocalQueries` and `Fetching` what groups answer and what the merge hook
  makes of it, `Pushdown` the rewriter with its guards, `PushdownTheorem` that rewriting preserves meaning,
  `TopkPushdown` the same for one topk or bottomk, `PushdownChoices` for expressions with these anywhere,
  `PushdownReach` what is sent down, `PushdownLimits` when the hypotheses hold and what goes wrong without the guards.
  `DeclinedPushdown` is about the shared syntax tree that the rewriter changes before it knows whether it can answer,
  `StaleFill` about reading a pushed-down range call back, `RequestShift` about the times at which it is asked and read.
- **Supporting parts.** `RangeTruncation` (time filters and step alignment), `VmExport` (regrouping of exported lines),
  `QueryStats` (the per-query recorder), `Sorting` and `Wrappers`.

Loops and objects that change in place are methods and classes proved against functions or predicates; the theorems are
lemmas about those.  `dafny verify dfyconfig.toml` checks everything.

## Findings

- `pkg/promclient/cross_group_dedup.go:23-24` says that which series wins does not depend on the order of the sets.  An
  exact repetition of the winner's labels from a lower ordinal is skipped, so out of order the higher ordinal keeps the
  bucket (`Dedup.OwnerCanBeHigher`).  `Dedup.OwnershipExact` tells from the inputs exactly when the lowest ordinal owns
  every bucket throughout, and `Dedup.FinalOwnershipExact` exactly when it owns every bucket that is returned, which also
  happens when a later series makes up for a skipped one; that condition follows the run.
- `pkg/promclient/label.go:63-65` says that the metadata path attributes collisions to the exact winner and loser
  regardless of input order.  It charges the winner of the moment, so ordinals 2, 1, 0 leave a collision with 1 although 0
  wins (`Attribution.LateWinMisattributes`).  `Attribution.AttributionExact`: the attribution is exact if and only if no
  winner is replaced after it already has a loser, as when ordinals ascend.
- `pkg/promhttputil/merge.go:315-320` never compares the first sample of the longer stream with the other stream's when
  nothing precedes it, also with the larger value preferred (`AntiAffinity.FirstNotCompared`);
  `AntiAffinity.AllComparedExactly` says exactly when all samples come out compared.
- `pkg/promclient/multi_api.go:244-247, 386-388`: with no backend configured the partial mode finds nothing required
  missing an error to wrap, and a call succeeds with no answer; `FanOut.PartialSafety` therefore speaks of at least one
  backend.
- `pkg/promclient/filtermatcher.go:74-81` replaces a selector that lost all its matchers by one "that does the same"; it
  drops series without a metric name (`FilterMatchers.NamelessMissed`; `FilterMatchers.FilterExact` gives the exact
  condition).
- The gap filler's seam is exact for gaps up to two grid steps and no further (`GapFillTheory.SeamNeedsSmallGap`).
- `count_values` with a group's external label as its value label is pushed down, and groups' own values overwrite the
  counted ones (`PushdownLimits.ExternalValueLabel`).  For a single group `PushdownTheorem.CountValuesExact` says exactly
  for which data this is wrong; `Aggregation.ValueLabelRule` says exactly which value labels are right for all data.
- A pushed-down query that is no aggregation loses series exactly when its answer holds two that differ in ignored labels
  only (`PushdownLimits.SharedSeriesDropped`; `Fetching.FetchRawExact` gives the exact condition).
- Beyond the bound of `pkg/proxystorage/proxy.go:498-503` a range answer is not filled, and an earlier value can be read
  at an empty step (`StaleFill.UnfilledBleeds`); `StaleFill.ReadBackExactly` says exactly when.

## Model

| member | source | states |
|---|---|---|
| GapFill.FillGaps | pkg/promhttputil/gap_fill.go:139-192 | the recursion over one shared array of cursors emits what a fill that rescans every stream on every call emits, for all sorted inputs and depths; counts what each filler gave; no cursor moves back, and the elements passed over the whole recursion are exactly the distance the cursors travel |
| GapFill.TakeSample | pkg/promhttputil/gap_fill.go:160-185 | one iteration keeps the scan's invariant: what was emitted plus what a rescan would still emit is the whole |
| GapFill.FillBetween | pkg/promhttputil/gap_fill.go:166-168 | the span before a sample is passed to the next level exactly when it is a gap |
| GapFill.TimelineOf | pkg/promhttputil/gap_fill.go:63-76 | the timeline holds the stream's floats and histograms unchanged, by time, floats first |
| PriorityMerge.TimelineUnique | pkg/promhttputil/gap_fill.go:38-46 | a timeline is determined by its floats and histograms, so splitting the result and running timeline again gives it back |
| PriorityMerge.PriorityMergeSampleStream | pkg/promhttputil/gap_fill.go:23-47 | the result is the fill of the streams' timelines with a gap of at least 1, the statistics count the fillers' real samples in it, and at most as many elements are passed as there are |
| PriorityMerge.Split | pkg/promhttputil/gap_fill.go:38-46 | the merged timeline is split by kind in order |
| GapFillTheory.FillShape | pkg/promhttputil/gap_fill.go:112-135 | every emitted sample is one of its stream's, clear of both bounds by the margin; samples of one source stay in order, samples of different sources are more than floor(gap/4) apart |
| GapFillTheory.BaseKept | pkg/promhttputil/gap_fill.go:15-21 | all base samples are in the result, unchanged, once and in order |
| GapFillTheory.MergedOrdered | pkg/promhttputil/gap_fill.go:23-47 | the result is in timeline order |
| GapFillTheory.FillersOnlyInGaps | pkg/promhttputil/gap_fill.go:19-21 | a filler's sample in the result lies in a gap of the base, clear of its ends |
| GapFillTheory.NoIntrusion | pkg/promhttputil/gap_fill.go:130-135 | between two base samples closer than the gap, the earlier not stale, there is no filler sample |
| GapFillTheory.FirstFillerExact | pkg/promhttputil/gap_fill.go:139-192 | a real sample of the first filler is in the result if and only if it lies in a gap of the base |
| GapFillTheory.FillerMarkers | pkg/promhttputil/gap_fill.go:156-158 | a filler's stale marker in the result directly follows, in its stream, a kept real sample |
| GapFillTheory.SeamTheorem | pkg/promhttputil/gap_fill.go:112-135 | on one grid of spacing d with 0 < gap <= 2d and no stale samples, the result is the pointwise first available sample, for any number of fillers and any holes, and strictly increasing |
| GapFillTheory.SeamNeedsSmallGap | pkg/promhttputil/gap_fill.go:112-115 | for every d and every gap above 2d there are inputs for which the seam theorem fails |
| GapFillTheory.NothingNew | pkg/promhttputil/gap_fill.go:166-190 | fillers with no times of their own add nothing; so merging a base with itself returns the base |
| GapFillTheory.RefillIdempotent | pkg/promhttputil/gap_fill.go:116-192 | filling a one-filler result again from the same filler with the same gap changes nothing, stale markers included |
| FillExactness.FillReaches | pkg/promhttputil/gap_fill.go:139-192 | for every window, level and gap: a sample of any deeper level is emitted if and only if every stream above its own has a span that counts as a gap, each inside the one above, with the sample clear of the innermost ends, and, if it is a filler's marker, with a real sample right before it in the same innermost window; bounds, margin and keeping rule are written out |
| FillExactness.FillExact | pkg/promhttputil/gap_fill.go:11-47 | the whole result is exactly those samples, all of the base among them |
| FillExactness.FirstFillerWithMarkers | pkg/promhttputil/gap_fill.go:156-185 | in plain numbers: a real sample of the first filler is in the result if and only if it lies in a gap of the base, more than gap/4 from its ends; a marker if and only if the sample before it is real and both lie in the same gap |
| FillExactness.CountExact | pkg/promhttputil/gap_fill.go:178-183 | the statistics count exactly the real samples of a filler that gaps let through |
| PriorityMerge.MedianInterval | pkg/promhttputil/gap_fill.go:97-110 | the upper median of the positive intervals of the stream's timeline, or none |
| PriorityMerge.GapThreshold | pkg/promhttputil/gap_fill.go:78-95 | the override, else twice the base's median interval, else twice the first filler's, else 0 |
| PriorityMerge.ThresholdIsTwiceMedian | pkg/promhttputil/gap_fill.go:78-95 | without an override the threshold is twice the one interval that has at most half of the intervals below it and fewer than half above, taken from the hint only when the base has no interval |
| PriorityMerge.AutomaticSeam | pkg/promhttputil/gap_fill.go:78-115 | when most base intervals are single steps, the automatic threshold is two steps and the seam theorem applies |
| Intervals.MajorityIsMedian | pkg/promhttputil/gap_fill.go:97-110 | a smallest interval that more than half of the intervals have is the median |
| Intervals.MedianSplits | pkg/promhttputil/gap_fill.go:97-110 | the median is the only interval with at most half of the intervals below it and fewer than half above |
| Intervals.AllGaps | pkg/promhttputil/gap_fill.go:98-104 | of strictly increasing times the intervals are all differences, in order |
| SeriesConversion.SeriesToSampleStream | pkg/promclient/merge_seriesset.go:72-87 | each sample goes to the list of its kind, in order |
| SeriesConversion.SampleStreamToSeries | pkg/promclient/merge_seriesset.go:89-99 | the stable sort of floats before histograms is the stream's timeline |
| SeriesConversion.RoundTrip | pkg/promclient/merge_seriesset.go:72-99 | a series in timeline order survives both conversions |
| AntiAffinity.MergedUnique | pkg/promhttputil/merge.go:258-386 | the declarative description of a merge admits one result only |
| AntiAffinity.MergeFloatSamples | pkg/promhttputil/merge.go:258-386 | the result is, in strictly increasing time, all of the longer stream (the first on a tie; raised where the larger value is preferred) and exactly those samples of the shorter one more than buffer away from all of it |
| AntiAffinity.MergeHistogramSamples | pkg/promhttputil/merge.go:393-455 | the histogram merge has the same description |
| AntiAffinity.LoadBefore | pkg/promhttputil/merge.go:297-311 | the samples before the longer stream, and where the scan resumes |
| AntiAffinity.FillBetween | pkg/promhttputil/merge.go:322-336 | exactly the samples that fit between two neighbours are taken, and none is missed by resuming where the last scan stopped |
| AntiAffinity.TakeFloat | pkg/promhttputil/merge.go:338-370 | with the larger value preferred, a sample takes the other stream's first observation of its time when that is larger, although the search resumes at an offset |
| AntiAffinity.PreferMaxOnlyRaises | pkg/promhttputil/merge.go:341-370 | the merges of the same streams with and without preferring the larger value have equally many samples at the same times, no value lower, and every raised value observed close by |
| AntiAffinity.AllComparedExactly | pkg/promhttputil/merge.go:312-370 | every sample of the longer stream comes out compared with the other one if and only if the shorter stream starts more than buffer earlier or the first sample would not be raised |
| AntiAffinity.FirstNotCompared | pkg/promhttputil/merge.go:315-320 | two streams for which the larger first value is not taken |
| AntiAffinity.LargerTaken | pkg/promhttputil/merge.go:312-370 | in plain numbers: with the larger value preferred, every sample of the longer stream comes out at its time with the larger of its value and that of the other stream's first sample at that time or less than buffer away, the first sample only if the other stream starts more than buffer earlier |
| AntiAffinity.MergedTimes | pkg/promhttputil/merge.go:258-386 | in plain numbers: the merge has every time of the longer stream, every sample of the shorter one more than buffer from all of it, and nothing else; without the preference the longer stream is kept as it is |
| AntiAffinity.MergedExactly | pkg/promhttputil/merge.go:393-455 | a histogram merge has exactly the longer stream and the samples of the shorter one more than buffer from all of it |
| AntiAffinity.DynamicAntiAffinityFromTimes | pkg/promhttputil/merge.go:482-507 | half the median of the positive gaps, with those of the other stream when there are fewer than three, else none |
| AntiAffinity.BufferIsHalfMedian | pkg/promhttputil/merge.go:482-507 | the inferred buffer is half the interval that splits the intervals in half, and there is none below three intervals |
| HaMerge.UniformStaysUniform | pkg/promhttputil/merge.go:457-507 | with the inferred buffer a longer stream of at least four uniformly spaced samples gets no sample between its own |
| HaMerge.MergeSampleStream | pkg/promhttputil/merge.go:238-386 | fails exactly when the series differ, otherwise floats and histograms are merged with one effective buffer |
| HaMerge.DynamicBufferForStream | pkg/promhttputil/merge.go:515-530 | the buffer is inferred from floats, else from histograms, else left to the configured one |
| HaMerge.MergeIs | pkg/promhttputil/merge.go:258-386 | the loops' description and one expression, a weave of the longer stream and the far points of the other, are the same |
| HaMerge.FoldIncreasing | pkg/promclient/merge_seriesset.go:141-152 | folding n replicas with a fixed buffer keeps times strictly increasing |
| HaMerge.FoldLength | pkg/promclient/merge_seriesset.go:141-152 | the fold never has fewer samples than any replica |
| HaMerge.FoldOrigin | pkg/promclient/merge_seriesset.go:141-152 | every sample of the fold is some replica's |
| HaMerge.FoldCovers | pkg/promclient/merge_seriesset.go:141-152 | every replica's sample has one of the fold's at most (n - 1) * buffer away |
| HaMerge.FirstReplicaSuffices | pkg/promclient/merge_seriesset.go:141-152 | replicas no longer than the first, with every sample within buffer of one of its, add nothing: the fold is the first replica |
| HaMerge.MergeAntiAffinity | pkg/promclient/merge_seriesset.go:141-152 | the loop merges the series one after the other, in every mode; with a fixed buffer and no preference the result is the fold |
| HaMerge.FoldDetermined | pkg/promclient/merge_seriesset.go:141-152 | the series determine the result of merging them one after the other, in every mode |
| FanOut.CheckBuckets | pkg/promclient/multi_api.go:140-158 | the constructor accepts exactly the configurations in which every bucket has requiredCount members |
| FanOut.IsolateFingerprints | pkg/promclient/multi_api.go:218-228 | every backend gets a bucket of its own, none the bucket of backends without a key, so the configuration is valid exactly when no more than one answer is required |
| FanOut.Receive | pkg/promclient/multi_api.go:368-383 | one answer updates the counters, results and warnings (these also when it is the last) and aborts exactly when its bucket can no longer reach requiredCount |
| FanOut.GoingStep | pkg/promclient/multi_api.go:230-239 | an early abort means that the buckets cannot all be served whatever still comes; otherwise the invariant holds for the answers so far |
| FanOut.LoopStep | pkg/promclient/multi_api.go:368-383 | the loop aborts at an answer exactly when that answer is a failure whose bucket the backends still awaited cannot fill; then no quorum is left, otherwise the invariant goes on |
| FanOut.MissingRequired | pkg/promclient/multi_api.go:241-254 | the final check |
| FanOut.NothingMissing | pkg/promclient/multi_api.go:154-158 | outside partial mode the final check cannot fail once every bucket is large enough |
| FanOut.ScatterGather | pkg/promclient/multi_api.go:306-392 | for every arrival order and cancellation point: success exactly when the answers waited for suffice, and then those answers by ascending ordinal with their warnings; otherwise the call stops at the first answer that loses it, at the cancellation or at the end, with that error and the warnings seen until then |
| FanOut.ScatterMerge | pkg/promclient/multi_api.go:460-528 | the series-set fan-out decides the same, fails the same way, and hands the same answers to the merge hook |
| FanOut.QueryExemplars | pkg/promclient/multi_api.go:606-683 | taking the answers in index order decides as the others do outside partial mode, stops with the same error, and unites the exemplars of exactly the series named, in ordinal order |
| FanOut.ExemplarsAre | pkg/promclient/multi_api.go:655-667 | a series gets the exemplars of all its entries in all answers |
| FanOut.OrderIndependent | pkg/promclient/multi_api.go:292-305 | without cancellation the decision, the sorted results and the warnings are the same for every two arrival orders |
| FanOut.PartialSafety | pkg/promclient/multi_api.go:354-391 | a successful partial answer holds exactly the successes delivered, in order, is not empty, and carries a warning whenever some backend's result is missing |
| FanOut.AnswerSays | pkg/promclient/multi_api.go:354-391 | a successful answer has exactly the values that arrived, by ascending ordinal; a reported warning if and only if a backend that arrived reported it; one for a backend if and only if the mode is partial and it arrived with that failure; one for the cancellation if and only if it cut the call short |
| FanOut.FailureSays | pkg/promclient/multi_api.go:354-388 | the warnings of a failing call are exactly those of the answers seen before it stopped |
| FanOut.PendingIs | pkg/promclient/multi_api.go:324-327 | the outstanding count of a bucket is the number of its backends not heard |
| FanOut.AnsweredIs | pkg/promclient/multi_api.go:381 | the success count of a bucket is the number of its backends heard with an answer |
| FanOut.AnswerCountIs | pkg/promclient/multi_api.go:241-254 | the quorum counts a bucket's backends that have an answer |
| CollisionStats.DedupStats.Record | pkg/promhttputil/dedup.go:18-24 | the counters count exactly the collisions recorded |
| Dedup.OnePerReducedSet | pkg/promclient/cross_group_dedup.go:66-91 | one bucket per label set modulo the ignored names, in order of first appearance |
| Dedup.Conservation | pkg/promclient/cross_group_dedup.go:71-113 | inputs are outputs, collisions and exact repetitions together |
| Dedup.AllSound | pkg/promclient/cross_group_dedup.go:98-110 | a bucket's winner is one of its inputs and no loser has a lower ordinal |
| Dedup.OwnershipExact | pkg/promclient/cross_group_dedup.go:16-24 | the lowest ordinal owns every bucket after every prefix if and only if no series repeats, from a lower ordinal, the labels of the best one before it |
| Dedup.FinalOwnershipExact | pkg/promclient/cross_group_dedup.go:16-24 | the lowest ordinal owns every returned bucket if and only if every series hidden behind a repetition is made up for by a later one |
| Dedup.OwnerCanBeHigher | pkg/promclient/cross_group_dedup.go:93-96 | two orders of the same two series leave different owners |
| Dedup.AscendingHidesNothing | pkg/promclient/cross_group_dedup.go:22-24 | in ascending ordinals nothing is hidden and no winner is replaced |
| Dedup.FirstsWin | pkg/promclient/cross_group_dedup.go:16-24 | in ascending ordinals the winners are the series that come first in their reduced label set, in their order |
| Dedup.ContendersTaken | pkg/promclient/cross_group_dedup.go:93-110 | in ascending ordinals a bucket keeps for filling every series of its reduced label set but plain repetitions of the first one's labels, in their order, and all but the first have lost |
| Dedup.RearrangementInvisible | pkg/promclient/cross_group_dedup.go:22-24 | when no full label set occurs twice, rearranging the sets changes neither winner nor losers of any bucket |
| Attribution.FinalPairsNameWinners | pkg/promclient/cross_group_dedup.go:115-119 | every recorded pair names a bucket's final winner and one of its losers, winner <= loser, one per collision |
| Attribution.SameCount | pkg/promclient/label.go:96-106 | both attributions count the same collisions in any order |
| Attribution.AttributionExact | pkg/promclient/label.go:60-65 | immediate attribution equals deferred attribution if and only if no winner with losers is replaced |
| Attribution.LateWinMisattributes | pkg/promclient/label.go:95-106 | three ordinals in descending order for which they differ |
| CrossGroupDedup.TakeSeries | pkg/promclient/cross_group_dedup.go:72-110 | one step on the bucket map and the result slice is one step of the fold, also when a winner is overwritten in place |
| CrossGroupDedup.FillBucketGaps | pkg/promclient/cross_group_dedup.go:137-149 | for some order of the members by ordinal, the first one's labels, and its samples filled from the others with the threshold their intervals call for |
| CrossGroupDedup.FilledDetermined | pkg/promclient/cross_group_dedup.go:137-149 | the order of the members determines the filled series |
| CrossGroupDedup.BaseHasWinnersOrdinal | pkg/promclient/cross_group_dedup.go:138-140 | whatever the unstable sort does, the base has the winner's ordinal |
| CrossGroupDedup.FilledKeepsWinnersLabels | pkg/promclient/cross_group_dedup.go:148 | with one series per backend in the bucket the filled series has the winner's labels |
| CrossGroupDedup.FinishBuckets | pkg/promclient/cross_group_dedup.go:115-122 | visiting the buckets in any order charges every loser to its final winner and fills each bucket once |
| CrossGroupDedup.DedupSeriesSetsFillGaps | pkg/promclient/cross_group_dedup.go:40-128 | a single set passes through; otherwise one series per bucket of the fold with its collisions recorded, or a failure that records nothing |
| CrossGroupDedup.BucketSays | pkg/promclient/cross_group_dedup.go:93-149 | with sets in ascending ordinals a bucket's series is that of its only contender, or its first contender's filled from the others, and every other contender is charged to the first |
| CrossGroupDedup.FilledSays | pkg/promclient/cross_group_dedup.go:137-149 | a filled series has exactly the samples of its members that lie in gaps of every member before them |
| MetadataDedup.TakeLabels | pkg/promclient/label.go:84-112 | one step keeps both index maps describing exactly the current result and records the collision of the moment |
| MetadataDedup.Replaced | pkg/promclient/label.go:97-103 | replacing a winner in place keeps both index maps exact |
| MetadataDedup.MergeLabelSetsDeterministic | pkg/promclient/label.go:69-116 | the winners of the fold, with immediate attribution |
| MetadataDedup.PathsAgree | pkg/promclient/label.go:69-116 | on the same series both paths return the same label sets in the same order if and only if there are two or more sets or nothing collides in the single one; of two or more they count the same collisions, and charge the same pairs if and only if no winner with losers is replaced, so always in ascending ordinals |
| FilterMatchers.Filter | pkg/promclient/filtermatcher.go:57-84 | fails exactly when a matcher of an external label does not match, else returns the other matchers or the stand-in |
| FilterMatchers.FilterExact | pkg/promclient/filtermatcher.go:57-84 | the filtered matchers select a backend's series exactly as the original ones select the stamped series, if and only if the series has a name, a matcher is left, or the group does not match |
| FilterMatchers.NamelessMissed | pkg/promclient/filtermatcher.go:74-81 | a series without a name that its group's external label selects and the stand-in does not |
| FilterMatchers.SelectStamped | pkg/promclient/label.go:229-255 | a selector over stamped series is the filtered selector over the backend's own, stamped, whenever the stand-in is not used or drops nothing |
| Aggregation.GroupPartials | pkg/proxystorage/node_replacer.go:361-368 | a group's stamped partials weigh, for every final key, what its stamped samples weigh |
| Aggregation.TwoStepAggregate | pkg/proxystorage/node_replacer.go:360-459 | sum, min, max, group and count (by adding up) of the groups' partials give, sample for sample, the aggregate over all stamped series, for by and without |
| Aggregation.AverageIsQuotient | pkg/proxystorage/node_replacer.go:430-449 | the mean is sum over count matched on the key |
| Aggregation.SingleAverage | pkg/proxystorage/node_replacer.go:372-384 | a single group's mean can be averaged again without change |
| Aggregation.ValueCountsExact | pkg/proxystorage/node_replacer.go:461-506 | counting values before stamping is counting them after it if and only if stamping leaves the values alone |
| Aggregation.TwoStepCountValues | pkg/proxystorage/node_replacer.go:461-506 | summing the groups' value counts counts the values of all, when stamping leaves each group's values alone, and for one group only then |
| Aggregation.ValueLabelRule | pkg/proxystorage/node_replacer.go:461-506 | it does so for all data if and only if the value label is no external label or is left out of the result |
| LocalQueries.LocalStamped | pkg/promclient/label.go:238-255 | a query that acts series by series commutes with stamping |
| LocalQueries.LocalUnion | pkg/proxystorage/node_replacer.go:603-628 | the groups' answers to it, side by side, are its answer over all stamped series |
| Fetching.FetchRawExact | pkg/promclient/cross_group_multi_api.go:123-135 | a pushed-down local query brings back its answer over everything if and only if there is one group or no two samples of the answer differ in ignored labels only |
| Fetching.FetchRawKeepsFirst | pkg/promclient/cross_group_multi_api.go:123-135 | of samples that differ in ignored labels only, a raw request over several groups keeps the first group's and no other, and what it keeps stays in the groups' order |
| Fetching.FetchPartialsExact | pkg/promclient/cross_group_multi_api.go:107-126 | aggregate partials come back side by side, none merged away, whatever they are |
| Pushdown.ReplacementSmaller | pkg/proxystorage/node_replacer.go:43-47 | the walk descends into replacements and still ends |
| Pushdown.SubqueryLeftAlone | pkg/proxystorage/node_replacer.go:99-105 | below a subquery the walk changes nothing |
| Pushdown.ExactLeftAlone | pkg/proxystorage/node_replacer.go:151-159 | in exact mode with several groups the walk changes nothing in the tree |
| PushdownTheorem.GuardsMeanLocal | pkg/proxystorage/node_replacer.go:161-204 | what the guards let through acts series by series, unless a call in it rewrites labels |
| PushdownTheorem.LocalNotStopped | pkg/proxystorage/node_replacer.go:161-204 | the guards never stop what acts series by series, nor an aggregation of it |
| PushdownTheorem.CountValuesExact | pkg/proxystorage/node_replacer.go:461-506 | what replaces a count_values has its value when no group's external labels touch the counted values, and for a single group only then |
| PushdownTheorem.AggregateExact | pkg/proxystorage/node_replacer.go:326-545 | each aggregation's replacement means what the aggregation means, whatever series the groups share |
| PushdownTheorem.ReplaceExact | pkg/proxystorage/node_replacer.go:298-832 | what takes a node's place means what the node means over all groups' stamped series |
| PushdownTheorem.PushdownPreserves | pkg/proxystorage/node_replacer.go:27-64 | for every expression without a pushed-down topk or bottomk, every list of groups and every configuration, the rewritten tree has the original's value over the union of all stamped series, provided every node that is answered by a raw request comes back intact and the filters below pushed-down aggregations miss no series; the restrictions on expressions concern what is pushed down only; in exact mode and below a subquery the tree stays as it is and nothing is asked |
| PushdownReach.LocalSentDown | pkg/proxystorage/node_replacer.go:549-832 | a selector, one against a literal, and a per-series call over what acts series by series become the groups' answer to the whole of it; sort is applied again |
| PushdownReach.AggregateSentDown | pkg/proxystorage/node_replacer.go:326-545 | an aggregation over what acts series by series becomes the right combination of the groups' partials; only those that need all samples stay and have their argument rewritten |
| PushdownReach.EverySelectorSent | pkg/proxystorage/node_replacer.go:632-708 | whatever the tree, outside of subqueries and exact mode over several groups no instant selector is left unanswered |
| TopkPushdown.TwoStepTop | pkg/proxystorage/node_replacer.go:361-368 | the top of the groups' stamped tops is a top of all stamped samples |
| TopkPushdown.TopkExact | pkg/proxystorage/node_replacer.go:361-368 | whatever top each backend answers to a local query and the engine picks from what the merge hook makes of the answers is a top of the query's value over all groups' series |
| TopkPushdown.SameValues | pkg/proxystorage/node_replacer.go:361-368 | two answers to the same topk or bottomk have, per key, every value equally often |
| TopkPushdown.TopkReplaceExact | pkg/proxystorage/node_replacer.go:361-368 | what replaces a topk or bottomk has, per key, every value as often as the original over all groups' series |
| PushdownChoices.PushdownPossible | pkg/proxystorage/node_replacer.go:27-64 | with topk and bottomk anywhere in the expression, every value the rewritten tree can have, whatever tops backends and engine pick, the original can have over all groups' stamped series |
| PushdownChoices.PushdownAnswers | pkg/proxystorage/node_replacer.go:27-64 | so what an engine that picks tops makes of the rewritten tree is an answer to the original query |
| PushdownChoices.CertainHasOneValue | pkg/proxystorage/node_replacer.go:27-64 | an expression without topk and bottomk can have its value and no other |
| PushdownChoices.EnginesExist | pkg/proxystorage/node_replacer.go:361-368 | every vector has a top, so there are engines and backends that pick tops |
| TopkPushdown.TopValues | pkg/proxystorage/node_replacer.go:361-368 | any two answers to the same topk have, per key, equally many values beyond every bound |
| PushdownLimits.ApartSuffices | pkg/promclient/cross_group_multi_api.go:107-135 | raw answers come back intact when the filters miss nothing and there is one group or nothing differs in ignored labels only |
| PushdownLimits.SharedSeriesDropped | pkg/promclient/cross_group_multi_api.go:123-135 | of a series that two groups store a raw request brings back one |
| PushdownLimits.DisjointGroupsSuffice | pkg/promclient/cross_group_multi_api.go:75-84 | when no group has a series of another, up to ignored labels and the name, raw answers of all groups together have nothing to dedup exactly when those of each by itself have not |
| PushdownLimits.AloneExact | pkg/promclient/cross_group_multi_api.go:55-70 | when only external labels are ignored, a group's own answer has nothing to dedup if and only if it has no label set twice |
| PushdownLimits.FilteredAggregateIsNotReentrant | pkg/proxystorage/node_replacer.go:769-772 | filtering each group's maximum and taking the maximum again differs from filtering the overall maximum |
| PushdownLimits.AverageIsNotReentrant | pkg/proxystorage/node_replacer.go:370-376 | averaging several groups' averages is wrong |
| PushdownLimits.MistakesCancel | pkg/proxystorage/node_replacer.go:461-506 | with two groups the total can be right although one group's values are overwritten |
| PushdownLimits.ExternalValueLabel | pkg/proxystorage/node_replacer.go:487-506 | an external value label makes different values of two series fall together |
| StaleFill.SortSamplesByTime | pkg/proxystorage/proxy.go:522-528 | the insertion sort on the array is the stable sort by time |
| StaleFill.FillSeries | pkg/proxystorage/proxy.go:472-514 | within the bound a stale marker is added at every step without a sample and the result sorted, beyond it nothing changes |
| StaleFill.FillStaleNaNGaps | pkg/proxystorage/proxy.go:468-517 | every series is filled, an instant query's answer is left alone |
| StaleFill.FilledShape | pkg/proxystorage/proxy.go:450-467 | the filled series is strictly increasing, keeps all samples, covers every step and adds only markers |
| StaleFill.BoundIs | pkg/proxystorage/proxy.go:498-502 | the bound holds if and only if the window has up to ten thousand steps more than there are samples |
| StaleFill.ReadBackExact | pkg/proxystorage/node_replacer.go:206-223 | with up to ten thousand steps more than samples, for every positive lookback, step and offset (0 when kept in the query), the lookup gives the downstream value of that step or nothing |
| StaleFill.LookupExact | pkg/proxystorage/proxy.go:450-467 | without filling a lookup gives the value of that very time, or nothing when there is none, if and only if no earlier value lingers within the lookback |
| StaleFill.ReadBackExactly | pkg/proxystorage/proxy.go:450-514 | a step of a pushed-down range call is read back exactly if and only if the window has up to ten thousand steps more than there are samples or no earlier answer lingers at that step |
| StaleFill.UnfilledBleeds | pkg/proxystorage/proxy.go:498-503 | one step beyond the bound an input for which an earlier value is read at an empty step |
| StaleFill.VectorToStepMatrix | pkg/proxystorage/proxy.go:381-431 | the last sample repeated at every step of the window, nothing for an empty window |
| StaleFill.PinnedReadBack | pkg/proxystorage/node_replacer.go:258-287 | every step reads the pinned value |
| RangeTruncation.QueryRange | pkg/promclient/timefilter.go:66-89 | what range is sent on, or none |
| RangeTruncation.TruncationExact | pkg/promclient/timefilter.go:71-85 | exactly the original steps inside the window are sent, for any positive step and unset bounds, and the start keeps its phase |
| RangeTruncation.StackingIntersects | pkg/promclient/timefilter.go:215-239 | stacked filters send the steps in both windows |
| RangeTruncation.ShiftIsPhase | pkg/promclient/step_align.go:44 | the doubled remainder is the start's phase, for negative times too |
| RangeTruncation.ShiftMapsGrids | pkg/promclient/step_align.go:21-32 | the shift maps the epoch grid onto the requested grid, each time from the latest epoch time not after it |
| RangeTruncation.TruncationKeepsShift | pkg/promclient/timefilter.go:72-79 | truncation does not change the shift |
| RangeTruncation.Iterator | pkg/promclient/step_align.go:68-76 | a reused iterator shows the new series from its start, shifted, as a new one does |
| RangeTruncation.TimeShiftIterator.Seek | pkg/promclient/step_align.go:102-106 | seeking stands at the first sample seen at or after the time |
| RangeTruncation.TimeShiftIterator.At | pkg/promclient/step_align.go:83-86 | a sample is seen at its time plus the shift |
| VmExport.SortExportSamples | pkg/promclient/vm_export.go:250-260 | the compaction within the sorted array gives the samples no sample of the same time follows, and never overwrites an unread element |
| VmExport.DecodeExportSeriesSet | pkg/promclient/vm_export.go:124-162 | fails exactly on a line with unequal lengths, else one series per label set by ascending labels with the samples of all its lines |
| VmExport.LastExportedKept | pkg/promclient/vm_export.go:243-249 | a decoded series is strictly increasing and holds for exactly the exported times the value exported last |
| VmExport.DecodedExactly | pkg/promclient/vm_export.go:124-260 | entry i of a line comes out, the value at i at the timestamp at i, unless a later entry has the same label set and time; nothing else comes out, and times are strictly increasing |
| VmExport.DecodedAlike | pkg/promclient/vm_export.go:121-162 | two exports decode alike if and only if they have the same label sets and, for every label set and time, the same last exported value |
| VmExport.LineSplittingInvisible | pkg/promclient/vm_export.go:121-123 | with distinct times per series, how an export is cut into lines and in what order they come does not show |
| VmExport.RepeatedTimesDependOnOrder | pkg/promclient/vm_export.go:246-249 | with a repeated time it does |
| QueryStats.Recorder.Begin | pkg/querystats/querystats.go:84-92 | a request's place is the number begun before it |
| QueryStats.Recorder.RowIndex | pkg/querystats/querystats.go:94-103 | the index points at the group's row, which is added when missing |
| QueryStats.Recorder.Record | pkg/querystats/querystats.go:139-179 | totals, list and truncation count describe the log with one more request |
| QueryStats.Entry.Finish | pkg/querystats/querystats.go:133-137 | only the first call records |
| QueryStats.Recorder.Stats | pkg/querystats/querystats.go:105-122 | rows by ordinal, the listed requests by begin order, the truncation count |
| QueryStats.Conservation | pkg/querystats/querystats.go:139-179 | finished requests are the groups' requests together, and the listed and truncated ones together |
| QueryStats.FinishOrderInvisible | pkg/querystats/querystats.go:84-122 | the same requests finished in another order give the same report |
| QueryStats.Run | pkg/querystats/querystats.go:86-179 | over every interleaving of beginnings and finishes the report is the one every description of the finished requests gives |
| QueryStats.InterleavingInvisible | pkg/querystats/querystats.go:86-179 | two interleavings that finish the same requests report the same |
| QueryStats.GroupsSay | pkg/querystats/querystats.go:94-152 | a report lists exactly the configured and the asked groups, by ordinal, under their configured names, with requests, failures, series, samples and duration each summed over the group's own finished requests |
| QueryStats.RequestsSay | pkg/querystats/querystats.go:116-179 | a report lists exactly the requests that began among the first hundred, in the order they began, each with its own details and outcome, and counts the others |
| RequestShift.RequestExact | pkg/proxystorage/node_replacer.go:206-223 | the query that is sent, offsets taken out or kept, has at the moved time the original's value, for all data |
| RequestShift.KeptWhenNeeded | pkg/proxystorage/node_replacer.go:206-211 | taking the offsets out would be right for all data if and only if they are not kept or are zero |
| RequestShift.PinnedOnce | pkg/proxystorage/node_replacer.go:258-287 | a subtree pinned by @ that does not read the clock has at the @ time the value it has at every step |
| RequestShift.PushedDownReadBack | pkg/proxystorage/node_replacer.go:206-223 | sent down, filled and looked up with the synthesized offset, a range call has at every step and for every lookback the value it would have had in place |
| DeclinedPushdown.NodeReplacer.RemoveOffset | pkg/proxystorage/node_replacer.go:240-248 | every selector's offset below the node is cleared and remembered, nothing else changes |
| DeclinedPushdown.NodeReplacer.ReplaceAggregate | pkg/proxystorage/node_replacer.go:326-545 | without a replacement the operator and the child are as before and the offsets recoverable; a replacement combines fetched partials with the right operator, or is a sum over a count |
| DeclinedPushdown.NodeReplacer.SumOverCount | pkg/proxystorage/node_replacer.go:430-449 | the two aggregations of a mean get trees of their own that read as the argument did and share no node |
| DeclinedPushdown.Clone | pkg/promclient/util.go:156-159 | writing a tree out and reading it again gives new nodes with the same text and nothing fetched |
| DeclinedPushdown.NodeReplacer.ReplaceCall | pkg/proxystorage/node_replacer.go:549-600 | replaced exactly when the groups can answer by themselves and nothing lossy came back, and sort is applied again; otherwise all is recoverable |
| DeclinedPushdown.NodeReplacer.ReplaceVectorSelector | pkg/proxystorage/node_replacer.go:632-708 | declined, offset and lookback are recoverable, also on the lossy path; a selector pinned by @ becomes a fresh fetched one, another keeps its node with its offset |
| DeclinedPushdown.NodeReplacer.ReplaceBinary | pkg/proxystorage/node_replacer.go:773-832 | the same for a selector against a literal |
| DeclinedPushdown.NodeReplacer.Replace | pkg/proxystorage/node_replacer.go:290-324 | declined: every selector's offset and lookback, every operator and every child pointer below the node is what it was |
| DeclinedPushdown.ReplaceSubquery | pkg/proxystorage/node_replacer.go:720-767 | a subquery in which nothing was pushed, with whatever positive step it has, is left as it was |
| DeclinedPushdown.Inspect | pkg/proxystorage/node_replacer.go:752-766 | a whole walk in which nothing was pushed leaves the tree as it was, whatever guards found and groups answered |

## Left out

- Times are unbounded integers in milliseconds; overflow and sub-millisecond steps are not modelled.
- Values are integers or reals; NaN other than the stale marker, infinities and rounding are not modelled.
- Label fingerprints stand for the label sets themselves; collisions of 64-bit fingerprints are not modelled.
- Goroutines and channels appear as arrival orders and cancellation points, mutexes as atomic calls.
- Error texts, logging and metrics are not modelled.
- Histograms are opaque payloads; their conversion is declared lossy by the source.
- CrossGroupDedup.FillBucketGaps: says that members are ordered by ordinal, not how equal ordinals are ordered, because the source's sort is unstable.
- Dedup.RearrangementInvisible: needs that no full label set occurs twice; otherwise the first of two equal ones is kept, as `Dedup.OwnerCanBeHigher` shows.
- FanOut.ScatterMerge: says what the merge hook gets only when there is a backend or the mode is not partial, because the hook is not given an answer to merge otherwise.
- PushdownTheorem.PushdownPreserves: one evaluation time; offsets, lookbacks and step grids are in StaleFill and DeclinedPushdown. Values a subquery or range selector hands to a call are one opaque value per series. Duplicate label sets, which the engine rejects, and the order of a vector, so what sort does, are not modelled.
- PushdownTheorem.PushdownPreserves: below what is pushed down, leaves out calls that rewrite labels (label_replace, label_join) or read the clock only (time, pi), averages of several groups by metric name (the workaround label is not modelled), and value labels that `Aggregation.ValueLabelRule` rules out, where pushdown is wrong. topk and bottomk that are pushed down have more than one right answer; PushdownChoices covers expressions that contain them.
- PushdownTheorem.PushdownPreserves: what is not pushed down, below calls over the whole input and everywhere in exact mode, is read from the union of all groups' series on both sides. The code fetches it deduplicated; that fetch is the dedup of CrossGroupDedup and is not part of the evaluator.
- PushdownTheorem.CountValuesExact: for several groups says when pushing down is right, not for which data it is wrong, because the groups' mistakes can cancel out (`PushdownLimits.MistakesCancel`).
- Dedup.FinalOwnershipExact: its condition follows the run; the one over the inputs, in Dedup.OwnershipExact, is for ownership throughout.
- PushdownTheorem.PushdownPreserves: histogram_quantile and histogram_fraction are treated as acting on each series; the grouping of classic buckets is not modelled.
- Pushdown.ReplacementSmaller: the guard for histogram-bearing subtrees is not in the rewriter; it only makes it decline more.
- Aggregation.TwoStepAggregate: quantile, stddev, stdvar, limitk and limit_ratio stay with the engine and have no meaning of their own here.
- StaleFill.ReadBackExact: assumes that a range response has distinct, ordered times, as backends return them.
- DeclinedPushdown.Inspect: the parser's walk is a plain recursion over a tree without sharing; what happens below a replacement is not followed.
- The visitor of filtermatcher.go rewrites selectors in place; here the filtered expression is a new value.
- The reading of NDJSON, the export request's window, blank lines and the HTTP layer are not modelled.
- Metadata, label name and label value merges, materialisation of series sets, and label-sorted merging by the storage library are not modelled.
- Configuration, service discovery, relabelling, the HTTP and MCP surfaces and the passthrough clients are not part of this model.
