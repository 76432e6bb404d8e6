# Hand-line merging, length filtering and mask compositing

A Dafny model of the deterministic core of a palm-reading service. The
service finds lines on a photograph of a hand in three steps:

- It detects straight segments with a probabilistic Hough transform at
  three blur scales.
- It keeps only the segments longer than 50 pixels.
- It merges similar segments into one: `HandLinesDetector.merge_similar_lines`
  in `modules.py`.

Separately, `SegmentorAgent` cuts the hand out of a photo: every pixel
outside the first mask the segmentation model returns is painted white.

The model covers:

- **The merge** (`line_merge.dfy`, `line_merge_lemmas.dfy`, `hand_lines.dfy`).
  The segments are processed in input order, in one first-fit pass.
  - Each segment is compared with the *first* member of every existing
    group, in group-creation order.
  - It joins the first group whose reference segment is close enough in
    angle and in the nearer of its two same-index endpoint distances.
  - Otherwise it starts a new group.
  - Each group then yields one segment: a singleton yields its member
    unchanged; a larger group yields the endpoint coordinates averaged and
    truncated toward zero, with the exact mean angle.

  `LineMerge` is the recursive specification (`Grouping`, `Representatives`,
  `Merge`). `LineMergeLemmas` proves what that specification guarantees.
  `HandLines.HandLinesDetector.MergeSimilarLines` is the imperative pass as
  the detector runs it:
  - an arena `mergedLines` and a list of index groups;
  - an inner loop with a `matched` flag and an early exit;
  - a closing loop that fills the output.

  It is proved equal to the specification.
- **The length filter** of `process_image` (`length_filter.dfy`,
  `HandLinesDetector.ProcessImage`). For each scale in order, and for each
  detection in order, a segment is kept exactly when its length exceeds 50.
  It is kept with the absolute value of its angle.
- **The detector object**: its default thresholds 15 and 25, and `__call__`,
  which hands the filtered segments to the merge with the detector's own
  thresholds rather than the merge's defaults of 10 and 20.
- **The mask select** of `SegmentorAgent.__call__` (`segmentor.dfy`):
  - the default text prompt;
  - squeezing the model's masks and taking the first;
  - the per-pixel choice between the image pixel and white.

## Modelling choices

- **Square roots.** The source compares `sqrt(d) < t` and `sqrt(d) > 50` for
  an integer squared distance `d`. The model states both tests on squares:
  - `WithinDistance(d, t)` is `0 < t && d < t*t`;
  - `LongerThan50(d)` is `d > 2500`.

  `Geometry.WithinDistanceIsRootTest`, `MinWithinDistanceIsRootTest` and
  `LongerThan50IsRootTest` prove that each squared test agrees with the root
  test, for every non-negative root. A threshold that is not positive admits
  nothing, because a root is never negative.
- **Reals.** Angles and thresholds are `real`, and the mean angle is exact.
  Endpoint coordinates are integers. `LineMerge.TruncMean` is the integer
  mean truncated toward zero, which is what Python's `int()` does to a float
  mean. `LineMergeLemmas.TruncMeanIsTruncatedMean` ties it to the exact real
  mean, for either sign.
- **Outside computations.** The Hough transform and `arctan2` are outside
  the model:
  - each scale's Hough result is an input (`None` when nothing was found);
  - the angle in degrees of a direction `(dy, dx)` is the function
    parameter `angleOf`.

  The segmentation model is outside the model too; its masks are an input.
- **Module-level examples.** `MergeExamples` proves the merge's result on
  concrete inputs:
  - the test input of `tests/test_handlines_detector.py` under the default
    thresholds;
  - a pair of parallel segments that average;
  - a segment and its reverse, which are not merged;
  - an input on which merging twice differs from merging once.

**Merging is not idempotent.** Re-merging a merged list can change it: a
representative is an average, so it can move to within the distance
threshold of another group's representative. `MergeExamples.MergeNotIdempotent`
shows this with thresholds 10 and 20 on three vertical segments (angle 90)
at x = 0, 25 and 18:

1. The first pass groups {0, 18} and {25}, and yields x = 9 and x = 25.
2. These two are 16 pixels apart, so a second pass merges them into x = 17.

## Model

| member | source | states |
|---|---|---|
| HandLines.HandLinesDetector.MergeSimilarLines | modules.py:159-206 | the arena-and-groups pass, with its inner first-fit loop and closing loop, returns exactly `Merge(lines, angleThreshold, distanceThreshold)`, for every input including the empty one |
| HandLines.HandLinesDetector.JoinGroup | modules.py:168-189 | one pass of the inner loop appends the new arena index to the first group, in creation order, whose reference the segment matches, and otherwise appends a new singleton group |
| HandLines.HandLinesDetector.FinalLines | modules.py:191-206 | the closing loop yields one segment per group, in group order: the singleton's member, or the truncated coordinate means and the mean angle |
| HandLines.HandLinesDetector.ProcessImage | modules.py:219-252 | the collected segments are exactly the long detections, scale by scale and in detection order, each with its absolute angle |
| HandLines.HandLinesDetector.Call | modules.py:266-277 | the merged segments are the merge of the filtered detections under the detector's own thresholds, not the merge's defaults |
| HandLines.HandLinesDetector.constructor | modules.py:154-156 | the detector keeps the two thresholds it is given |
| HandLines.DefaultDetector | tests/test_handlines_detector.py:11-13 | a detector built without arguments has angle threshold 15 and distance threshold 25 |
| LineMerge.FirstMatch | modules.py:171-184 | the chosen group's reference matches the segment, every earlier group's reference does not, and "no group" means none from the start position matches |
| LineMerge.Grouping | modules.py:164-189 | after n segments, every group is non-empty and holds only indices below n, and there are between 1 and n groups when n > 0 |
| LineMerge.Merge | modules.py:159-162 | an empty input gives an empty output; otherwise the output has at least one and at most as many segments as the input |
| LineMerge.Matches | modules.py:175-181 | the join test: the angles differ by less than the angle threshold and the smaller same-index endpoint distance is below the distance threshold, which holds exactly when the angles are that close and either endpoint pair is within the distance threshold |
| LineMerge.Place | modules.py:182-187 | index i is appended to group j, or opens a new singleton group at the end when j is the number of groups (its resulting shape is stated by `LineMergeLemmas.PlaceAt`) |
| LineMergeLemmas.PlaceAt | modules.py:182-187 | after placing, the number of groups grows by one exactly when a new group was opened; the chosen group gains the index at its end, and every other group is unchanged |
| LineMerge.TruncMean | modules.py:196-203 | `int(np.mean(xs))` for integers: the mean rounded toward zero, which has the sign of the sum and is the value itself for a single value |
| LineMerge.Representative | modules.py:193-204 | one group's output segment: the single member unchanged, otherwise the truncated coordinate means and the exact mean angle (see `LineMergeLemmas.RepresentativeIsMean`) |
| LineMergeLemmas.RepresentativeIsMean | modules.py:193-204 | the singleton shortcut agrees with the averaging formula: every representative, whatever the group's size, is the truncated mean of each coordinate and the exact mean angle |
| LineMerge.Representatives | modules.py:191-204 | the closing loop's result: as many representatives as there are groups, the q-th being the representative of group q (see `LineMergeLemmas.RepresentativesAt`) |
| LineMergeLemmas.RepresentativesAt | modules.py:191-204 | entry q of the representatives is the representative of group q, so the output follows group order |
| LineMergeLemmas.GroupingPartition | modules.py:164-189 | the groups partition the indices 0..n-1: each is non-empty and increasing, each index is in exactly one group, and groups are ordered by their first member |
| LineMergeLemmas.GroupingFirstFit | modules.py:171-187 | every non-first member matches its group's reference in angle and distance, and matches the reference of no earlier group |
| LineMergeLemmas.GroupingUnique | modules.py:167-189 | any grouping that is a partition with first-fit membership is the grouping the pass builds, so the declarative and the step-by-step descriptions agree |
| LineMergeLemmas.PlacePartition | modules.py:182-189 | placing the next index, in an existing group or a new one, keeps the groups a partition of the larger index range |
| LineMergeLemmas.PlaceFirstFit | modules.py:171-189 | placing the next segment by first match keeps first-fit membership |
| LineMergeLemmas.AngleSeparation | modules.py:175 | a segment whose angle differs from a group's reference by at least the angle threshold is never a non-first member of that group, whatever its distance |
| LineMergeLemmas.MergedSingleton | modules.py:191-194 | the output has one segment per group, in group-creation order, and a singleton group yields its input segment unchanged, angle included |
| LineMergeLemmas.MergedAngleNearReference | modules.py:196-204 | the angle of a merged segment standing for several inputs lies within the angle threshold of its group's reference angle |
| LineMergeLemmas.RepresentativesAngleNear | modules.py:191-204 | for any well-formed groups whose members all lie within the angle threshold of their reference, every multi-member group's output angle does too |
| LineMergeLemmas.RepresentativeAngleNear | modules.py:200-204 | if every member lies within the threshold of the reference angle, so does the mean angle |
| LineMergeLemmas.RepresentativeCoordWithin | modules.py:196-203 | each averaged endpoint coordinate lies within any integer bounds that hold for all members' coordinates |
| LineMergeLemmas.RepresentativeAngleWithin | modules.py:200-204 | the averaged angle lies within any bounds that hold for all member angles |
| LineMergeLemmas.TruncMeanIsTruncatedMean | modules.py:196-203 | the integer coordinate mean is the exact mean truncated toward zero: within 1 below a non-negative mean, within 1 above a negative one |
| LineMergeLemmas.TruncMeanWithin | modules.py:196-203 | a truncated mean lies within any integer bounds its values lie within |
| LineMergeLemmas.MeanWithin | modules.py:200 | an exact mean lies within any bounds that hold for all its values |
| LineMergeLemmas.MeanStrictlyWithin | modules.py:200 | an exact mean lies strictly within any bounds that hold strictly for all its values |
| Geometry.WithinDistance | modules.py:176-181 | the test `sqrt(d) < t` on a squared distance d: t is positive and d is below t squared (agreement with the root test is `WithinDistanceIsRootTest`) |
| Geometry.LongerThan50 | modules.py:249-251 | the test `length > 50` on the squared length: above 2500 (agreement with the root test is `LongerThan50IsRootTest`) |
| Geometry.WithinDistanceIsRootTest | modules.py:176-181 | the squared distance test agrees with `sqrt(d) < t` for every non-negative root of d |
| Geometry.MinWithinDistanceIsRootTest | modules.py:176-181 | testing the smaller squared distance is testing the smaller of the two roots |
| Geometry.LongerThan50IsRootTest | modules.py:249-251 | `d > 2500` agrees with `sqrt(d) > 50` for every non-negative root of d |
| LengthFilter.Long | modules.py:249-251 | a Hough detection passes the length test exactly when its squared length, between its two endpoints, is above 2500 |
| LengthFilter.Kept | modules.py:245-252 | the segments one scale contributes: its long detections in detection order, each as a segment with its absolute angle (characterised by `KeptMembership`, `KeptAppend`, `KeptCount`) |
| LengthFilter.ScaleLines | modules.py:245-252 | a scale whose Hough result is `None` contributes nothing; otherwise its kept segments |
| LengthFilter.DetectedLines | modules.py:222-252 | all collected segments: the scale contributions concatenated in scale order (characterised by `DetectedLinesMembership`, `DetectedLinesAppend`) |
| LengthFilter.ToSegment | modules.py:247-249 | a detection becomes a segment with the same endpoints and a non-negative angle, and the detection is long exactly when the segment is longer than 50 |
| LengthFilter.KeptMembership | modules.py:245-252 | a segment is kept from a scale exactly when some detection of that scale is longer than 50 and yields it |
| LengthFilter.KeptAppend | modules.py:246-252 | filtering preserves detection order: the segments kept from a concatenation are those kept from each part, in order |
| LengthFilter.KeptAreLong | modules.py:249-252 | every kept segment is longer than 50 and has a non-negative angle |
| LengthFilter.KeptCount | modules.py:245-252 | at most one segment is kept per detection; all are kept when all are long, none when none is |
| LengthFilter.DetectedLinesMembership | modules.py:222-252 | a segment is collected exactly when some scale keeps it |
| LengthFilter.DetectedLinesAppend | modules.py:222-252 | collection preserves scale order: the segments from a concatenation of scale results are those of each part, in order |
| LengthFilter.DetectedLinesAreLong | modules.py:245-252 | nothing but long segments with non-negative angles is ever collected |
| Segmentor.Prompt | modules.py:135 | a missing or empty prompt becomes the default hand prompt; any other prompt is used as given |
| Segmentor.Squeeze | modules.py:139 | `mask.squeeze()` on the model's masks: a single mask loses its leading axis, several stay a stack |
| Segmentor.FirstPlane | modules.py:141-142 | a two-dimensional mask is used as it is, a stack gives its first mask, and an empty stack gives none (the index error of `mask[0]`) |
| Segmentor.SqueezeTakesFirst | modules.py:138-142 | whether the model returns one mask or several, the mask used is the first, and there is none when the model returns none |
| Segmentor.SelectPixels | modules.py:144-146 | compositing succeeds exactly when the mask has the image's shape |
| Segmentor.SegmentHand | modules.py:138-146 | the hand image exists exactly when there is a first mask of the image's shape, and it is that mask's composite |
| Segmentor.SelectPixelsAt | modules.py:144-146 | the composite has the image's shape; a marked pixel is the image pixel, and an unmarked one is white in every channel, with the same channel count |
| Segmentor.FullMaskKeepsImage | modules.py:144-146 | a mask marking every pixel leaves the image unchanged |
| Segmentor.EmptyMaskWhitens | modules.py:144-146 | a mask marking nothing gives an all-white image of the same shape |
| Segmentor.SelectPixelsIdempotent | modules.py:144-146 | compositing a composite again with the same mask changes nothing |
| MergeExamples.AveragedPair | modules.py:196-204 | ((0,0),(10,10),45) and ((2,2),(12,12),45) under thresholds 10 and 5 merge into ((1,1),(11,11),45) |
| MergeExamples.DefaultThresholdsExample | tests/test_handlines_detector.py:15-22 | the test's three segments under the merge's defaults give two segments: the first two averaged to ((0,0),(10,10),45.5), and the third unchanged |
| MergeExamples.SwappedEndpointsNotMerged | modules.py:176-179 | only same-index endpoints are compared, so a segment and its reverse stay separate |
| MergeExamples.MergeNotIdempotent | modules.py:191-204 | merging the merged output again can change it |

## Left out

- The OpenCV pipeline of `process_image` (grey conversion, CLAHE, bilateral filter, blur, adaptive threshold, morphology, Canny, Hough) is foreign library code; each scale's Hough output is an input. The returned edge image is not modelled.
- The angle computation with `np.arctan2` is floating-point trigonometry; it is the parameter `angleOf`, and only the absolute value taken of it is modelled.
- Floating-point rounding of `np.mean` is not modelled: means are exact reals. The float mean truncated by `int()` equals `TruncMean` as long as a group's size times its largest absolute coordinate stays below 2^52, so that every partial sum is exact and the rounded quotient cannot cross an integer; this always holds for the 32-bit coordinates `HoughLinesP` returns. Beyond that bound a float sum can round (coordinates 2^53−1 and 2^53−4 give 2^53−2 where the truncated mean is 2^53−3).
- NumPy 32-bit integer arithmetic on Hough coordinates is not modelled; coordinates are unbounded integers, which agrees with the source for any image small enough that squared distances fit in 32 bits.
- HandLines.HandLinesDetector.Call: returns the merged segments. The image loading, its failure exception and the drawing, blending and contrast steps of `__call__` (modules.py:259-298) are I/O and OpenCV calls.
- Exceptions re-raised by `process_image` and `__call__` are not modelled; the modelled steps raise none.
- The segmentation model call (`LangSAM().predict`) is an external model; its masks are an input, as a list of two-dimensional masks, i.e. the N×H×W array that `mask.squeeze()` at modules.py:139 assumes `predict` returns. Other return shapes (such as a list of dictionaries, which has no `squeeze`) are not modelled.
- Segmentor.SegmentHand: NumPy broadcasting of a mask whose height or width is 1, and the squeeze of size-1 image axes, are not modelled; such a mismatch gives `None`, as a shape error does.
- Images are taken as height × width × channel arrays. A two-dimensional greyscale array would meet `mask[..., None]` by NumPy broadcasting rather than as a per-pixel select; that case is not modelled.
- Conversion between PIL images and arrays, and the final `astype('uint8')`, are not modelled; pixels are bytes throughout.
- The LLM agents, the FastAPI service in `main.py` and the second detector in `test.py` are network, HTTP and OpenCV glue outside this model.
- The merge is specified as three methods (`MergeSimilarLines`, `JoinGroup` for the inner loop, `FinalLines` for the closing loop) rather than one body; together they perform the source's steps in its order.
