# FitLife Body Scan and front-page tools, modelled in Dafny

This project models the computational core of the FitLife site.

**Body Scan posture pipeline.** It exists twice: `assets/js/scan.js` is the MoveNet copy and `assets/js/scan-fallback.js` is the MediaPipe copy. The model covers:

- landmark lookup (`key`) with each copy's confidence gate;
- shoulder and hip tilt clamped to 45 degrees;
- forward-head offset, with each copy's nose/ear/eye fallback chain;
- torso left/right difference and arm/leg imbalance;
- the text recommendations;
- the high-accuracy average, which skips missing samples;
- guided-capture fusion across views, which divides by the view count;
- the 0-100 posture and symmetry scores;
- the photo-quality luma (ITU-R BT.709 weights) and the framing check;
- the MediaPipe adapter and the estimation-size and overlay-rescale arithmetic;
- best-of-N run selection;
- the per-file keypoint cache and the skip sets of the fallback session;
- the monotone-chain silhouette outline;
- the overlay's display-list decisions: skeleton segments, dots and badge clamping;
- the BMI and body-fat estimate of the scan form.

**Front page (`assets/js/main.js`).**

- `clamp`;
- the BMI calculator (unit conversion and WHO adult categories);
- the BMR/TDEE calculator (Mifflin-St Jeor);
- the workout plan generator (`makeSplit`, `resolveGroups`, `generatePlan`);
- the nutrition tracker: a date-keyed map of day records changed in place, and the progress bars.

**How the model is built.**

- Geometry is over `real`. `Math.hypot` and `Math.atan2` are parameters of a `Geometry` value. `ValidGeometry` requires only that distances are non-negative and symmetric. Every bound (tilts in [0, 45], ratios in [0, 1], scores in [0, 100]) therefore holds whatever those functions return.
- A few lemmas about level lines also assume `AtanFacts`: atan2 of a horizontal line is 0 when it points right, and at least 45 when it points left.
- JavaScript `null` is `None`, and so is a NaN that every consumer treats like `null` (for example a 0/0 torso difference).
- Where the source mutates state, the model does too:
  - the nutrition map is a field of the `NutritionTracker` class;
  - the fallback session's cache and skip sets are fields of `FallbackSession`;
  - the in-place keypoint scaling works on an `array`;
  - the hull stacks, the sample loop, `quickLuma`, best-of-N and `generatePlan` are methods with loops.
- Each method is proved against a specification function, or states its new state outright.

The model follows the code as written, including where it departs from the behaviour the site describes:

- A level shoulder line whose left shoulder lies to the right of the right shoulder reads 45 degrees, not 0: `atan2` gives about 180, which is then clamped (`Scan.MirroredLevelShouldersReadMaxTilt`). A level line reads 0 only when left.x < right.x (`Scan.LevelShouldersReadZero`).
- `fallbackClear` empties the two skip sets but keeps the keypoint cache (`Session.FallbackSession.Clear`).
- The fallback copy's `key` also accepts a keypoint that has no score.
- The fallback copy's head chain tries the eye before the ear.
- The 5-day split's "triceps" and "biceps" tags are not group names, so `resolveGroups` turns them into "fullbody" (`Workout.FiveDaySplitArmTags`).

## Model

| member | source | states |
|---|---|---|
| JsMath.Abs | assets/js/scan.js:123 | `Math.abs`: non-negative, and equal to x or -x |
| JsMath.Max | assets/js/scan.js:150 | `Math.max` of two: at least both, and one of them |
| JsMath.Min | assets/js/scan.js:126 | `Math.min` of two: at most both, and one of them |
| JsMath.Clamp | assets/js/main.js:8 | `clamp(n, lo, hi)`: in [lo, hi] when lo <= hi; n itself inside the range; lo below it; hi above it |
| JsMath.Round | assets/js/scan.js:852 | `Math.round`: the integer within half a unit, halves rounded up |
| JsMath.RoundMonotone | assets/js/scan.js:852 | rounding never reverses an order |
| JsMath.RoundOfInt | assets/js/scan.js:854 | rounding an integer gives it back (the second rounding of the symmetry score is a no-op) |
| JsMath.Divide | assets/js/main.js:59 | JavaScript `a / b`: finite exactly when b != 0, then the quotient times b is a; NaN exactly for 0/0 |
| Pose.LineTiltDegrees | assets/js/scan.js:96-102 | exactly 90 for a vertical line; otherwise atan2(dy, dx) in degrees |
| Pose.FindFirst | assets/js/scan.js:106 | `kps.find` by `name` or `part`: the first matching index, or none when no keypoint carries the name |
| Pose.Key | assets/js/scan.js:105-108 | `key`: present exactly when the first keypoint with the name passes the gate (score > 0.3; the fallback also accepts a missing score) |
| Pose.KeyIgnoresLaterDuplicates | assets/js/scan.js:105-108 | once a name occurs, keypoints appended later never change the lookup |
| Pose.FindFirstSkipsPrefix | assets/js/scan.js:106 | keypoints with other names in front only shift the index; the lookup result is the same |
| Pose.WeakFirstMatchHidesLaterOnes | assets/js/scan.js:107 | a first match that fails the gate gives null even when a confident duplicate follows |
| Pose.KeyAtFirstMatch | assets/js/scan.js:105-108 | the first match that passes the gate gives its position |
| Pose.TiltRaw | assets/js/scan.js:126-133 | `Math.abs(lineTiltDegrees(a, b))`: present exactly when both landmarks are, never negative |
| Pose.ClampTilt | assets/js/scan.js:126-133 | `Math.min(45, Math.abs(raw))`: in [0, 45], and equal to the absolute raw value when that is at most 45 |
| Pose.ShoulderWidth | assets/js/scan.js:138 | `dist(ls, rs) \|\| 1`: never zero, positive for a valid distance |
| Pose.ForwardHead | assets/js/scan.js:135-145 | head offset over shoulder width: present exactly when both shoulders and a head landmark are, never negative, 0 for a head over the shoulder midpoint |
| Pose.FirstPresent | assets/js/scan.js:115-116 | `a \|\| b \|\| ...`: present exactly when some candidate is, and then one of them |
| Pose.FirstPresentIsSecond | assets/js/scan.js:115 | a missing first candidate defers to the second |
| Pose.TorsoSymmetry | assets/js/scan.js:147-153 | present exactly when all four torso landmarks are; the difference is in [0, 1] whenever the larger side is positive, and 0 for equal sides |
| Pose.RelativeDiff | assets/js/scan.js:151 | \|l - r\| / m: non-negative, 0 for equal sides, at most 1 when both sides are at most m |
| Pose.SegmentLength | assets/js/scan.js:392-395 | `(a && b ? dist(a, b) : 0)`: non-negative, 0 when an endpoint is missing |
| Pose.LimbLength | assets/js/scan.js:392-395 | a two-segment limb length is non-negative |
| Pose.LimbDiff | assets/js/scan.js:397-398 | \|l - r\| / max(l, r, 1): in [0, 1], and 0 for equal limbs |
| Pose.LimbImbalance | assets/js/scan.js:378-400 | `limbImbalanceFromKeypoints`: armDiff and legDiff both in [0, 1] |
| Pose.HeadCandidates | assets/js/scan.js:115-116 | the head landmark of every name of a fallback chain, in order |
| Pose.PostureFields | assets/js/scan.js:110-156 | the shared posture fields are in range; each tilt is present exactly when both its landmarks pass `key`; symmetry is present exactly when both tilts are |
| Pose.HeadFromSecond | assets/js/scan.js:140-145 | with the first head name missing and the second found, forwardHead is that landmark's offset over the shoulder width |
| Scan.ComputeMetrics | assets/js/scan.js:110-156 | scan.js `computeMetricsFromKeypoints`: fields in range; the raw tilts are present with their clamped tilts, which are their clamped absolute values; presence of each field as `key` decides |
| Scan.EarBeforeEye | assets/js/scan.js:135-145 | without a nose this copy takes the left ear before the left eye |
| Scan.LevelShouldersReadZero | assets/js/scan.js:96-129 | level shoulders with the left one on the left give tilt 0 and raw tilt 0 |
| Scan.MirroredLevelShouldersReadMaxTilt | assets/js/scan.js:96-129 | level shoulders with the left one on the right read 45 as written |
| Scan.SummarizeMetrics | assets/js/scan.js:158-171 | each recommendation appears exactly when its metric is finite and over its threshold (5 degrees, 0.15, 0.08); nothing else appears, and none twice |
| Scan.SamplesOf | assets/js/scan.js:668 | the extra runs that found a person give in-range samples, no more than there are runs |
| Scan.CollectSamples | assets/js/scan.js:667-668 | the sample loop yields the first result followed by one sample per run that found a person: between 1 and 5 samples |
| Scan.CountZeroIffNone | assets/js/scan.js:669 | no finite samples exactly when every sample is missing |
| Scan.Avg | assets/js/scan.js:669 | the hi-acc `avg`: null exactly when every sample is missing |
| Scan.SumBounds | assets/js/scan.js:669 | samples between lo and hi sum to between lo and hi times their count |
| Scan.AvgWithin | assets/js/scan.js:669 | the average of samples in [lo, hi] is in [lo, hi] |
| Scan.AvgAtLeast | assets/js/scan.js:669 | the average of samples at least lo is at least lo |
| Scan.AvgOfEqualSamples | assets/js/scan.js:669 | averaging equal samples gives that value |
| Scan.HiAccuracyFuse | assets/js/scan.js:670-677 | each fused field (both tilts, forward head, torso difference and both raw tilts) is null exactly when all its samples are; symmetry is always an object |
| Scan.FuseMetrics | assets/js/scan.js:670-674 | the fused tilts and forward head are each null exactly when all their samples are; symmetry is always an object |
| Scan.FuseTorso | assets/js/scan.js:674 | the fused torso difference is null exactly when no sample has one |
| Scan.AvgNoneExactly | assets/js/scan.js:669 | a field's average is null exactly when the field is null in every sample |
| Scan.HiAccuracyFuseInRange | assets/js/scan.js:670-677 | averaging in-range samples gives an in-range record |
| Scan.HiAccuracyInRange | assets/js/scan.js:662-677 | high-accuracy mode gives in-range metrics whatever the extra runs return |
| Scan.GuidedScores | assets/js/scan.js:834-854 | guided scores are absent exactly when no view has keypoints, and otherwise both lie in [0, 100] |
| Scan.UprightFrontLandmarks | assets/js/scan.js:105-108 | `key` finds the landmarks of a concrete front photo |
| Scan.UprightFrontMetrics | assets/js/scan.js:110-156 | that photo has no tilt, no head offset and no torso difference |
| Scan.UprightFrontScoresFull | assets/js/scan.js:834-854 | that photo scores 100 for posture and 100 for symmetry |
| Guided.ViewMetrics | assets/js/scan.js:834-835 | `collectMetrics` plus `filter(Boolean)`: at most one in-range record per view; empty exactly when no view has keypoints |
| Guided.SingleViewMetrics | assets/js/scan.js:834-835 | a single view with keypoints contributes its own posture fields |
| Guided.ViewMetricsCons | assets/js/scan.js:834-835 | the first view's records come before those of the remaining views |
| Guided.ViewMetricsAppend | assets/js/scan.js:834-835 | the records of concatenated views are the records of each part in order; with SingleViewMetrics and EmptyViewMetrics this fixes the result for every input: one record per view with keypoints, in view order |
| Guided.EmptyViewMetrics | assets/js/scan.js:834-835 | a view without keypoints contributes no record |
| Guided.FuseViews | assets/js/scan.js:836-849 | the fused record exists exactly when there is at least one view |
| Guided.SumByBounds | assets/js/scan.js:837-842 | per-view values in [lo, hi] sum to between n*lo and n*hi |
| Guided.MeanInRange | assets/js/scan.js:843-849 | the mean of one field over the views lies in that field's range |
| Guided.FusedInRange | assets/js/scan.js:836-849 | fusing in-range views gives tilts in [0, 45], head offset >= 0 and torso in [0, 1] |
| Guided.SingleViewFusesToItself | assets/js/scan.js:836-849 | a single fully populated view fuses to its own values |
| Guided.LevelViewScoresFull | assets/js/scan.js:836-854 | a level, centred, symmetric single view fuses to zeros and scores 100 and 100 |
| Guided.MissingFieldStillCounts | assets/js/scan.js:838-845 | a view without a shoulder tilt still counts in n: 4 and null fuse to 2 |
| Guided.Score | assets/js/scan.js:852 | `score(val, good)`: an integer in [0, 100]; 100 for val <= 0; 0 for val >= good |
| Guided.ScoreMonotone | assets/js/scan.js:852 | a larger error never scores higher |
| Guided.PostureScore | assets/js/scan.js:853 | in [0, 100], and 100 for zero tilts and no head offset |
| Guided.SymmetryScore | assets/js/scan.js:854 | in [0, 100], equal to the torso score, because the outer rounding is a no-op |
| Guided.FallbackPostureScore | assets/js/scan-fallback.js:485 | the fallback posture score is >= 0, at most 100 for a non-negative head offset, and 100 for zero inputs |
| Guided.FallbackSymmetryScore | assets/js/scan-fallback.js:486 | the fallback symmetry score is >= 0, and at most 100 for a non-negative torso difference |
| Guided.SymmetryScoresAgree | assets/js/scan.js:852-854 | for a non-negative torso difference the two copies give the same symmetry score |
| Guided.PixelLuma | assets/js/scan.js:805 | 0.2126 R + 0.7152 G + 0.0722 B of byte channels lies in [0, 255] |
| Guided.LumaSumBounds | assets/js/scan.js:805 | the luma sum of n pixels lies in [0, 255 n] |
| Guided.MeanLuma | assets/js/scan.js:805 | NaN exactly for an empty buffer, otherwise in [0, 1] |
| Guided.QuickLuma | assets/js/scan.js:805 | the pixel loop over the RGBA array computes the mean luma |
| Guided.CenterDetect | assets/js/scan.js:806 | `centerDetect`: present exactly when both shoulders pass `key`, at their midpoint |
| Guided.FallbackCenter | assets/js/scan-fallback.js:472-474 | the fallback framing point: present exactly when both shoulders occur, with no gate |
| Guided.ViewIssues | assets/js/scan.js:822-829 | dark exactly below 0.25, bright exactly above 0.95, no person exactly when there are no keypoints, off-centre exactly when the centre fraction is outside [0.3, 0.7] |
| Guided.NeverDarkAndBright | assets/js/scan.js:822-823 | no view is reported both too dark and too bright |
| ScanFallback.ComputeMetrics | assets/js/scan-fallback.js:131-147 | fallback `computeMetricsFromKeypoints`: in-range posture fields, a limb record always present with both diffs in [0, 1], and presence as `key` decides |
| ScanFallback.EyeBeforeEar | assets/js/scan-fallback.js:134-140 | without a nose this copy takes the left eye before the left ear |
| ScanFallback.Adapt | assets/js/scan-fallback.js:176-182 | each table entry gives at most one keypoint, named, with no part and with a score |
| ScanFallback.ToKeypointsFromMediaPipe | assets/js/scan-fallback.js:174-183 | null exactly for a non-array; otherwise at most 17 keypoints, and none bearing the name of a landmark that is absent |
| ScanFallback.AdaptedLookup | assets/js/scan-fallback.js:176-182 | looking up a name finds the landmark at that name's index, with score = visibility or 0.9 |
| ScanFallback.KeySkipsOtherNames | assets/js/scan-fallback.js:129 | keypoints with other names before the match do not change the lookup |
| ScanFallback.ShoulderLookupUsesLandmark11 | assets/js/scan-fallback.js:178 | "left_shoulder" is read from MediaPipe landmark 11 |
| ScanFallback.HipLookupUsesLandmark24 | assets/js/scan-fallback.js:178 | "right_hip" is read from MediaPipe landmark 24 |
| ScanFallback.AbsentLandmarkGivesNoKeypoint | assets/js/scan-fallback.js:176-182 | a name whose every table entry points at an absent landmark names no adapted keypoint |
| ScanFallback.AbsentLandmarksGiveNoKeypoints | assets/js/scan-fallback.js:176-182 | for each of the 17 MediaPipe names, an absent landmark leaves no keypoint of that name |
| ScanFallback.GuidedViewIssuesAsWritten | assets/js/scan-fallback.js:471-474 | "no person detected" exactly when no keypoints were found; with a positive photo width and both shoulders, "please center your body" exactly when the centre is below 0.3 or above 0.7 of the photo's natural width |
| ScanFallback.GuidedViewIssues | assets/js/scan-fallback.js:471-474 | "no person detected" exactly when no keypoints were found; "please center your body" exactly when both shoulders are found and their centre is below 0.3 or above 0.7 of the estimation width |
| ScanFallback.EstimationSize | assets/js/scan-fallback.js:188-191 | width min(720, srcW), or 720 when srcW is 0, so exactly 720 for any wider source; height within 0.5 of targetW/srcW*srcH (targetW when srcH is 0) |
| ScanFallback.ScaleToCanvas | assets/js/scan-fallback.js:200 | in place, each keypoint's x becomes x*targetW and its y becomes y*targetH; nothing changes when a side is 0 |
| ScanFallback.RescaleForOverlay | assets/js/scan-fallback.js:218-225 | rescales only when a non-zero recorded size differs from (w, h); keeps the count, the scores and the labels; positions scale by w/inp.w and h/inp.h |
| ScanFallback.EstimateThenRescaleAligns | assets/js/scan-fallback.js:200-225 | estimation then overlay rescale puts a landmark at normalised (u, v) at (u*w, v*h) |
| ScanFallback.NamedScore | assets/js/scan-fallback.js:330-332 | a name's score (that of the first keypoint with the name, a missing keypoint or falsy score counting as 0) lies in [0, 1] when the run's scores do |
| ScanFallback.RunScore | assets/js/scan-fallback.js:330-334 | a run's shoulder+hip score lies in [0, 4] when its scores lie in [0, 1] |
| ScanFallback.Kept | assets/js/scan-fallback.js:327-329 | the kept runs are non-empty successful results, and every non-empty successful result is among them |
| ScanFallback.Best | assets/js/scan-fallback.js:335-336 | `runs[0] \|\| []` after the sort: `[]` for no runs, otherwise one of the runs |
| ScanFallback.BestIndexFirstMaximal | assets/js/scan-fallback.js:335-336 | the chosen run scores at least as high as every run and strictly higher than every earlier one, as the head of a stable descending sort does |
| ScanFallback.BestOfKeptEmpty | assets/js/scan-fallback.js:327-336 | the best of the kept runs is `[]` exactly when no run succeeded with keypoints |
| ScanFallback.KeepRuns | assets/js/scan-fallback.js:327-329 | the kept runs are exactly `Kept` of the results: the non-empty successful runs, in run order, each as often as it was returned |
| ScanFallback.BestOfN | assets/js/scan-fallback.js:335-336 | the result is `Best` of the runs: `[]` with no runs; otherwise a run of maximal score with no earlier run scoring as high (the stable sort's head) |
| ScanFallback.GuidedScoresInRange | assets/js/scan-fallback.js:479-486 | the fallback's guided scores lie in [0, 100] whatever the views |
| ScanFallback.EstimationWidth | assets/js/scan-fallback.js:190 | the estimation canvas width is positive |
| ScanFallback.CentredWidePhotoFlaggedAsWritten | assets/js/scan-fallback.js:474 | as written, a person centred in a 1440x1920 photo is told to centre themselves; the corrected check accepts them |
| ScanFallback.FramingIndependentOfPhotoSize | assets/js/scan-fallback.js:472-474 | corrected check: off-centre exactly when the shoulders' centre fraction is outside [0.3, 0.7], whatever the photo size |
| ScanFallback.FramingAtWidth | assets/js/scan-fallback.js:474 | a centre at fraction c of a positive width is off-centre exactly when c is outside the band |
| ScanFallback.ShoulderCentre | assets/js/scan-fallback.js:472-474 | shoulders at fractions lu and ru of the width have their centre at fraction (lu+ru)/2 |
| Hull.ConfidentPoints | assets/js/scan-fallback.js:238 | the filter keeps no more points than there are keypoints |
| Hull.ConfidentPointsMembers | assets/js/scan-fallback.js:238 | the points are exactly the positions of the keypoints whose score is missing or >= 0.4 |
| Hull.Insert | assets/js/scan-fallback.js:241 | one insertion step adds exactly one point (as a multiset) |
| Hull.InsertSorted | assets/js/scan-fallback.js:241 | inserting into a sorted sequence keeps it sorted |
| Hull.SortLex | assets/js/scan-fallback.js:241 | the sort is a permutation of the points |
| Hull.SortLexSorted | assets/js/scan-fallback.js:241 | the sort's result is ordered by x, then y |
| Hull.SortedArrangementUnique | assets/js/scan-fallback.js:241 | two sorted permutations of the same points are equal, so any correct sort gives the same order |
| Hull.PopNonLeftTurns | assets/js/scan-fallback.js:242 | the pop loop leaves a prefix of the stack whose last two points turn left towards p |
| Hull.PushPoint | assets/js/scan-fallback.js:242 | one step pops a top part of the stack and pushes the point, keeping the stack an ordered subsequence of the input with only left turns |
| Hull.BuildChain | assets/js/scan-fallback.js:242-243 | a chain is an ordered subsequence of its input, turns left at every triple, and runs from the first point to the last |
| Hull.Reverse | assets/js/scan-fallback.js:243 | the descending-index traversal visits the points in reverse |
| Hull.SilhouetteOutline | assets/js/scan-fallback.js:238-253 | no outline below 3 confident points; an outline has at least 3 points, all confident keypoint positions, and starts at the leftmost and contains the rightmost sorted point |
| Hull.ChainOutline | assets/js/scan-fallback.js:242-244 | the joined chains use only sorted points, start with the first and contain the last |
| Hull.OutlineFacts | assets/js/scan-fallback.js:244 | dropping each chain's last point and joining keeps these facts |
| Overlay.Label | assets/js/scan.js:421 | `k.name \|\| k.part`: the name unless it is missing or empty |
| Overlay.BuildIndex | assets/js/scan.js:420-421 | the `kpBy` map holds every label; each label maps to the last keypoint with that label |
| Overlay.SegmentsOf | assets/js/scan.js:445-455 | a segment is emitted only when both endpoints are indexed, and every such pair is emitted |
| Overlay.SkeletonSegments | assets/js/scan.js:445-455 | the drawing loop emits exactly the filtered twelve pairs |
| Overlay.Dots | assets/js/scan.js:458 | a dot for every keypoint unless its score is below 0.3, and nothing else |
| Overlay.BadgePosition | assets/js/scan.js:424-428 | the badge is clamped to x >= 6 and y >= 12, inside the canvas when it fits, and unmoved when already inside |
| Session.ParseFileKey | assets/js/scan-fallback.js:295 | the name part of a parsed key is shorter than the key |
| Session.ParseFileKeyRoundTrip | assets/js/scan-fallback.js:295 | the cache id reads back as name, size and modification time (0 when missing) |
| Session.FileKeyInjective | assets/js/scan-fallback.js:295 | two files share a cache id exactly when name, size and modification time (missing as 0) agree |
| Session.FallbackSession.constructor | assets/js/scan-fallback.js:296-298 | the session starts with an empty cache and empty skip sets |
| Session.FallbackSession.DeleteImagePreview | assets/js/scan-fallback.js:299 | the delete button adds the image's id to `skipImages` and changes nothing else |
| Session.FallbackSession.DeleteVideoPreview | assets/js/scan-fallback.js:300 | the delete button adds the video's id to `skipVideos` and changes nothing else |
| Session.FallbackSession.Clear | assets/js/scan-fallback.js:445 | `fallbackClear` empties both skip sets and keeps the cache |
| Session.FallbackSession.CachedEstimate | assets/js/scan-fallback.js:320-338 | a cached id, even one cached as `[]`, is returned without estimating; otherwise the best of the three runs (`Best` of `Kept`) is returned and cached under the id |
| Session.FallbackSession.AnalyzeImages | assets/js/scan-fallback.js:308-340 | skipped files are never analysed; old cache entries are kept; the new keys are exactly the estimated files' ids, each cached with the best of its three runs; a result is a file whose every earlier file not skipped is cached as `[]`, and no file after it was estimated; no result means every file not skipped is cached as `[]` |
| Session.FallbackSession.EstimateVideo | assets/js/scan-fallback.js:351-361 | one video's keypoints are the best of its two runs, and when non-empty one of those runs |
| Session.FallbackSession.AnalyzeVideos | assets/js/scan-fallback.js:343-364 | a video result comes from a video that is not skipped and has a non-zero frame, is the best of its two runs and non-empty, and every earlier such video had an empty best; no result means every such video had an empty best |
| Session.FallbackSession.Analyze | assets/js/scan-fallback.js:308-367 | nothing to analyse exactly when every input was deleted; while an image is left, detection is decided by the images alone (the first one cached with keypoints, none detected exactly when all are cached as `[]`); otherwise by the videos with the cache untouched (the first eligible video with a non-empty best, none detected exactly when there is none); the skip sets and old cache entries are kept |
| Text.NatToString | assets/js/scan-fallback.js:295 | the decimal text of a number is non-empty and all digits |
| Text.ParseNatToString | assets/js/scan-fallback.js:295 | parsing the decimal text gives the number back |
| Text.NatToStringInjective | assets/js/scan-fallback.js:295 | different numbers have different decimal texts |
| Text.Join | assets/js/main.js:189 | `join`: empty for no parts, the part itself for one; otherwise it starts with the first part and ends with the last |
| Text.LastIndexBeforeDigits | assets/js/scan-fallback.js:295 | in a key, the last separator is the one before the digit-only tail |
| BodyData.GetScanInputs | assets/js/scan.js:305-323 | sex defaults to "male"; age is null when falsy; metric height and weight only when positive; imperial height when feet or inches are non-zero, converted at 2.54 cm per inch; pounds converted at 0.45359237 |
| BodyData.UnitSystemsAgreeOnHeight | assets/js/scan.js:312-321 | the same stature in cm or in ft/in gives the same height in metres |
| BodyData.ComputeBMI | assets/js/scan.js:325-328 | null exactly when height or weight is missing or 0; otherwise BMI times height squared is the weight |
| BodyData.BodyFatPercent | assets/js/scan.js:330-336 | null exactly for a missing BMI; otherwise in [3, 60], the unclamped estimate (within rounding) when that is in range, 3 exactly when the estimate is below 3.5 and 60 exactly when it is at least 59.5 |
| BodyData.ClampInt | assets/js/scan.js:335 | `Math.max(3, Math.min(60, n))` lies in [3, 60] and keeps n inside |
| BodyData.BodyFatMonotoneInBmi | assets/js/scan.js:334-335 | a higher BMI never lowers the estimate |
| BodyData.BodyFatMaleNotAbove | assets/js/scan.js:332-335 | for equal BMI and age, "male" never estimates higher |
| BodyData.BodyFatDefaultAge | assets/js/scan.js:333 | a missing age is taken as 30 |
| BodyData.BodyFatLabel | assets/js/scan.js:335 | the label exists exactly for a present BMI, and ends in `%` |
| Calculators.Measure | assets/js/main.js:45-58 | rejects falsy metric height or weight, or imperial feet and inches both falsy, or falsy pounds; accepts (cm, kg) as entered, or ((ft*12 + in)*2.54, lb*0.45359237) with a missing feet or inches field as 0; an accepted weight is non-zero |
| Calculators.UnitsAgree | assets/js/main.js:56-57 | an imperial form and its metric conversion measure the same body |
| Calculators.Category | assets/js/main.js:60-64 | the `<` chain at 18.5, 25 and 30 in both directions; NaN falls through to Obese |
| Calculators.CategoryMonotone | assets/js/main.js:60-64 | a higher BMI never falls into a lower category |
| Calculators.CalcBMI | assets/js/main.js:42-66 | the message exactly when the form is rejected; otherwise BMI times height squared is the weight, and the category matches |
| Calculators.BmiUnitsAgree | assets/js/main.js:42-66 | the same body gives the same BMI in either unit system |
| Calculators.CalcBMR | assets/js/main.js:70-94 | the age message first, then the body message; otherwise 10w + 6.25h - 5a + (5 or -161), with TDEE = BMR times the activity when it is a number |
| Calculators.SexGap | assets/js/main.js:91 | "male" is 166 kcal above any other value |
| Calculators.AgeAndWeightSteps | assets/js/main.js:91 | one year lowers the estimate by 5 kcal; one kilogram raises it by 10 |
| Calculators.BmrUnitsAgree | assets/js/main.js:70-94 | the BMR outcome does not depend on the unit system |
| Workout.MakeSplit | assets/js/main.js:148-156 | 3 to 6 entries for 3 to 6 days, a single `["fullbody"]` otherwise, no day without tags |
| Workout.ResolveGroups | assets/js/main.js:158-171 | always catalogue groups; a group tag maps to itself; unknown tags map to `["fullbody"]` |
| Workout.FiveDaySplitArmTags | assets/js/main.js:152-170 | the 5-day split's "triceps" and "biceps" resolve to "fullbody" |
| Workout.ResolveAll | assets/js/main.js:182 | `flatMap(resolveGroups)` gives only catalogue groups |
| Workout.FirstIndex | assets/js/main.js:183 | the first occurrence of an element |
| Workout.Dedup | assets/js/main.js:183 | `[...new Set(s)]`: distinct, the same elements, in first-occurrence order |
| Workout.SetsReps | assets/js/main.js:176-179 | muscle 4 x 8-12, fatloss 3 x 12-15, endurance 3 x 15-20, otherwise 3 x 10-12 |
| Workout.GroupExercises | assets/js/main.js:186-187 | min(3, catalogue size) exercises: the first catalogue entries in order with the goal's sets and reps, so none for an unknown group or equipment |
| Workout.Prescribe | assets/js/main.js:187 | one exercise per listed name, with the group and the goal's sets and reps |
| Workout.DayExercisesFacts | assets/js/main.js:185-188 | every exercise of a day has the goal's sets and reps and one of the day's groups |
| Workout.AtMostThreePerGroup | assets/js/main.js:183-188 | with distinct groups a day holds at most 3 exercises of any group |
| Workout.NoExercisesOfAbsentGroup | assets/js/main.js:185-188 | a day has no exercise of a group it does not train |
| Workout.UnknownEquipmentGivesEmptyDays | assets/js/main.js:186 | unknown equipment gives days without exercises |
| Workout.UnknownEquipmentLookup | assets/js/main.js:110-146 | the catalogue has entries only for bodyweight, dumbbells and gym |
| Workout.GeneratePlan | assets/js/main.js:173-192 | one entry per split day, in order, labelled "Day i", with the joined tags and the day's exercises |
| Workout.PlanDays | assets/js/main.js:181-190 | the day loop builds exactly that list |
| Workout.DayPlan | assets/js/main.js:184-188 | the group loop builds exactly the day's exercises |
| Workout.PushGroup | assets/js/main.js:187 | the inner loop appends exactly the group's prescribed exercises |
| Nutrition.Numbers | assets/js/main.js:338-341 | `Number(v) \|\| 0`: every field becomes a number and numbers are kept |
| Nutrition.NewMeal | assets/js/main.js:334-341 | the new meal keeps its id, defaults its name to "Meal" and its amounts to numbers |
| Nutrition.WithoutId | assets/js/main.js:301 | `filter(x => x.id !== id)`: no meal with the id remains, and every other meal does |
| Nutrition.WithoutIdSnoc | assets/js/main.js:301 | filtering keeps a last meal exactly when its id differs |
| Nutrition.WithoutAbsentId | assets/js/main.js:301 | deleting an id that no meal carries changes nothing |
| Nutrition.DeleteUndoesAdd | assets/js/main.js:301-342 | deleting a just-added meal under a fresh id restores the list |
| Nutrition.NutritionTracker.constructor | assets/js/main.js:255 | the tracker starts from the loaded records |
| Nutrition.NutritionTracker.GetDayData | assets/js/main.js:260-263 | a zeroed day is inserted only for an absent date; an existing day is returned unchanged |
| Nutrition.NutritionTracker.SaveGoals | assets/js/main.js:320-329 | the day's goals become the entered numbers; meals and other dates are untouched |
| Nutrition.NutritionTracker.AddMeal | assets/js/main.js:331-348 | exactly one meal is appended to the day; other dates are untouched |
| Nutrition.NutritionTracker.DeleteMeal | assets/js/main.js:299-305 | the day loses exactly the meals with the id, the rest in order; other dates are untouched |
| Nutrition.NutritionTracker.ResetDay | assets/js/main.js:350-355 | only the chosen date is replaced by a fresh day |
| Nutrition.NutritionTracker.Import | assets/js/main.js:374 | imported dates overwrite; every other date stays |
| Nutrition.TotalsAfterAdd | assets/js/main.js:266-271 | adding a meal adds exactly its amounts to the totals |
| Nutrition.Goal | assets/js/main.js:273-276 | `Math.max(0, Number(g) \|\| 0)`: never negative, and a non-negative goal is kept |
| Nutrition.BarWidth | assets/js/main.js:283-286 | the bar width in [0, 100]: 0 for a zero goal and for a total at or below zero, total/goal*100 while the total is within the goal, 100 once it reaches the goal |
| Nutrition.ProgressBars | assets/js/main.js:265-287 | all four bars in [0, 100], each 0 when its goal is 0 |
| Nutrition.EmptyDayShowsNoProgress | assets/js/main.js:261-287 | a fresh day shows four empty bars |

## Left out

- Detector bootstrap, library loading and CDN fallbacks (`ensureDetector`, `loadScript`, `importModule`, `resolvePoseDetection`, `createDetector*`, `ensureMediaPipePose`) are network and foreign-library code.
- The pose estimator is a parameter. The model receives its outputs: keypoint sequences, or a function from file and run number to an optional run.
- Timeouts, `Promise.race`, image and video decoding, event wiring and `window.__fitlife_*` globals are not modelled. A recorded estimation size is passed to the overlay rescale as an argument.
- Canvas output, fonts, colours, `measureText`, corner text, ideal lines, title, HTML cards, status strings and `toFixed` formatting are not modelled. A badge's text width is a parameter.
- `Math.atan2` and `Math.hypot` are parameters with only the facts stated above. Floating-point rounding is not modelled: all arithmetic is exact over reals.
- `angleDegrees` is not used by the pipeline.
- localStorage, JSON import/export and download, the baseline and trend code, `loadScanInputs`, the theme, navigation and contact form, and sw.js are storage, I/O and UI.
- Best-of-N selection is modelled as the head of the stable descending sort, which is the only element the source reads. The order of the remaining runs is not modelled.
- The first-image selection of `analyzeAndRender` in scan.js (analyse each image until one has keypoints) is modelled only in the fallback copy's session loop. The scan.js loop is not separately modelled.
- Overlay composition is not modelled. The overlay draws the skeleton from the rescaled keypoints but the dots and the hull from the unscaled ones; the model gives the decisions separately.
- `generatePlan` receives `days` as an integer, so the NaN of a failed `parseInt` is not modelled; it would take the default branch like any other value.
- JavaScript prototype keys (for example `EXERCISES["constructor"]`) are not modelled.
- `Session.FallbackSession.AnalyzeImages` does not state that the estimated files have distinct ids.
- `Scan.SummarizeMetrics` does not state the order of the recommendations (shoulders, hips, head, torso). Only which ones appear, and that none appears twice, is stated.
- `Session.FileKey` carries no ensures of its own. Its properties are stated by `Session.ParseFileKeyRoundTrip` and `Session.FileKeyInjective`.
- Object identity and aliasing (the day object shared between the map and the handlers) are not modelled: days are values, and the map is updated by replacement.
- Imported records are assumed to be well-formed days. Malformed JSON objects are not modelled.
- `Nutrition.NutritionTracker.DeleteMeal` requires the date to be in the map. The delete buttons exist only for a day that `getDayData` has just shown.
- `Guided.FallbackPostureScore` is bounded above only for a non-negative head offset, because that copy does not clamp the decay at 1.

## Findings

| source | as written | input that shows it | evidently intended | confidence | as-written member | corrected member |
|---|---|---|---|---|---|---|
| assets/js/scan-fallback.js:474 | In the guided check, the shoulders' centre is divided by the photo's natural width. When MediaPipe supplies the keypoints (line 470), the centre is in pixels of the estimation canvas, which is at most 720 wide. | A 1440x1920 photo with the shoulders at 0.4 and 0.6 of the width gives estimation x = 288 and 432. The centre 360 / 1440 = 0.25 is flagged "please center your body". | Divide by the width of the image the keypoints refer to (the estimation width), so that the framing verdict depends only on where the body sits in the photo. | not executed | ScanFallback.CentredWidePhotoFlaggedAsWritten (with ScanFallback.GuidedViewIssuesAsWritten) | ScanFallback.FramingIndependentOfPhotoSize (with ScanFallback.GuidedViewIssues) |
