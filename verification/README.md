# Verification of the RKNN camera server's decision logic

A Dafny 4.11 model, with proofs, of the parts of the repository that decide something: the two
assignment solvers, the two multi-object trackers, the capture / inference / encode pipeline with
its thread pool, detection post-processing, the Kalman filter and the IDR gate in front of the
RTSP sink. `dafny verify dfyconfig.toml` checks the whole project.

## What is modelled

Costs, prices, scores, coordinates and variances are `real`; indices and ids are mathematical
integers. Code that updates arrays in place keeps its arrays and loops; the solver of `munkres.h`,
both trackers, the gallery, the Kalman estimate and the RTSP source are classes over their fields.
The thread pool, the pipeline and the IDR gate run on several threads and are state machines whose
runs are arbitrary interleavings of atomic steps.

* `Assignment` states what both solvers promise: permutations, total cost, optimality, and the
  certificate (prices under which every row sits at its cheapest column) that proves it.
* `Lapjv`, `ShortestPath`, `LapjvSolver` are `lapjv.cpp`, function by function: column reduction,
  augmenting row reduction, the shortest-path search with its price update, the augmentation.
* `PartialMatching`, `ByteAssignment` are the reduction of `BYTETracker::lapjv` from a thresholded
  partial matching to a perfect matching on a (rows + cols) square, and `linear_assignment`.
* `MunkresState`, `Munkres`, `MunkresSolver`, `Hungarian` are `munkres.h`: the five steps on masks
  and covers, the step loop, padding and reading back.
* `ByteLists`, `ByteRounds`, `ByteTracker` are `BYTETracker::update` and its list helpers. Tracks
  reached through pointers are references into the tracked or the lost list. `ByteOrigin` says
  field by field where every track of a frame comes from, and `ByteReturn` is about tracks marked
  removed that come back.
* `DeepAssignment`, `Cascade`, `DeepTracks`, `DeepTracker`, `DeepMachine` are the DeepSORT tracker:
  minimum-cost matching, the matching cascade, the feature gallery, `_match`, `update`, `predict`.
  `GalleryRun` says what the gallery holds for every track of every run, and
  `LostTracks` how long a track is remembered.
* `ThreadPool` is `ThreadPool.h`; `Pipeline` is `TransCoder::run` on top of it.
* `PostProcess`, `Suppression` are the quicksort, the suppression passes and the output loop;
  `ImageBox` says what a reported box means in the image and what the overlap measures.
* `IdrGate` is `CamFramedSource`, as interleaved steps and as an object.
* `Kalman` is the filter of ByteTrack on 8-by-8 matrices, next to four two-state filters.

What the trackers compute from boxes (filter start, prediction and correction, appearance and IoU
distances) enters them as arbitrary functions; distances are non-negative, and IoU distances of
ByteTrack lie below the solver's constant 1000000.

## What the code does that its names do not say

* `BYTETracker::lapjv` in its square mode without a limit never copies the solver's answer out:
  `rowsol` and `colsol` keep their zero fill, which is an optimal assignment only of a 1-by-1
  matrix (`ByteAssignment.ZeroFillIsOptimalOnlyForOne`). No caller in the repository uses that mode.
* The feature gallery is not a sliding window. Stored rows are the last ones of old and new together
  if and only if there was room left, or the rows that had to move equal their neighbours
  (`DeepTracks.SlidesIff`, `DeepTracks.OneRowSlidesIff` for one new row). In every run, for every
  confirmed track, the gallery holds the features of its first budget - 1 detections and of its last
  one (`GalleryRun.EveryRun`, `GalleryRun.GalleryOf`): it is full from budget hits on, and it is the
  window of the last features if and only if the first ones repeat there. `GalleryRun.OneObject` is a
  run that fills it.
* `nms` compares the class at the sorted position, not the candidate's class, and never looks at
  the class of the box it erases. `Suppression.ClosedForm` says for every input which boxes go. Two
  boxes of different classes can cost the second its place (`Suppression.CrossClassWitness`), and a
  box can go because of one that a later pass erases (`Suppression.LaterPassWitness`; both inputs
  go through the loop in `Suppression.MixedClasses`). The result is greedy suppression across all
  classes, or greedy suppression within each box's own class, if and only if no box that the rule
  keeps has an acting one before it that overlaps it too much (`Suppression.GreedyIff`, for either
  rule). For that it is enough that classes ascend along overlapping pairs and, for the second rule,
  that such pairs have one class (`Suppression.SortedClassesGreedy`). This one goes one way only:
  classes out of order do no harm when the second box of the pair strikes nothing
  (`Suppression.UnsortedWitness`). Survivors are far apart whatever their classes.
* A ByteTrack track marked removed stays in the lost list for one more frame; the age bound on lost
  tracks therefore has one extra frame. In that frame it comes back if and only if the first round
  matches it (`ByteReturn.RemovedReturnsIff`), and outlives the frame if and only if, besides, no
  lost track that has lived at least as long is its duplicate (`ByteReturn.RemovedOutlivesIff`).
  `ByteReturn.RemovedReturns` is a whole run in which one returns, for every frame rate, buffer and
  thresholds: it is detected, missed until removed, and detected again near where it is expected.
* With fewer capture buffers than inference threads the main loop can wait for a frame for ever
  while every buffer is held by a job nobody collects. `init` lets such configurations through.
  The number of buffers is the one the driver grants, which may differ from the one asked for:
  `Pipeline.GrantedStarves` lists the cases by the number granted, `Pipeline.ClampedStarves` by the
  configured one, for a driver that grants exactly what it is asked. From every state a stop
  request still leads out, to the end of the drain (`Pipeline.CanClose`).
* Reported boxes are cut to whole model pixels before they are scaled back. A box of the image comes
  back in its place if and only if the scale takes its corners to whole model pixels; otherwise its
  corners come back smaller, by less than 1 + 1 / scale (`ImageBox.RoundTripIff`,
  `ImageBox.CornerBackIff`). At half size the image coordinate 3 is reported as 2
  (`ImageBox.RoundTripWitness`).
* The event that announces a frame to the sink can come after `doGetNextFrame` has handed the frame
  over. `deliverData` then takes the front of an empty buffer, exactly when data is awaited and
  none is there (`IdrGate.CamFramedSource.DeliverData`, `IdrGate.LateEvent`).

## Model

| member | source | states |
|---|---|---|
| Assignment.CertifiedOptimal | src/bytetrack/lapjv.cpp:252-272 | prices under which every row sits at its cheapest column prove a permutation cheapest of all permutations |
| Assignment.Surjective | src/bytetrack/lapjv.cpp:226-250 | an injective assignment of n rows to n columns misses no column |
| Assignment.PermutedSum | src/bytetrack/lapjv.cpp:213-218 | prices summed along any permutation give the same total, so prices never change which assignment is cheapest |
| Lapjv.ScanColumns | src/bytetrack/lapjv.cpp:14-27 | each price is its column's minimum and y names a row that attains it |
| Lapjv.ClaimRows | src/bytetrack/lapjv.cpp:28-42 | a column either claims its cheapest row or stays free and shares that row with the column that claimed it |
| Lapjv.TransferStep | src/bytetrack/lapjv.cpp:47-58 | lowering a column's price by its row's slack keeps every claimed row at its minimum |
| Lapjv.TransferReduction | src/bytetrack/lapjv.cpp:43-61 | reduction transfer lists exactly the unclaimed rows and leaves every other row at its minimum |
| Lapjv.ColumnReduction | src/bytetrack/lapjv.cpp:8-62 | afterwards x and y are inverse off the listed free rows, every other row is at its minimum, free columns are priced at their minimum |
| Lapjv.TwoCheapColumns | src/bytetrack/lapjv.cpp:80-97 | two columns always stay below LARGE in a free row, which is why the cap of the scan is harmless |
| Lapjv.SmallestTwo | src/bytetrack/lapjv.cpp:80-97 | the scan finds the cheapest and the second cheapest column of the row |
| Lapjv.TakeColumn | src/bytetrack/lapjv.cpp:98-120 | a row may take its cheapest column at a lower price; the displaced row becomes free and nothing else changes |
| Lapjv.ReduceRow | src/bytetrack/lapjv.cpp:78-120 | one row of the pass keeps every non-free row at its minimum although the displaced row's x entry stays stale |
| Lapjv.Requeue | src/bytetrack/lapjv.cpp:102-118 | a displaced row is put back before `current` or parked in the prefix, never over an unprocessed entry; both parts together list exactly the free rows |
| Lapjv.AugmentingRowReduction | src/bytetrack/lapjv.cpp:64-123 | terminates for every input and keeps inverse assignment, minimality and the free list |
| ShortestPath.FindDense | src/bytetrack/lapjv.cpp:125-141 | gathers exactly the unlisted columns at the least distance right behind lo and permutes nothing before it |
| ShortestPath.NoShortcut | src/bytetrack/lapjv.cpp:143-176 | because held rows are at their minimum, no relaxation goes below the current level |
| ShortestPath.RelaxColumn | src/bytetrack/lapjv.cpp:155-172 | one relaxation keeps distances, predecessors and column order consistent, or ends the search with a certificate |
| ShortestPath.ScanDense | src/bytetrack/lapjv.cpp:143-176 | scans the level to its end, or returns early with a certificate and the old lo and hi |
| ShortestPath.StillOpen | src/bytetrack/lapjv.cpp:189-212 | while a row is free the list never fills up, so the search reaches a free column |
| ShortestPath.UpdatePrices | src/bytetrack/lapjv.cpp:213-218 | exactly the columns nearer than the last level are repriced, by their distance to it |
| ShortestPath.TreeOf | src/bytetrack/lapjv.cpp:213-221 | after the price update every assigned row is still at its minimum and every edge of the predecessor tree is tight |
| ShortestPath.FindPath | src/bytetrack/lapjv.cpp:178-224 | always reaches a free column, along a predecessor tree whose edges are tight at the new prices |
| ShortestPath.DistanceIsLowerBound | src/bytetrack/lapjv.cpp:143-224 | no alternating path is shorter than the reported distance |
| ShortestPath.DistanceIsAttained | src/bytetrack/lapjv.cpp:143-224 | a reported distance is the length of an alternating path |
| ShortestPath.DistancesAreShortest | src/bytetrack/lapjv.cpp:178-224 | d holds true shortest alternating-path lengths on every column up to the final level |
| LapjvSolver.ShiftHole | src/bytetrack/lapjv.cpp:236-246 | each swap of the predecessor walk moves the unassigned row strictly down the tree |
| LapjvSolver.AugmentAlong | src/bytetrack/lapjv.cpp:231-247 | the walk ends at the free row with exactly that row assigned in addition; its swaps are the columns on the predecessor walk, at most n |
| LapjvSolver.ChainHops | src/bytetrack/lapjv.cpp:231-247 | on the chain of rows, whatever tree a search leaves, the walk from a column visits every column before it |
| LapjvSolver.EnteredSize | src/bytetrack/lapjv.cpp:252-272 | a search state with all that column and row reduction leave has at least two rows |
| LapjvSolver.LongestWalk | src/bytetrack/lapjv.cpp:231-247 | the bound n is tight for the search alone: for every n a legal state, for n >= 2 one with all that the earlier phases are proved to leave, whose search yields prices, tree and free column with a walk of exactly n swaps |
| LapjvSolver.AugmentAll | src/bytetrack/lapjv.cpp:226-250 | afterwards no row is free and every row is at its minimum |
| LapjvSolver.LapjvInternal | src/bytetrack/lapjv.cpp:252-272 | for every n >= 1 and every matrix with entries in [0, LARGE): returns 0, x and y inverse permutations, of least total cost over all permutations |
| PartialMatching.CutCost | src/bytetrack/BYTETracker.cpp:450-479 | the cost of a permutation of the enlarged matrix is a constant plus the excess over the limit of the matching it cuts back to |
| PartialMatching.CompletionIsPermutation | src/bytetrack/BYTETracker.cpp:450-505 | every partial matching is the cut of some permutation of the enlarged matrix |
| PartialMatching.OptimalCutsToMinimal | src/bytetrack/BYTETracker.cpp:431-523 | an optimal permutation of the enlarged matrix cuts back to a partial matching of least total cost minus limit over all partial matchings |
| PartialMatching.MatchesWithinLimit | src/bytetrack/BYTETracker.cpp:431-523 | no reported match costs more than the limit |
| PartialMatching.UnmatchedBeyondLimit | src/bytetrack/BYTETracker.cpp:431-523 | no row and column both left unmatched cost less than the limit |
| PartialMatching.CutsAreMutual | src/bytetrack/BYTETracker.cpp:498-505 | rowsol and colsol name each other |
| ByteAssignment.MaxCost | src/bytetrack/BYTETracker.cpp:461-465 | the padding scan finds the largest cost, or -1 |
| ByteAssignment.FillExtended | src/bytetrack/BYTETracker.cpp:451-476 | the three fill loops leave costs, padding and the zero corner in their places |
| ByteAssignment.SolveThresholded | src/bytetrack/BYTETracker.cpp:431-523 | with an enlarged matrix: a matching minimal for the limit, or for twice the largest cost plus two without one, mutually inverse, and its cost if asked for; without: the zero fill; rejects exactly the non-square matrices it may not enlarge |
| ByteAssignment.ZeroFillIsOptimalOnlyForOne | src/bytetrack/BYTETracker.cpp:439-515 | the zero fill of the square mode is an optimal assignment if and only if n is 1 |
| ByteAssignment.LinearAssignment | src/bytetrack/BYTETracker.cpp:318-350 | matches, unmatched rows and unmatched columns are read off one minimal thresholded matching, each list increasing and complete; an empty matrix leaves everything unmatched |
| MunkresState.AllStarred | inc/deepsort/munkres.h:146-157 | stars in every row of the reduced matrix are an optimal assignment of the original one |
| MunkresState.FlipKeepsStars | inc/deepsort/munkres.h:208-213 | flipping stars and primes along the walk keeps stars on zeros, one to a column, and adds exactly one |
| Munkres.FindUncoveredZero | inc/deepsort/munkres.h:110-122 | finds an uncovered zero if and only if there is one |
| Munkres.StarGreedily | inc/deepsort/munkres.h:129-145 | step 1 stars zeros, no two in a row or column, greedily: each row takes its first zero in a column without a star above it |
| Munkres.CoverStars | inc/deepsort/munkres.h:146-157 | step 2 covers exactly the starred columns and counts the stars |
| Munkres.FindPath | inc/deepsort/munkres.h:173-207 | step 4's walk alternates stars and primes without repeating a cell, ends in a column without a star, and terminates |
| Munkres.FlippedMarks | inc/deepsort/munkres.h:208-217 | the flipped and cleaned mask holds exactly the flipped stars and no prime |
| Munkres.SmallestUncovered | inc/deepsort/munkres.h:222-235 | step 5 finds the least uncovered non-zero entry, capped at 100000 |
| MunkresSolver.MinimizeAlong | inc/deepsort/munkres.h:93-108 | every line loses one amount and the matrix stays non-negative |
| MunkresSolver.PrimeAndCover | inc/deepsort/munkres.h:158-172 | priming a zero in a starred row covers that row, uncovers the star's column and keeps every star covered exactly once |
| MunkresSolver.PrimeAndAugment | inc/deepsort/munkres.h:158-172 | priming a zero in a row without a star gives step 4 what it needs |
| MunkresSolver.FlipMachine | inc/deepsort/munkres.h:173-221 | step 4 adds one star and clears primes and covers |
| MunkresSolver.ShiftMachine | inc/deepsort/munkres.h:222-251 | step 5 changes prices only: the matrix stays a non-negative reduction of the costs, stars and primes stay on zeros |
| MunkresSolver.GapShrinks | inc/deepsort/munkres.h:222-251 | step 5 makes progress in spite of the cap: it uncovers a new zero or brings a never-covered entry 100000 closer to zero |
| MunkresSolver.Solver.Dispatch | inc/deepsort/munkres.h:42-50 | every step keeps the solver's invariant and decreases the measure: stars, phase, covered rows, distance to an uncovered zero |
| MunkresSolver.Solver.RunSteps | inc/deepsort/munkres.h:41-50 | the step loop terminates with a star in every row |
| Hungarian.OptimalCutsToCheapest | inc/deepsort/munkres.h:26-30 | padding to a square with the largest entry preserves meaning: an optimal square assignment cuts back to a cheapest full matching of the rectangle |
| Hungarian.FullExtends | inc/deepsort/munkres.h:26-30 | every full matching of the rectangle is the cut of some assignment of the square |
| Hungarian.Solve | inc/deepsort/munkres.h:23-64 | for every non-negative matrix of any shape: terminates, and the zeros of the answer form a cheapest full matching of the original matrix |
| Hungarian.FullSize | inc/deepsort/munkres.h:51-61 | that matching has exactly min(rows, columns) cells |
| Hungarian.SolvePairs | src/deepsort/hungarianoper.cpp:3-31 | the pairs are the cells of a cheapest full matching, in row order |
| ByteLists.Joint | src/bytetrack/BYTETracker.cpp:254-270 | the first list, then in order every entry of the second whose id neither list has had so far; ids are the union and stay distinct |
| ByteLists.Sub | src/bytetrack/BYTETracker.cpp:272-284 | exactly the entries whose id is not in the second list, in order |
| ByteLists.RemoveDuplicates | src/bytetrack/BYTETracker.cpp:286-316 | a tracked track goes exactly if a lost one within 0.15 has frame - start at least as large, a lost one exactly if a tracked one within 0.15 has it larger; both lists keep their order |
| ByteLists.NoDuplicateSurvives | src/bytetrack/BYTETracker.cpp:286-316 | no surviving tracked / lost pair is closer than 0.15, and only members of such pairs are dropped |
| ByteLists.ClusterKeepsEldest | src/bytetrack/BYTETracker.cpp:286-316 | every cluster of duplicates keeps a member of greatest frame - start, a lost one on ties |
| ByteRounds.JointRefs | src/bytetrack/BYTETracker.cpp:236-252 | the pool is the activated tracks and then all lost ones, in order, without repetition |
| ByteRounds.Predict | src/bytetrack/BYTETracker.cpp:72-73 | exactly the pooled tracks are predicted |
| ByteRounds.MatchRound | src/bytetrack/BYTETracker.cpp:75-80 | a round's report is read off a minimal thresholded matching of its IoU distances |
| ByteRounds.ApplyMatches | src/bytetrack/BYTETracker.cpp:82-92 | each matched track is hit by its own detection, nothing else changes, and copies go to the right list |
| ByteRounds.FirstRound | src/bytetrack/BYTETracker.cpp:72-103 | the first round decides its matches, hands the still tracked rest to the second round and the unmatched detections to the third |
| ByteRounds.LaterRound | src/bytetrack/BYTETracker.cpp:105-152 | a later round leaves no track of its pool undecided: matched, or given up and copied |
| ByteTracker.FollowedMembers | src/bytetrack/BYTETracker.cpp:169-177 | every surviving, new and refound track is followed, and no other |
| ByteTracker.FoldedLost | src/bytetrack/BYTETracker.cpp:162-185 | lost entries keep distinct ids apart from the followed ones, and the age bound with its one frame of delay |
| ByteTracker.Gather | src/bytetrack/BYTETracker.cpp:162-185 | which entries the tracked, lost and removed lists hold before duplicates go, and in which order, exactly |
| ByteTracker.Rounds | src/bytetrack/BYTETracker.cpp:65-152 | the three rounds with their pools, thresholds and leftovers; afterwards every tracked entry is decided |
| ByteTracker.Tracker.Split | src/bytetrack/BYTETracker.cpp:47-63 | every detection goes to the high or the low side of the threshold, in order |
| ByteTracker.ScoredSplits | src/bytetrack/BYTETracker.cpp:47-63 | the two sides together hold every detection exactly once |
| ByteTracker.ScoredByScore | src/bytetrack/BYTETracker.cpp:47-63 | each side holds only scores on its side of the threshold |
| ByteTracker.Tracker.Birth | src/bytetrack/BYTETracker.cpp:154-160 | leftover detections above the threshold become tracks with consecutive new ids, in order |
| ByteTracker.Tracker.Update | src/bytetrack/BYTETracker.cpp:27-192 | the frame's whole story, and the invariant: ids distinct and issued, tracked entries Tracked and of this frame, unactivated ones new, lost entries Lost or Removed, older, and at most max(max_time_lost, 1) + 1 frames old |
| ByteTracker.Run | src/bytetrack/BYTETracker.cpp:27-192 | over every run, with other trackers drawing ids in between, an id gone from both lists never returns |
| ByteOrigin.HeldSeen | src/bytetrack/BYTETracker.cpp:65-152 | a tracked entry that ends the frame Tracked was matched by one of the three passes, and is that entry with its filter corrected by the matched box |
| ByteOrigin.FollowedOrigin | src/bytetrack/BYTETracker.cpp:27-192 | every followed track is an old entry some pass reported with a box (id and start kept, score of the box, body corrected from the predicted one, tracklet counted on or restarted) or a new track started by a box of high score |
| ByteOrigin.BornExactly | src/bytetrack/BYTETracker.cpp:154-160 | a leftover detection starts a track, from its box and with its score, if and only if its score reaches the threshold |
| ByteOrigin.LostOrigin | src/bytetrack/BYTETracker.cpp:72-185 | every lost track is an old entry, predicted as what it was, newly Lost or still lost, and Removed exactly if overdue |
| ByteReturn.LostAfterFirst | src/bytetrack/BYTETracker.cpp:72-92 | a lost entry is hit exactly if the first round matched it; otherwise its state stays |
| ByteReturn.RemovedReturnsIff | src/bytetrack/BYTETracker.cpp:72-185 | a track removed in an earlier frame is among the tracks gathered in this one if and only if the first round matches it |
| ByteReturn.RemovedOutlivesIff | src/bytetrack/BYTETracker.cpp:72-192 | its id is in the lists after the frame if and only if, besides, no lost duplicate has lived at least as long |
| ByteReturn.NearPairMatched | src/bytetrack/BYTETracker.cpp:75-80 | a round never leaves a pair nearer than its threshold unmatched on both sides |
| ByteReturn.EmptyFrame | src/bytetrack/BYTETracker.cpp:27-192 | a frame without detections follows nothing and keeps as lost the activated tracks and the aged lost ones, except ids removed before |
| ByteReturn.RemovedReturns | src/bytetrack/BYTETracker.cpp:27-192 | a run from a new tracker, for all its parameters, after which an id on the removed list is followed: detected once, missed until removed, then detected near its prediction |
| DeepAssignment.MinCostMatching | src/deepsort/linear_assignment.cpp:60-112 | tracks and detections are split without loss; the matches are the cells within the maximum of a cheapest full matching of the clipped costs |
| DeepAssignment.Distribute | src/deepsort/linear_assignment.cpp:86-110 | reading the pairs back loses and repeats nothing, and pairs beyond the maximum are returned to both sides |
| DeepAssignment.NoAffordableSpare | src/deepsort/linear_assignment.cpp:78-110 | a pair over the maximum is chosen only where no detection left over would have been affordable for the track |
| DeepAssignment.NoAffordableSwap | src/deepsort/linear_assignment.cpp:78-110 | and only where exchanging detections with another such pair would make neither affordable |
| Cascade.WithinMax | src/deepsort/linear_assignment.cpp:78-110 | a reported match costs at most the maximum before clipping |
| Cascade.MatchedStep | src/deepsort/linear_assignment.cpp:28-47 | a level adds matches of its own age only and keeps the detections split |
| Cascade.MatchingCascade | src/deepsort/linear_assignment.cpp:12-58 | the matches are explained level by level: each level is a minimum-cost matching on what more recently seen tracks left, and a level is skipped only with nothing to do; tracks and detections are split without loss |
| DeepTracks.StorableIff | src/deepsort/nn_matching.cpp:40-69 | the sizes the gallery is asked to store are exactly those for which every block copied lies inside its matrix |
| DeepTracks.SlidesIff | src/deepsort/nn_matching.cpp:40-69 | the stored rows are the last budget ones of old and new together if and only if nothing had to move that differs from what replaced it |
| DeepTracks.OneRowSlidesIff | src/deepsort/nn_matching.cpp:60-67 | with one new row: if and only if the gallery was not full or all its rows are equal |
| DeepTracks.FedHolds | src/deepsort/nn_matching.cpp:40-69 | after any number of one-row fits the gallery holds the first budget - 1 rows and the last |
| DeepTracks.FedSlidesIff | src/deepsort/nn_matching.cpp:40-69 | so it is the window of the last rows if and only if it never overflowed or the first rows repeat at the end |
| DeepTracks.StoredSize | src/deepsort/nn_matching.cpp:40-69 | a stored gallery keeps 1 to budget rows |
| DeepTracks.Gallery.PartialFit | src/deepsort/nn_matching.cpp:33-80 | active keys hold their fitted rows, other keys are gone, keys not offered are unchanged |
| DeepTracker.AppearanceRound | src/deepsort/tracker.cpp:109-126 | the cascade over exactly the confirmed tracks, gated by the gallery, with its trace |
| DeepTracker.OverlapRound | src/deepsort/tracker.cpp:128-146 | a cheapest IoU matching of the candidates with the detections left |
| DeepTracker.SecondChance | src/deepsort/tracker.cpp:128-139 | exactly the unmatched tracks last seen one frame ago become candidates |
| DeepTracker.Match | src/deepsort/tracker.cpp:109-153 | every track and every detection ends matched or unmatched, exactly once; each match is within its round's maximum; both rounds are explained |
| DeepMachine.OutcomeSettles | src/deepsort/track.cpp:45-88 | hit or missed, a track stays within its counters: tentative ones were just hit, confirmed ones are not overdue |
| DeepMachine.OffersStorable | src/deepsort/tracker.cpp:97-106 | what update offers always fits the row copies of partial_fit |
| DeepMachine.FitConsistent | src/deepsort/tracker.cpp:97-107 | after the fit the gallery's keys are exactly the confirmed ids, each with 1 to budget rows |
| DeepMachine.Tracker.Lookup | src/deepsort/nn_matching.cpp:20-31 | the gallery lookup of distance never meets a missing or empty entry |
| DeepMachine.Tracker.Predict | src/deepsort/tracker.cpp:28-33 | every track is predicted once and the invariant holds |
| DeepMachine.Tracker.Update | src/deepsort/tracker.cpp:71-107 | what becomes of every track and detection, field by field, and what the gallery stores; ids ascend below the next one, no track is overdue, tentative tracks were just seen |
| DeepMachine.UnmatchedFate | src/deepsort/track.cpp:81-88 | an unmatched track's id stays if and only if it is confirmed and not overdue, and then the track is as it was |
| DeepMachine.UpdateFates | src/deepsort/tracker.cpp:71-96 | besides those, every matched track stays, corrected by its detection and confirmed after n_init hits, every unmatched detection starts a track, and there are no others |
| DeepMachine.UpdateOnward | src/deepsort/tracker.cpp:71-107 | across an update ids are followed on or new, an id leaves the gallery only with its track, and of a full gallery all rows but the newest stay |
| DeepMachine.Run | src/deepsort/tracker.cpp:28-107 | the invariant after every call of every run of predict and update; over the whole run an id gone never returns, and a gallery once full keeps its size and all rows but the newest |
| GalleryRun.UpdateRecorded | src/deepsort/tracker.cpp:71-107 | with a record of the features of each track's detections: after an update hits still count its rows, tentative tracks carry them, and the gallery holds for each confirmed track what feeding the rows one by one leaves |
| GalleryRun.EveryRun | src/deepsort/tracker.cpp:28-107 | that record holds after every call of every run, for any number of objects and any distances, and grows by exactly what each call matched and started |
| GalleryRun.GalleryOf | src/deepsort/nn_matching.cpp:33-80 | so a confirmed track's gallery is its first budget - 1 features and the last, full if and only if it has budget hits, and the window of the last features if and only if the first ones repeat there |
| GalleryRun.LoneMatch | src/deepsort/tracker.cpp:109-153 | one track and one detection whose IoU cost is affordable are matched, and nothing else |
| GalleryRun.OneObject | src/deepsort/tracker.cpp:28-107 | an object whose detections overlap its predictions well enough is followed through all frames and fills its gallery |
| LostTracks.UnmatchedUpdate | src/deepsort/tracker.cpp:71-107 | a confirmed track no match names stays, with its gallery rows, or is gone, by its age |
| LostTracks.RememberedIff | src/deepsort/tracker.cpp:28-107 | in every run, a confirmed track that m frames in a row do not match is remembered, predicted m times and with its gallery, if and only if it has been unseen for at most max_age frames, and never returns after |
| ThreadPool.StepKeepsInv | inc/ThreadPool.h:36-94 | every step of a worker, an enqueuer or the destructor keeps the pool's invariant |
| ThreadPool.Fifo | inc/ThreadPool.h:36-82 | in every interleaving tasks are taken in enqueue order, each accepted task is queued, running or finished exactly as often as it was accepted, and queued work never meets only sleeping workers with no notification due |
| ThreadPool.JoinedMeansDrained | inc/ThreadPool.h:84-94 | when all workers have left, every accepted task has run exactly once |
| ThreadPool.WorkGoesOn | inc/ThreadPool.h:36-82 | while an accepted task is unfinished some notification is due or some worker can move |
| ThreadPool.WorkEnds | inc/ThreadPool.h:36-82 | every such step lowers the effort left |
| ThreadPool.DestructorProgress | inc/ThreadPool.h:84-94 | after stop and notify_all some worker can always move, every move brings the joins closer and no other step puts them off |
| Pipeline.StepKeepsInv | src/transcoder.cc:611-762 | every step of driver, main loop, workers and drain keeps the pipeline's invariant |
| Pipeline.SlotsExclusive | src/transcoder.cc:641-655 | no detector, output buffer or capture buffer ever has two jobs in flight |
| Pipeline.UnfinishedIsPending | src/transcoder.cc:654-660 | a task the pool has not finished belongs to a pending job, so its buffers are not reused under it |
| Pipeline.EncoderOrder | src/transcoder.cc:657-707 | frames reach the encoder in capture order, each after its own inference |
| Pipeline.EncodedExactly | src/transcoder.cc:657-751 | the retiring steps of every run take frames 0, 1, 2 and so on, and the encoder has exactly those whose inference and overlay succeeded, in order |
| Pipeline.NothingAfterStop | src/transcoder.cc:611-762 | once the loop has seen the stop flag no run captures another frame |
| Pipeline.PoolRunsFreely | inc/ThreadPool.h:36-82 | the main thread never holds up a worker or a notification |
| Pipeline.DriverNeverStarves | src/transcoder.cc:618-657 | with at least as many buffers as threads the driver holds a buffer at every loop head |
| Pipeline.StarvedForGood | src/transcoder.cc:618-657 | once all buffers are held by uncollected jobs, nothing but a stop request changes that |
| Pipeline.StarvesIff | src/transcoder.cc:618-657 | such a state is reachable if and only if there are fewer buffers than threads |
| Pipeline.GrantedStarves | src/transcoder.cc:239-262 | which numbers of granted buffers starve for a configured number of threads, exactly |
| Pipeline.ClampedStarves | src/transcoder.cc:490-494 | which configured values still starve after the clamps of init when the driver grants what it is asked, exactly |
| Pipeline.FrontProgress | src/transcoder.cc:657-660 | while the oldest job is not ready some worker or notification can move, and every such move lowers a measure: waiting for a future never deadlocks |
| Pipeline.FrontGetsReady | src/transcoder.cc:657-660 | the pool alone brings the oldest job to its end, within the measure |
| Pipeline.CanClose | src/transcoder.cc:611-762 | from every state that keeps the invariant some run, by way of a stop request if still looping, reaches the end of the drain with every buffer back |
| Pipeline.ClosedReturnsAll | src/transcoder.cc:714-761 | after the drain every buffer is back at the driver and every captured frame's inference is done |
| PostProcess.Partition | src/postprocess.cc:151-167 | the moving-hole loop puts the key where everything before is at least and everything after at most the key, scores and indices in step |
| PostProcess.QuickSort | src/postprocess.cc:144-171 | the range ends in descending order, scores and indices permuted together, nothing outside it touched |
| PostProcess.MoveHole | src/postprocess.cc:158-163 | copying a cell into the hole and moving the hole keeps the whole a permutation |
| Suppression.EraseFor | src/postprocess.cc:119-141 | an entry erases exactly the later ones it overlaps beyond the threshold |
| Suppression.Nms | src/postprocess.cc:112-142 | a pass erases exactly the entries overlapped by an earlier entry of the class that itself survives the pass |
| Suppression.PassEffect | src/postprocess.cc:112-142 | a pass keeps every erasure justified and leaves nothing its class's survivors overlap |
| Suppression.SuppressAll | src/postprocess.cc:301-305 | one pass per occurring class, in ascending order |
| Suppression.ClosedForm | src/postprocess.cc:112-142 | a box goes if and only if an entry before it that acts, not being erased when its own class's turn comes, overlaps it too much, for all inputs and classes |
| Suppression.GreedyIff | src/postprocess.cc:112-142 | the result is greedy suppression, across classes or within own classes, if and only if no box that rule keeps is overlapped too much by an acting one before it |
| Suppression.SortedClassesGreedy | src/postprocess.cc:112-142 | with classes ascending along overlapping pairs, and for own classes such pairs of one class, a box goes exactly when a better surviving rival overlaps it too much |
| Suppression.CrossClassWitness | src/postprocess.cc:112-142 | two overlapping boxes of different classes: the second goes, which is greedy across classes and not within own classes |
| Suppression.LaterPassWitness | src/postprocess.cc:112-142 | three boxes in a row of classes 1, 0, 0: the last goes with no survivor overlapping it too much, which is greedy by neither rule |
| Suppression.UnsortedWitness | src/postprocess.cc:112-142 | two overlapping boxes with descending classes still give the greedy result, so ascending classes are not necessary |
| Suppression.MixedClasses | src/postprocess.cc:301-305 | both inputs run through the class loop, with the state after each pass and what is left |
| Suppression.SurvivorsApart | src/postprocess.cc:112-142 | any two survivors overlap at most the threshold, whatever their classes |
| Suppression.ChainToSurvivor | src/postprocess.cc:112-142 | every suppressed box leads by over-threshold overlaps with better boxes to a survivor |
| Suppression.TopReported | src/postprocess.cc:307-346 | the best-scoring box survives and is reported first, placed by its corners |
| Suppression.Finish | src/postprocess.cc:291-350 | sorted, suppressed, and the first 64 survivors reported, each with class and score of one candidate and with every corner the last image coordinate at or before its pixel in the model frame |
| ImageBox.CornerBackIff | src/postprocess.cc:323-333 | an image coordinate comes back exactly if the scale takes it to a whole model pixel, and otherwise smaller by less than 1 + 1 / scale |
| ImageBox.RoundTripIff | src/postprocess.cc:323-333 | a box of the image inside the frame is reported in its place if and only if that holds for its four corners, and never to the right of it or below |
| ImageBox.RoundTripWitness | src/postprocess.cc:323-333 | at half size the coordinate 3 is reported as 2 |
| ImageBox.PlacedInImage | src/postprocess.cc:34-37 | a reported box of non-negative size lies in the image, corners in order, and corners outside the frame are reported at its edges |
| ImageBox.OverlapCountsPixels | src/postprocess.cc:101-109 | boxes with whole corners overlap by the pixels they share over the pixels either covers |
| IdrGate.HasNaluType | src/CamFramedSource.cc:6-26 | true exactly when a header of the type stands at offset 0 or behind a start code with a byte left |
| IdrGate.HeaderType | src/CamFramedSource.cc:6-26 | whatever nal_ref_idc a header carries, its unit type is read back (section 7.3.1 of ITU-T H.264) |
| IdrGate.TypesOfFrame | src/CamFramedSource.cc:6-26 | on every frame the transcoder hands over, a byte stream of NAL units (Annex B of ITU-T H.264) without its first start code, it finds exactly the types of its units |
| IdrGate.StepKeepsInv | src/CamFramedSource.cc:65-139 | every step of the encoder thread, a delivery or a stop keeps the gate's invariant |
| IdrGate.DeliveredStream | src/CamFramedSource.cc:65-139 | in every interleaving the delivered stream is a prefix of the accepted frames, in encoder order, and each frame either directly follows the one before it or is IDR |
| IdrGate.CamFramedSource.OnEncodedData | src/CamFramedSource.cc:65-84 | a frame is accepted exactly when data is awaited and the gate is open or the frame is IDR; the steps taken are those of the machine |
| IdrGate.CamFramedSource.DeliverData | src/CamFramedSource.cc:91-122 | hands over the oldest frame, cut to the sink's size with the rest counted, or changes nothing when no data is awaited; fails exactly when data is awaited and the buffer is empty |
| IdrGate.LateEvent | src/CamFramedSource.cc:65-132 | a frame accepted and handed over before its event leaves the event handler with an empty buffer |
| IdrGate.CamFramedSource.DoGetNextFrame | src/CamFramedSource.cc:124-132 | hands over the oldest frame, cut to size with the rest counted, exactly when one is buffered and data is awaited, and otherwise changes nothing |
| IdrGate.CamFramedSource.DoStopGettingFrames | src/CamFramedSource.cc:134-139 | closes the gate and keeps what is buffered |
| Kalman.InitiateSoundIff | src/bytetrack/kalmanFilter.cpp:29-61 | the first covariance is block diagonal and positive definite if and only if the measured height is not zero |
| Kalman.PredictByAxis | src/bytetrack/kalmanFilter.cpp:63-88 | prediction on the 8-by-8 matrices acts on each coordinate as its own two-state filter |
| Kalman.PredictKeepsSound | src/bytetrack/kalmanFilter.cpp:63-88 | prediction keeps symmetry, blocks and definiteness, whatever the height |
| Kalman.ProjectDiagonal | src/bytetrack/kalmanFilter.cpp:90-101 | the projected covariance is diagonal and positive |
| Kalman.SolvesIff | src/bytetrack/kalmanFilter.cpp:103-113 | the linear system of update has exactly one solution, the shares of each coordinate's own variance |
| Kalman.CorrectByAxis | src/bytetrack/kalmanFilter.cpp:103-119 | an update acts on each coordinate as its own two-state filter |
| Kalman.UpdateSoundIff | src/bytetrack/kalmanFilter.cpp:103-119 | an update keeps the covariance sound if and only if the estimated height is not zero |
| Kalman.PositiveIsDefinite | src/bytetrack/kalmanFilter.cpp:103-119 | the block condition used above is positive definiteness of the quadratic form |
| Kalman.RunSound | src/bytetrack/kalmanFilter.cpp:29-119 | from a measurement of nonzero height, every run of a tracker's predictions and updates whose updates meet a nonzero height stays sound |
| Kalman.RestKeepsSound | src/bytetrack/STrack.cpp:203-213 | zeroing the height's velocity of an untracked track touches the height filter only and keeps the covariance sound |
| Kalman.HeightWaits | src/bytetrack/STrack.cpp:203-213 | over any number of predictions an untracked track keeps its height, so waiting never breaks a later update |
| Kalman.RunByAxes | src/bytetrack/kalmanFilter.cpp:29-119 | every such run equals the run of four two-state filters |
| Kalman.FirstCorrection | src/bytetrack/kalmanFilter.cpp:29-119 | after the first prediction and correction, whatever the size: positions have moved 105/121 of the way to the measurement, velocities are 25/121 of the difference, variances are fixed fractions of the squared height, and the aspect ratio has moved by less than a fiftieth |
| Kalman.Estimate.PredictInPlace | src/bytetrack/STrack.cpp:203-213 | a track's mean and covariance are overwritten by its prediction, at rest or not, and stay sound |
| Kalman.Estimate.UpdateInPlace | src/bytetrack/kalmanFilter.cpp:103-119 | they are overwritten by the update, and stay sound if and only if the height was not zero |

## Left out

- Floating point, 32-bit overflow and allocation failure: reals, mathematical integers and total allocation stand in for them.
- LapjvSolver.LongestWalk: is about states of the search; no input of the whole solver with a walk of n swaps is shown, so nothing is said about the assertion compiled out at src/bytetrack/lapjv.cpp:244-245.
- Hungarian.Solve: infinite entries and `replace_infinites` are not modelled, because costs are reals; nor is the empty matrix, on which `mmax` has no meaning and which no caller passes.
- Hungarian.SolvePairs: the replacement of not-a-number costs by zero is not modelled, because costs are reals.
- ByteAssignment.SolveThresholded: asks for at least one row and one column and for costs and padding below the solver's LARGE, since the code passes the matrix on unchecked.
- ByteTracker.Tracker.Update: box geometry enters as functions; names, labels, trajectories, speed and liveness statistics are left out, since they do not feed back into tracking.
- ByteTracker.Run: the process-wide id counter is an atomic counter; two cameras racing on it are not modelled.
- DeepMachine.Tracker.Update: trajectories, gating distances, ReID features and the overload without class data are left out; distances enter as non-negative functions, and the lists state which tracks remain, in the order of their ids.
- DeepMachine.Run: requires 2 <= n_init <= budget, the range in which the gallery's row copies stay inside the stored rows.
- GalleryRun.EveryRun: starts from a new tracker in the same range; the record covers the features the model keeps, one per detection.
- ThreadPool.DestructorProgress: tasks are taken to terminate; fairness of the scheduler is not modelled.
- Pipeline.ClampedStarves: assumes a driver that grants the number of buffers asked for; GrantedStarves does not. An open that fails leaves no pipeline to speak of.
- Pipeline.FrontGetsReady: tasks are taken to terminate and the scheduler to let workers move; a spurious wake-up, which the measure does not count, only adds steps.
- Pipeline.StepKeepsInv: requeueing a buffer succeeds, indices the driver returns are valid, an encoder that returns nothing still counts as having been given the frame, and a notification may arrive later than in the code, which only adds interleavings.
- Suppression.Finish: starts behind the decoder of the network's output tensors, which is dequantisation and thresholding, and takes the scale factors as positive.
- IdrGate.CamFramedSource.DeliverData: where the source takes the front of an empty buffer the model reports failure and changes nothing. Time stamps and the size statistic are left out.
- Kalman.UpdateSoundIff: the Cholesky solve is represented by any solution of its linear system, which is shown to be unique.
- Kalman.PredictByAxis: `gating_distance` is left out, and so is the filter in `src/deepsort`.
- Cameras, DMA heaps, RGA, MPP, RKNN, OpenCV drawing, the Live555 server and configuration loading: device interfaces and plumbing.
