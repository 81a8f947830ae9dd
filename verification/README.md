# Proofs about the drawing matcher, its stores and its viewer

The application finds instances of saved templates in CAD drawings, keeps the templates in
per-version libraries, runs the scans through a database-backed job queue and shows the results in
a browser viewer. This project models the parts of it whose correctness is not visible in one
function body and proves what they are for.

- **Match JSON pipeline** (`MatchKeys`, `Suppression`, `SuppressionPass`, `SideViews`, `Filing`,
  `MatchPipeline`, `PipelineAgreement`, `Recounting`). The rarest-handle index of contained-match
  suppression equals the naive "some instance of the class beats this one"; what survives is one
  least representative of each inclusion-maximal handle set. The save-match job and the live scan,
  two pipelines over the same split, agree class by class, and save-match conserves instances.
- **Job queue** (`JobTable`, `JobStores`, `WorkerTicks`, `WorkerLoops`, `JobQueueRuns`,
  `JobQueueTable`, `JobQueueTicks`, `JobQueueTheorems`, `TickGap`, `ClaimProtocol`, `ChildCounts`,
  `DoubleCounts`). One transition system has whole worker ticks on a shared clock (crashes,
  submissions, upkeep), the others have every SQL statement as its own step with arbitrary clocks,
  late workers and crashes.
- **Matcher** (`Entities`, `BucketLookups`, `SingleMatch`, `Isometries`, `MultiMatch`,
  `PairAlignment`, `MultiMatchScan`). Bucket lookups bound the error they allow, the sharded scan
  is the serial one, every multi-entity match is witnessed by a plane isometry and congruent to the
  template, and every entity that seeds an unmistaken match is shown in a group.
- **Viewer geometry** (`Shapes`, `Clipping`, `EvenOdd`, `BoxSelect`, `Connectivity`, `Viewers`).
  Crossing selection is exact for every primitive kind, including filled polygons: if no edge
  touches the rectangle then one corner decides for all of it. Chain selection returns exactly the
  connected component.
- **Template library** (`Signatures`, `LibraryTables`, `LibraryStores`, `LibraryInstances`,
  `LibraryRevision`, `Migration`, `LibraryConstants`). The deduplication key is canonical, no
  class ever holds a duplicate unless instances interfere, the revision stamp never calls an
  outdated snapshot fresh, and boot migration is idempotent on every database.
- **Edit lock and SQL placeholders** (`EditLocks`, `Placeholders`).

Objects whose methods update fields are classes (`JobStores.JobStore`, `WorkerLoops.WorkerLoop`,
`EditLocks.AuthStore`, `LibraryStores.Store`, `LibraryStores.Library`, `Viewers.Viewer`); loops
are methods with invariants, tied to specification functions about which the laws are proved.
Floating point numbers are reals throughout. `Wrappers`, `Sorting`, `ListDicts` and `Rounding`
hold what several modules share. `dafny verify dfyconfig.toml` checks everything.

## Results where the code and its text differ

- `parse_match_key` is described as the inverse of the emitted keys. It is for keys with a view;
  for keys without one, exactly when the class text does not itself start with a view prefix and a
  dot (`MatchKeys.ParseInvertsEmit`, an if-and-only-if).
- A reprocess-all parent counts each child once, live claims stay fresh and jobs have one live
  executor exactly as long as live workers tick at least every 95 seconds (`TickGap.GapIsExact`,
  an if-and-only-if for every tick gap; the run that breaks all three for a longer gap is
  `TickGap.LateRun`). That holds of whole ticks; statement by statement a child is also counted
  twice when a worker crashes after counting it and before ending it, or when two upkeeps list the
  same exhausted job (`DoubleCounts.CountsOnceIff`, an if-and-only-if).
- An explicit match configuration does not survive every boot. A class row under a legacy name is
  dropped with its configuration when the new name is taken in its library
  (`Migration.RenamedConfigIsCarried` says exactly when it is carried over,
  `LibraryConstants.BlockedRenameLosesConfig` is the case with the declared lists).
- A cached library is not canonical while other instances write: an add can store a duplicate, or
  find a template that is no longer stored (`LibraryInstances.AddDuplicatesIff` and
  `LibraryInstances.AddIsLostIff` say exactly when).
- The view counts recounted from the keys are those of the split unless a class text looks
  view-prefixed (`Recounting.RecountIsSplitIff`), and a custom class named like a key text shares
  keys and suppression pools with the class of that key (`Recounting.TextsApartIff`,
  `Recounting.PoolsApartIff`).
- The viewer selects a primitive without points in window mode: its box of infinities lies inside
  every rectangle, which agrees with "all vertices inside" being vacuously true
  (`BoxSelect.BoxInsideMeansVertices`).
- An acquire that loses its INSERT and finds the row released before its SELECT has no holder to
  name; the outcome `RowGone` in `EditLocks` stands for the exception raised there
  (`EditLocks.RowGoneIff` says exactly when).

## Model

| member | source | states |
|---|---|---|
| MatchKeys.ParseInvertsEmit | app/side_regions.py:26-44 | parsing an emitted key gives back its view, class and index if and only if the key has a view or the class text does not look view-prefixed; it always parses to something |
| Suppression.EveryInstanceIsCovered | app/side_regions.py:57-152 | every compared instance is contained in a surviving instance of its class |
| Suppression.SurvivorsAreIncomparable | app/side_regions.py:57-152 | survivors of one class form an antichain under inclusion of handle sets |
| Suppression.SurvivorsAreLeastMaximal | app/side_regions.py:57-152 | an instance survives if and only if no instance of its class holds its handles and more, and among those that hold the same it has the smallest parsed index, at equal index the key text that is equal, a proper prefix or has the smaller character at the first difference, and under one key the smallest position |
| Suppression.StayingIsKept | app/side_regions.py:57-152 | under each key the pass keeps, in order, exactly the instances that are first and inclusion-maximal in that sense or are not compared; a key left without any goes unless nothing changed |
| Suppression.StrLeIsTextOrder | app/side_regions.py:115-119 | the order of texts by first difference is the order used for keys and handles |
| Suppression.NothingLeftToSuppress | app/side_regions.py:57-152 | after the pass no instance is redundant |
| Suppression.SuppressionIsIdempotent | app/side_regions.py:57-152 | a second pass changes nothing |
| Suppression.UnionIsUnchanged | app/side_regions.py:57-152 | a class holds the same handles before and after |
| Suppression.SurvivorIsKept | app/side_regions.py:140-152 | an instance that is not redundant, including one under an unparseable key or without handles, is still there under its key |
| Suppression.KeptWasThere | app/side_regions.py:140-152 | whatever is left was there, under the same key, and was not redundant |
| Suppression.KeptByPosition | app/side_regions.py:143-152 | the kept instances of a key are the old ones at increasing positions |
| Suppression.KeysKeepOrder | app/side_regions.py:143-152 | the kept keys are the old ones at increasing places |
| Suppression.SizeOfSuppressed | app/side_regions.py:57-152 | the pass removes exactly as many instances as are redundant |
| SuppressionPass.CollapseDuplicates | app/side_regions.py:108-119 | equal handle sets collapse to the least instance, the rest are marked removed |
| SuppressionPass.RarestHandle | app/side_regions.py:120-138 | a handle of the instance with the shortest posting list |
| SuppressionPass.SubsetsAmongReps | app/side_regions.py:129-138 | the inverted index marks exactly the representatives with a proper superset among all representatives |
| SuppressionPass.RedundantInPool | app/side_regions.py:107-138 | within a pool exactly the beaten items are marked |
| SuppressionPass.FindRedundant | app/side_regions.py:94-138 | the indexed scan removes exactly what the naive scan of all pairs would |
| SuppressionPass.SuppressContainedMatches | app/side_regions.py:57-152 | the whole pass returns the declared result, or its input when switched off; key by key it keeps exactly the instances that stay, told from handle sets, parsed indexes, key texts and positions |
| SideViews.BoxIsTight | app/side_regions.py:186-211 | the running extents are attained and bound every point |
| SideViews.BboxCenter | app/side_regions.py:186-211 | none without points; otherwise twice the centre is the sum of the least and the greatest coordinate of the points of all handles, in x and in y |
| SideViews.SidePrefixFor | app/side_regions.py:257-275 | none without points; otherwise top exactly when the middle of the span of the points lies in the top rectangle, sides included, bottom when in bottom and not top, side when in side and neither other, none when in none |
| SideViews.ViewIsOfMiddle | app/side_regions.py:175-275 | the same of the view that filing, overlay and save-match use |
| Filing.SplitMatchesBySide | app/side_regions.py:214-254 | files each admitted instance under its key in order; the view counts count the filed instances by view, and with the dropped count they add up to the input |
| Filing.FiledInOrder | app/side_regions.py:214-254 | the list under a key is exactly the instances with that key, in the order they came |
| Filing.KeysAreFirstSeen | app/side_regions.py:214-254 | the keys stand in the order of the first instance filed under each |
| MatchPipeline.GateLosesNothing | app/jobs.py:935-940 | skipping classes whose views have no rectangle changes no emitted instance |
| MatchPipeline.CollectAll | app/jobs.py:935-968 | template by template grouping and merging is the same as filing every emission one by one, found equals filed plus dropped, and the split counts count the filed instances by view |
| MatchPipeline.CollapseByClass | app/main.py:2085-2098 | handles per display class of a Match JSON |
| MatchPipeline.ScanAll | app/main.py:2058-2098 | the response lists, sorted and once each, exactly the handles per class the collected dict collapses to, and counts them |
| MatchPipeline.ViewsPartition | app/jobs.py:986-993 | every persisted instance is counted under exactly one of the four views |
| MatchPipeline.Recount | app/jobs.py:985-993 | each view count is the number of persisted instances under that prefix |
| Recounting.RecountIsSplitIff | app/jobs.py:985-993 | with suppression off the recount by parsed key gives back the split counts if and only if no unassigned instance belongs to a class whose key text begins with a view name and a dot |
| Recounting.KeysApartIff | app/side_regions.py:94-106 | the classes of a library have keys of their own if and only if no key text is another, with or without a view name and a dot in front |
| Recounting.PoolsApartIff | app/side_regions.py:94-106 | they have suppression pools of their own if and only if the key texts and what is left of them without a view name in front are all different |
| Recounting.PlainTextsApart | app/side_regions.py:26-44 | for key texts that do not look view-prefixed both just mean that the texts differ |
| Recounting.TextsApartIff | app/library.py:107-134 | with a key table whose texts differ, two classes of a library share a key text only when a class outside the table is named like the key text of one in it |
| MatchPipeline.SaveMatch | app/jobs.py:919-993 | total matches equal the four surviving view counts plus dropped plus suppressed; the suppressed count is the number of redundant instances |
| PipelineAgreement.ByClassIs | app/main.py:2085-2098 | a class is listed, and lists a handle, exactly when a parsed key shown as it holds an instance with it |
| PipelineAgreement.SuppressionKeepsByClass | app/side_regions.py:57-152 | suppression leaves the handles per class alone if and only if it removes nothing or no class of the dict has only keys without instances |
| PipelineAgreement.SaveCollapsesToScan | app/jobs.py:935-997 | collapsing the persisted Match JSON gives exactly the live scan's classes and handles |
| PipelineAgreement.CollectedHolds | app/main.py:2058-2083 | an instance is filed under a key exactly when some template of some class found it and its view is allowed |
| PipelineAgreement.AdmittedMeans | app/main.py:2058-2083 | a match is admitted exactly when the matcher finds it for a template of a library class, with the configured strategy or chamfer and the configured ratio, and a class with a view constraint has it in an allowed view |
| ClassTables.DisplayInvertsJsonKey | app/library.py:107-134 | a key text in the table is shown as its class, any other text as itself |
| PipelineAgreement.EmittedKeyShows | app/side_regions.py:26-44 | an emitted key is shown under one display class: that of its key text, less a view name in front when the match lies in no view |
| PipelineAgreement.ShownUnderOwnText | app/side_regions.py:26-44 | that is the display class of its own key text if and only if the match lies in a view or the text does not look view-prefixed |
| PipelineAgreement.OverlayMeaning | app/main.py:2058-2098 | the overlay shows a handle under a class exactly when an admitted instance shown as that class holds it, for every library |
| JobStores.JobStore.SelectCandidate | app/jobstore.py:155-162 | an oldest queued row, or none when nothing is queued |
| JobStores.JobStore.ClaimNext | app/jobstore.py:151-172 | claims an oldest queued job for the worker, or finds the queue empty |
| JobStores.JobStore.BumpParentDone | app/jobstore.py:209-228 | one more done, and done at the total if the parent is running |
| WorkerLoops.WorkerLoop.ReapFinished | app/worker_loop.py:70-97 | every finished future ends its row, done if it returned and its callback did not fail and error otherwise, with this completion time; other rows keep all but their count and the ending of a running parent |
| WorkerLoops.WorkerLoop.ClaimWhileFree | app/worker_loop.py:99-110 | claims until no slot is free or the queue is empty; every job that was queued is queued still, running in this worker's hands with one more attempt, or an error when its plan raised |
| WorkerLoops.WorkerLoop.HeartbeatIfDue | app/worker_loop.py:112-116 | the running rows of this worker get the time as heartbeat when it has work in flight and 25 seconds have passed, and nothing else changes |
| WorkerLoops.WorkerLoop.MaintainIfDue | app/worker_loop.py:117-138 | once a minute rows ended a week ago go, rows silent for 120 seconds are back in the queue or an error after three attempts, and the others are kept |
| WorkerLoops.WorkerLoop.RunOnce | app/worker_loop.py:63-140 | one call is one tick of the transition system, in the order reap, claim, heartbeat, upkeep; after it every job whose future finished reads its outcome with this completion time, and every job that was queued is queued still, running here or an error when its plan raised |
| JobQueueTable.FinishKeepsTable | app/jobs.py:465-488 | ending a child counts it once in its parent and finishes the parent exactly at its total |
| JobQueueTable.UnfinishedParentRuns | app/jobs.py:1087-1112 | a parent with a child still to insert or to end is running |
| JobQueueTicks.FailAllKeeps | app/worker_loop.py:117-127 | failing the listed jobs one after another keeps the counts and leaves the jobs not yet failed as listed |
| JobQueueTicks.TickKeepsOwn | app/worker_loop.py:63-140 | after its tick a worker's claims are running, its own, and younger than the heartbeat period |
| JobQueueTicks.TickLeavesOthers | app/worker_loop.py:63-140 | a tick leaves another worker's fresh claims exactly as they were |
| JobQueueTheorems.ReachableInv | app/worker_loop.py:63-140 | the invariant holds in every reachable state |
| JobQueueTheorems.ParentCountsItsChildren | app/jobstore.py:209-228 | in every reachable state, with ticks at most 95 seconds apart, a reprocess-all parent's done is the number of its ended children, pruned ones counted, never passes total, and the status is done exactly when it reaches total |
| JobQueueTheorems.ParentIsNeverWork | app/jobs.py:1087-1112 | a parent row is never queued, never stale and never in a worker's hands |
| JobQueueTheorems.LiveClaimsAreNeverStale | app/worker_loop.py:112-127 | a live worker's claim is running, names it and is never stale while ticks are at most 95 seconds apart |
| JobQueueTheorems.OneLiveExecutor | app/jobstore.py:151-182 | a job has at most one live executor and `claimed_by` names it |
| JobQueueTheorems.OthersLeaveClaimsAlone | app/jobstore.py:245-271 | no step but the worker's own tick or crash changes a row it holds |
| TickGap.GapIsExact | app/worker_loop.py:112-127 | for every bound on the silence of live workers: all runs count each child once, no run finds a live claim stale, and every job has one live executor, each if and only if the bound is at most 95 seconds |
| TickGap.LateRunIsRun | app/jobstore.py:245-259 | for every larger bound, eleven steps that are a run: a child claimed, requeued during the silence, finished by another worker and reaped late |
| ClaimProtocol.ReachableInv | app/jobstore.py:151-281 | the row invariant holds after any interleaving of single statements |
| ClaimProtocol.ClaimsAreBounded | app/jobstore.py:151-172 | a job is claimed at most three times, its row counts the claims won, queued implies attempts left, running names a winner |
| ClaimProtocol.HistoryGrows | app/jobstore.py:151-172 | along a run the history of winners is only extended |
| ClaimProtocol.EndedForever | app/jobstore.py:185-200 | done and error are never left except by pruning, and a pruned id never returns, with late completions and failures allowed |
| ClaimProtocol.EndedIsNeverClaimed | app/jobstore.py:151-172 | an ended job is never claimed again |
| ClaimProtocol.ParentsAreNeverWork | app/jobstore.py:245-271 | a parent row is never claimed, requeued or listed as exhausted |
| DoubleCounts.CountsOnceIff | app/jobs.py:465-488 | all runs of single statements count every child once if and only if upkeep takes no job from a worker still handling it, no worker crashes between counting a child and ending it, and no two upkeeps list the same exhausted job |
| ChildCounts.DoneIsCounted | app/jobstore.py:209-216 | whatever interferes, a parent's done is how often its children were counted |
| ChildCounts.NoHazardsDone | app/worker_loop.py:70-139 | without interference a parent's done is the number of its children that ended, pruned ones included, or are counted and about to end |
| Rounding.RoundSteps | app/matching.py:678-684 | half-even rounding of values less than one apart differs by at most one, and a difference of at most one means at most two apart |
| BucketLookups.BuildBuckets | app/matching.py:694-708 | each bucket lists exactly the handles with its key, in drawing order |
| BucketLookups.LookUpCircles | app/matching.py:966-975 | the three-bucket lookup lists each circle with a neighbouring key exactly once |
| BucketLookups.MatchSingleCircle | app/matching.py:955-980 | the matches are those circles, without the skipped ones |
| BucketLookups.CircleErrorIsBounded | app/matching.py:678-684 | a radius difference below 1e-4 gives neighbouring keys, and neighbouring keys differ by at most 2e-4 |
| BucketLookups.CircleLookupIsSound | app/matching.py:955-980 | every circle closer than 1e-4 is found and every one found is within 2e-4 |
| BucketLookups.FingerprintNeighbours | app/matching.py:838-851 | 27 distinct cells, exactly those the ±1 test accepts |
| BucketLookups.NeighbourHandles | app/matching.py:1231-1237 | enumerating the neighbour buckets yields, without repeats, exactly the non-circle handles the fingerprint test accepts |
| Entities.FingerprintErrorIsBounded | app/matching.py:819-860 | a fingerprint match means path lengths, radii and sigma ratios each differ by at most 2e-3, and differences below 1e-3 in all three are a match |
| Entities.ClusterIs | app/matching.py:871-885 | the cluster key is the centroid, path length, radius and sigma ratio in thousandths, each rounded to the nearest integer, halves to even |
| Entities.ClusterErrorIsBounded | app/matching.py:871-885 | entities of one cluster lie within 1e-3 of each other on both axes and differ by at most 1e-3 in each scalar |
| SingleMatch.GateCandidates | app/matching.py:749-781 | the vectorised mask keeps exactly the entities `signatures_compatible` accepts, in order |
| SingleMatch.EarlyBreakKeepsVerdict | app/matching.py:1087-1103 | the early break reports within tolerance exactly when some variant is, and a near miss carries the least score of all four |
| SingleMatch.JudgedMeans | app/matching.py:1072-1105 | an entity gets a verdict exactly when it is unskipped, passes the ratio and sigma tolerances and neither cloud is degenerate; outside the scale window it is a near miss for scale, otherwise a match with the first score in tolerance or a near miss for shape with the least score |
| SingleMatch.BestVariant | app/matching.py:1087-1098 | the loop with its break computes the specified best |
| SingleMatch.GateThenScan | app/matching.py:1061-1070 | gating first and scanning the candidates is scanning the drawing |
| SingleMatch.MatchSingleSerial | app/matching.py:1026-1105 | match and near-miss lists of the specification, in order |
| SingleMatch.SerialMeans | app/matching.py:1026-1105 | the two lists are the verdicts on exactly the entities tried, in drawing order, matches in one and near misses in the other |
| SingleMatch.ScanOfConcat | app/matching.py:1003-1014 | the scan of two chunks is the two scans joined |
| SingleMatch.SkippingFirst | app/matching.py:1000 | dropping skipped handles before the scan is the same as skipping during it |
| SingleMatch.MatchSingle | app/matching.py:990-1014 | for any number of workers the lists equal the serial ones, in the same order: the verdicts on exactly the entities tried |
| Isometries.TransposeIsOrthonormal | app/matching.py:1368-1380 | columns of an orthonormal pair are orthonormal |
| Isometries.RigidKeepsDistance | app/matching.py:1120-1135 | the pose map between orthonormal frames keeps every distance |
| MultiMatch.DedupeTemplateShapes | app/matching.py:906-924 | the loop keeps the first entity of each cluster key |
| MultiMatch.FirstOfEach | app/matching.py:906-924 | one template entity per cluster key, every key kept |
| MultiMatch.FindRole | app/matching.py:1387-1398 | an unused, unskipped entity near the prediction with a matching fingerprint, or none exists |
| MultiMatch.FillRoles | app/matching.py:1379-1404 | all roles filled by distinct entities at their predictions, or nothing, and nothing only when whatever fits some role is taken or fits an earlier role |
| MultiMatch.FilledIsWitnessed | app/matching.py:1379-1411 | a match filled at the predictions of a rigid pose, from a head that fits, is witnessed by that pose |
| MultiMatch.WitnessedIsCongruent | app/matching.py:1108-1135 | a witnessed match is congruent to the template: each entity lies within 1e-3 of a place, the places are exactly as far apart as the template centroids, and each entity differs from its template entity by at most 2e-3 in path length, radius and sigma ratio |
| MultiMatch.AxisPredicts | app/matching.py:1372-1380 | the local coordinates times the signed axes are the pose applied to the template centroid |
| MultiMatch.TrySigns | app/matching.py:1368-1411 | a match found on the principal-axis path is witnessed by a rigid pose and starts at the candidate; none is found only when no sign variant gives every role an entity of its own |
| PairAlignment.UnitFrame | app/matching.py:1264-1312 | a vector over its length with its perpendicular is an orthonormal frame, mirrored or not |
| PairAlignment.PairLandsClose | app/matching.py:1304-1312 | the second entity lands within the tolerance when the two distances agree to it |
| PairAlignment.PairPredicts | app/matching.py:1322-1328 | the two-point prediction is the pose applied to the template centroid, mirror included |
| PairAlignment.TryMirrors | app/matching.py:1286-1350 | a match found on the two-point path is witnessed by a rigid pose and starts at the candidate; none is found only when the distances disagree or no allowed mirroring gives every other role an entity of its own |
| MultiMatchScan.RawMatches | app/matching.py:1207-1411 | every raw match is witnessed by an isometry sending each template centroid to within the tolerance of a distinct, unskipped entity with a ±1 fingerprint, so it is congruent to the template; no two share a group; every entity that seeds an unmistaken match is in one |
| MultiMatchScan.PickStack | app/matching.py:1426-1442 | the matched handle topped up with unskipped mates of its cluster: short of the multiplicity only when all of them are picked |
| MultiMatchScan.CountSkippedIs | app/matching.py:1176-1184 | the multiplicity of a cluster counts the skipped handles of the drawing that have its key |
| MultiMatchScan.ExpandMatch | app/matching.py:1424-1446 | the expanded group holds every matched handle, only stacked mates, no skipped handle, and each place is topped up to its multiplicity |
| MultiMatchScan.BagCounts | app/matching.py:1443-1457 | the places of a group are the cluster keys of its entities, each as often as entities of the group have it |
| MultiMatchScan.GroupSize | app/matching.py:1424-1446 | at least one handle per role and at most the sum of the role multiplicities |
| MultiMatchScan.RigidGroups | app/matching.py:1171-1457 | every reported group expands a witnessed and congruent raw match, no two groups occupy the same places, and every entity that seeds an unmistaken match is in a group or stacked on one that is, for every choice of seed |
| MultiMatchScan.RarestSeed | app/matching.py:1192-1203 | the seed has the fewest drawing handles in its fingerprint neighbourhood |
| MultiMatchScan.MatchMulti | app/matching.py:1108-1457 | a template that collapses to one entity gives the single-entity scan, over an empty drawing any other fails, and otherwise the groups are witnessed, congruent to the template, on distinct places, and show every entity that seeds an unmistaken match for a rarest seed |
| Clipping.SegmentIntersectsRect | app/static/canvas.js:2358-2378 | true exactly when some point of the segment lies in the rectangle, whatever the rectangle |
| EvenOdd.PointInRing | app/static/canvas.js:2180-2191 | the toggling loop computes the parity of ray crossings |
| EvenOdd.CrossingIsOnEdge | app/static/canvas.js:2186-2188 | the crossing the ray test computes is a point of the edge |
| EvenOdd.EdgeParity | app/static/canvas.js:2184-2189 | an edge that misses the left side of a half-strip changes its side exactly when its two ray tests differ |
| EvenOdd.ParityIsConstant | app/static/canvas.js:2399-2409 | if no edge of a ring touches a rectangle, all its points have the same parity |
| EvenOdd.StraddlesTelescope | app/static/canvas.js:2180-2191 | a closed ring crosses a horizontal line an even number of times |
| EvenOdd.InRingIsInBox | app/static/canvas.js:2180-2191 | a point inside a ring lies in every box around its vertices |
| BoxSelect.BboxOf | app/static/canvas.js:1012-1026 | the least box around the accumulated points, none without points |
| BoxSelect.DrawnIsInBox | app/static/canvas.js:2440-2445 | whatever a primitive draws lies in any rectangle around its vertices |
| BoxSelect.QuickRejectIsSound | app/static/canvas.js:2440-2445 | the bounding-box reject never changes the result, for any primitive kind |
| BoxSelect.CornerDecides | app/static/canvas.js:2399-2411 | without a boundary hit the even-odd parity of one corner decides whether a filled polygon touches the rectangle |
| BoxSelect.CircleTouches | app/static/canvas.js:2414-2421 | the clamped closest point decides whether a disk of any radius touches the rectangle |
| BoxSelect.PolylineTouches | app/static/canvas.js:2387-2397 | exact for open and closed polylines |
| BoxSelect.PolygonTouches | app/static/canvas.js:2398-2411 | exact for filled polygons with any number of rings; with corners out of order only the corner inside counts |
| BoxSelect.PrimCrossesRect | app/static/canvas.js:2380-2423 | true exactly when some drawn point lies in the rectangle, for every kind; with corners out of order, exactly for filled shapes around the first corner or near the clamped point |
| BoxSelect.BoxInsideMeansVertices | app/static/canvas.js:2436-2439 | the window test on the box means all vertices inside |
| BoxSelect.WindowMeansDrawnInside | app/static/canvas.js:2436-2439 | all vertices inside means everything drawn inside and, for a polyline of one point, that point inside |
| Viewers.Viewer.SelectByBox | app/static/canvas.js:2426-2447 | the selection gains exactly the handles of visible primitives drawn inside (window) or touching (crossing) the rectangle, and loses the old ones unless additive |
| Connectivity.NearIsInBlock | app/static/canvas.js:2306-2312 | endpoints within the tolerance lie in neighbouring cells |
| Connectivity.ConnectedMeansLinked | app/static/canvas.js:2271-2325 | primitives are connected exactly when both are plain and on a layer that shows, and an end of one, a line end or an end of an open polyline of two or more points, is at most 0.01 from an end of the other |
| Connectivity.CollectEndpoints | app/static/canvas.js:2280-2301 | endpoints of exactly the visible lines and open polylines, each filed in its own cell |
| Connectivity.JoinBlock | app/static/canvas.js:2306-2323 | one endpoint is joined with every near endpoint of another primitive |
| Connectivity.BuildConnectivity | app/static/canvas.js:2271-2325 | the adjacency sets are exactly the relation "distinct eligible primitives with endpoints within the tolerance" |
| Connectivity.ConnectedIsSymmetric | app/static/canvas.js:2271-2325 | the relation is symmetric |
| Connectivity.ClosedHoldsReachable | app/static/canvas.js:2336-2350 | a set closed under the relation holds everything reachable |
| Viewers.Viewer.EnsureConnectivity | app/static/canvas.js:2327-2334 | a cached graph is the graph of what is visible now |
| Viewers.Viewer.ExpandChain | app/static/canvas.js:2336-2350 | terminates with exactly the primitives reachable from the start |
| Viewers.Viewer.ToggleLayer | app/static/canvas.js:4040-4048 | toggles the layer and keeps the cache honest |
| Viewers.Viewer.ShowAllLayers | app/static/canvas.js:4050-4058 | shows every layer and keeps the cache honest |
| Viewers.Viewer.InvertLayerVisibility | app/static/canvas.js:4059-4070 | exactly the layers of the drawing that showed are hidden now, and the cache stays honest |
| Viewers.Viewer.CollectAvailableLayers | app/static/canvas.js:3994-4009 | counts the primitives of each layer and forgets hidden layers the drawing does not have; nothing changes its visibility and a cached graph stays honest |
| Viewers.SameVisibleSameGraph | app/static/canvas.js:2271-2325 | the graph depends on the hidden layers only through what is visible |
| Viewers.Viewer.ClickSelect | app/static/canvas.js:2699-2724 | a click selects the chain's handles, shift toggles them as a whole |
| Signatures.TemplateSignature | app/library.py:283-326 | the append loop computes the specified key |
| Signatures.SignatureIsCanonical | app/library.py:283-326 | nonempty templates get equal keys if and only if their multisets of per-entity multisets of bucketed centred points are equal |
| Signatures.EmptyKeyIsApart | app/library.py:305-307 | the empty key belongs to exactly the templates without points |
| Signatures.TranslationKeepsSignature | app/library.py:288-291 | moving a template keeps its key |
| Signatures.EntityOrderKeepsSignature | app/library.py:288-291 | reordering entities keeps the key |
| Signatures.VertexOrderKeepsSignature | app/library.py:288-291 | reordering the vertices of entities keeps the key |
| Signatures.BucketIs | app/library.py:308-318 | a bucket is the offset from the centre in ten-thousandths, rounded to the nearest integer, halves to even |
| Signatures.CentreBalances | app/library.py:305-312 | the offsets of all points from the centre add up to zero |
| Signatures.EqualKeysAreClose | app/library.py:283-326 | templates with one key have, entity by entity, as many points, and every point has a counterpart whose offset from its centre is within one ten-thousandth |
| LibraryInstances.RunsKeepNoDuplicates | app/library.py:809-861 | in runs of loads, adds and deletes by any number of instances, no class ever holds two templates with one signature if and only if no add is made by an instance that misses a template another stored since it loaded |
| LibraryInstances.TurnsKeepNoDuplicates | app/library.py:809-827 | no duplicates ever, when nobody else adds between the load of an instance and its adds |
| LibraryInstances.CacheFollows | app/library.py:676-861 | the cache of an instance is the rows of its library, up to what other instances stored or deleted since it loaded |
| LibraryInstances.AddDuplicatesIff | app/library.py:809-827 | an add stores a duplicate if and only if the instance knows of no such template and another instance stored one, still there, since this one loaded |
| LibraryInstances.AddIsLostIff | app/library.py:809-827 | an add leaves nothing with that signature stored if and only if all the instance knows of were deleted by others since it loaded and nobody else stored one |
| LibraryInstances.TwoInstancesDuplicate | app/library.py:889-905 | two instances that both load before either adds store any two templates with one signature |
| LibraryStores.AddedIsThereOnce | app/library.py:809-827 | after an add the class holds exactly one template with that signature |
| LibraryStores.Library.AddTemplateForFile | app/library.py:809-827 | deduplicates against the cache, whatever others stored: a cached template with the signature is returned with nothing changed, or the new one is cached and stored; while the cache mirrors the store, that is adding once |
| LibraryStores.Library.AddClass | app/library.py:757-774 | adds the class to cache and store with its declared default configuration; no other row changes |
| LibraryStores.Library.FindTemplate | app/library.py:847-852 | finds the cached template, or the cache has none with that id |
| LibraryStores.Library.DeleteTemplate | app/library.py:854-861 | drops the cached template with that id and, if it is still there, its row; not found when the cache has none |
| LibraryStores.Library.Load | app/library.py:646-700 | class rows in rank order and every template under its class, agreeing with the store |
| LibraryStores.MirrorIsWellFiled | app/library.py:646-700 | a freshly loaded cache files each template once under its class and holds exactly the rows of its library |
| LibraryStores.Store.UpsertClass | app/library.py:578-584 | inserts with one more than the greatest rank, 0 in an empty library; an existing row is untouched |
| LibraryStores.Store.UpdateClassStrategy | app/library.py:586-603 | sets the configuration of an existing class and raises the revision of its library by one; nothing else changes |
| LibraryStores.Store.InsertTemplate | app/library.py:605-621 | appends the row and raises the revision of its library by one; nothing else changes |
| LibraryStores.Store.DeleteTemplate | app/library.py:623-631 | removes the row with that id and raises the revision of the library it belonged to by one; nothing else changes |
| LibraryStores.Store.UpdateTemplateClass | app/library.py:633-644 | retags the row with that id and raises the revision of its library by one; nothing else changes |
| LibraryRevision.StepIsHarmless | app/library.py:558-644 | every step of any writer bumps a library's revision or leaves everything a scan of it depends on |
| LibraryRevision.ReachableInv | app/jobs.py:198-205 | in every interleaving each scan in flight and each stored snapshot is behind the current revision or agrees with the current library |
| LibraryRevision.NotStaleMeansCurrent | app/main.py:2116-2121 | a snapshot not reported stale was computed from exactly the configurations and templates held now, up to classes without templates |
| LibraryRevision.StaleIffWritten | app/main.py:2116-2121 | a snapshot is stale if and only if, since its scan began, an existing class of the library was configured or a template of it was inserted, deleted or moved |
| LibraryStores.Store.RenameLegacy | app/library.py:458-475 | update-or-ignore and delete together rename where the new name is free and drop the leftovers; every template stays and carries the new name where its own is declared as renamed |
| LibraryStores.Store.PurgeDead | app/library.py:477-481 | retired classes and their templates go |
| LibraryStores.Store.SeedDefaults | app/library.py:483-495 | every library gets every missing default class |
| LibraryStores.Store.ApplyDefaultConfigs | app/library.py:497-508 | pristine configurations of the listed classes are converted, all others kept |
| LibraryStores.Store.RerankClasses | app/library.py:510-530 | ranks become places in the sorted order of each library |
| LibraryStores.Store.Migrate | app/library.py:440-530 | one boot is the composed migration, for the order the rows were selected in; a database without the revision column first gets it, 0 everywhere; the templates are the old ones that land |
| Migration.MigrationIsIdempotent | app/library.py:440-530 | a second boot changes nothing, on every database, at any later time and for any row order |
| Migration.TemplatesAreKept | app/library.py:458-481 | the templates afterwards are, in the same order, exactly the old ones whose landing name is not retired, each with its id, library and points, and under the new name exactly when its own is declared as renamed |
| Migration.DefaultsAreSeededAndFirst | app/library.py:483-530 | afterwards each library holds each default class, ranked by its place in the declared list |
| Migration.RanksArePermutation | app/library.py:510-530 | the ranks of each library are 0 to n-1, each taken once |
| Migration.CustomsFollowInOrder | app/library.py:510-530 | classes that land outside the default list keep their former relative order |
| Migration.CustomsComeLast | app/library.py:510-530 | every other class ranks after all defaults |
| Migration.ConfigsAreKept | app/library.py:458-508 | a class row that stays, under its own or its new name, keeps its age and its explicit configuration; a pristine one takes the declared default |
| Migration.RowsComeFrom | app/library.py:458-508 | every class row after a boot is exactly one old row that landed there, or was seeded with the declared default |
| Migration.RenamedConfigIsCarried | app/library.py:463-475 | an explicit configuration under a legacy name is in force under the new one if and only if the new name was free in that library, or held the same configuration |
| Migration.TakenNameWins | app/library.py:463-475 | where the new name is taken the row under the legacy name is dropped with its configuration |
| LibraryConstants.BlockedRenameLosesConfig | app/library.py:463-475 | with the declared lists: an explicitly configured "smd" beside an untouched "SMD-2T" loses its configuration at boot |
| Migration.LegacyIsGone | app/library.py:458-481 | no class row or template keeps a legacy or retired name |
| LibraryConstants.DeclaredTablesAreSound | app/library.py:37-157 | the declared lists satisfy what the migration laws ask of them |
| LibraryConstants.DeclaredKeysAreApart | app/library.py:107-134 | no two declared classes share a key text |
| EditLocks.AuthStore.AcquireLock | app/auth.py:545-581 | run alone, v acquires exactly when the holder is nobody or v; otherwise the holder is named and nothing changes |
| EditLocks.AuthStore.HeartbeatLock | app/auth.py:583-593 | refreshes exactly one's own lock |
| EditLocks.AuthStore.ReleaseLock | app/auth.py:609-636 | an owner or a forced release removes the lock, anyone else changes nothing |
| EditLocks.EditorKeepsRow | app/auth.py:545-593 | in any interleaving of acquire statements an editor who keeps beating keeps the row |
| EditLocks.EditorIsProtected | app/auth.py:545-607 | at every instant such an editor is the holder, and every other acquire statement fails naming them |
| EditLocks.WinnerHolds | app/auth.py:545-581 | a statement that wins makes its user the row's holder, and the lock was free, expired or already theirs |
| EditLocks.LateEditorLosesLock | app/auth.py:556-565 | another user's UPDATE wins if and only if the heartbeat is more than 300 seconds old |
| EditLocks.RowGoneIff | app/auth.py:566-581 | an acquire that lost its INSERT finds no holder to name if and only if the row was released before its SELECT and no acquire won it since; otherwise it names the holder of that moment |
| EditLocks.LoserIsTold | app/auth.py:566-581 | without a release of the product in between, a losing acquire always names a holder |
| EditLocks.LoserFindsNobody | app/auth.py:566-581 | from every live lock of another user four steps lead to an acquire with nobody to name |
| Placeholders.QmarkToFormat | app/db.py:183-206 | the character loop computes the translation, and interpolating it is direct substitution for every argument list |
| Placeholders.TranslationKeepsMeaning | app/db.py:183-206 | interpolation of the translation equals substitution for the unquoted placeholders, error for error |
| Placeholders.CountIsKept | app/db.py:183-206 | as many `%s` directives as unquoted `?` |
| Placeholders.BindsExactly | app/db.py:183-206 | binding succeeds exactly with one argument per unquoted `?`, and otherwise says too few or too many |
| Placeholders.TextSurvives | app/db.py:183-206 | every literal `%` and quoted `?` survives: binding question marks gives the statement back |
| Placeholders.UnquotedIffClosed | app/db.py:183-206 | a character is outside quotes exactly when the text before it is made of characters other than quotes and complete literals |
| Placeholders.TranslationByGrammar | app/db.py:183-206 | what comes out is `%s` for each `?` with such text before it, `%%` for each `%`, and every other character as it was |
| Placeholders.MarksAre | app/db.py:183-206 | the placeholders are the question marks with such text before them |

## Left out

- Floating point: coordinates, radii and timestamps are reals, so rounding error and NaN are not modelled.
- SuppressionPass.SuppressContainedMatches: handles are strings compared for equality; `int()` accepts more digit and space characters than the ASCII ones `MatchKeys.ParseInt` reads.
- MatchPipeline.SaveMatch: the refreshed pre-match snapshot and the blob writes are not modelled; the matcher is a function of template, strategy and ratio over one drawing.
- ClassTables: the key and view-constraint tables are parameters; the declared ones are in `LibraryConstants`.
- WorkerLoops.WorkerLoop.RunOnce: one clock reading per tick stands for the several the code takes; an exception that escapes the tick, session pruning and logging are not modelled.
- ChildCounts: claims that lose their race change nothing and are no steps; reprocess-all parents insert their children at any time.
- JobQueueRuns: payloads, results and error texts of jobs, `find_inflight` and file-store side effects are not modelled; a tick is atomic there, single statements are in `ClaimProtocol`.
- BucketLookups: caches keyed by object identity are replaced by indexes computed from the drawing.
- SingleMatch.MatchSingle: resampling, principal axes and chamfer distance are given as functions; processes and their pool are replaced by running the chunks in order.
- MultiMatchScan.MatchMulti: principal axes are given as orthonormal pairs, norms as roots of squared lengths and the spatial index as its ball query.
- PairAlignment.TryMirrors: for a candidate pair with coinciding centroids the code divides by zero; the model uses an arbitrary direction there, which can only add matches, all of them witnessed.
- MultiMatchScan.SeedsMatch: the choice per role is greedy, so completeness is claimed for poses that give every role an entity of its own; where one entity fits two roles the scan may miss a match.
- Signature-mode matching of single entities, circle fitting and the match diagnostics are not modelled.
- Viewers.Viewer.ClickSelect: the hit test under the cursor is a parameter; rendering, match overlays and session storage are not modelled.
- Connectivity: cell keys are pairs of integers instead of their text.
- LibraryInstances: class rows, configurations and library deletion are outside the runs.
- LibraryStores.Library: moving a template is modelled in the store and in `LibraryRevision`, not in the cache, since a move is not checked for duplicates.
- LibraryRevision: library deletion and boot migration are outside the runs; a scan starts only for a library that exists.
- LibraryTables: kinds, centroids and boxes of templates are dropped, and templates are kept in insertion order, which is the order of `created_at` on one clock.
- EditLocks.AuthStore.ReleaseLock: the audit entry of a forced release is not modelled.
- Placeholders.QmarkToFormat: statement rewriting for MySQL and the drivers themselves are not modelled; arguments are already escaped texts.
- Routes other than the two scans, sign-in, sessions, storage backends, schema versioning, drawing parsing, rule checks and rendering are not part of this model.
