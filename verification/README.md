# Verified model of scx_mlfq

scx_mlfq is a sched_ext scheduler: a BPF core in C that queues, charges and dispatches tasks over
three priority queues per CPU, and a Rust daemon that trains a regression tree on observed CPU bursts
and publishes it to the core. This project models the parts of both that decide something and proves
what they keep over every input, every run and every interleaving.

`dafny verify dfyconfig.toml` verifies the whole project.

## Components

**Prediction tree, from samples to a concurrent reader.** `Samples` and `BestSplit` are the one-pass
split search, `TreeFit` the breadth-first growth, `TreeLayout` the flat array and its validator,
`TreeWalk` the two walks (daemon and scheduler), `TreeMeaning` what a grown tree predicts, `Training`
one daemon run, `Publish` the double-buffered publish with any number of readers, `Pearson` and
`Ratchet` the publish gate over whole daemon lifetimes, `Window` the per-pid capped sample window.
The chain is closed: a fitted tree is valid with one parent per node (`TreeMeaning.GrownIsValid`),
such a tree is walked as plain descent by both walks (`TreeWalk.ValidatedWalkReachesLeaf`), and a
reader racing the publisher returns that descent in the tree its meta load named
(`Publish.ReadersReachTheLeaf`). `Serving` runs daemon, publisher and readers as one machine and
proves that it refines the daemon that publishes at once; `Pipeline` states the chain in one theorem
over that machine, from windows of samples to a concurrent reader's prediction.

**Virtual time.** `Placement` is EEVDF placement, charging and the clock on wrapping 64-bit words,
tied to the unbounded timeline; `Starvation` the starvation bound and eligibility over runs on that
timeline; `WordRuns` the same steps on words, and the simulation that carries both to whole runs of
them; `ClockCas` what lost compare-and-swap advances can cost.

**Dispatch.** `Topology` plans the cache domains, `StealScan` is the candidate set of the two steal
tiers, `Dispatch` the served queues, with conservation, budget, order and completeness,
`DispatchRace` the calls of all CPUs racing on them.

**Shared counters.** `Gauges` and `WakeupFold` interleave single atomic operations of any number of
tasks and CPUs.

**Fixed-point control and classification.** `Ema`, `Adapt`, `Classify` and `ClassifyRuns`.

`Word` holds machine words and the wrapping order, `Arithmetic` and `Wrappers` shared helpers.

## Modelling decisions

- Words are integers with explicit wrap-around; `time_before` is the sign of the wrapped difference.
  Timeline statements require the instants compared to be less than 2^63 apart, whole runs on words
  that all instants stay less than 2^62 from the clock.
- `f64` is exact `real`. Recency weights are arbitrary positive reals and the square root is a
  parameter; the correlation is specified squared and with its sign.
- Protocols are state machines whose steps are single shared-memory accesses; history fields (which
  commit a reader's load named, which gauges a task is counted in, which stamps won a gate) only
  record and never decide.
- Structures updated in place are classes, and each method is tied to a function of the old state
  about which the properties are proved.
- The tree's nodes are stored in any order and in any batches within one publish, so the result does
  not depend on how the map update copies.
- `Params` of growth are free: the tree theorems hold for every leaf minimum and every required
  reduction, for depth caps up to 12 and budgets up to 2048.

## Where the code and its comments disagree

- `publish_tree` says a torn read needs two completed publishes within one walk. One commit after the
  load and the start of the next publish suffice (`Publish.TornWalkWitness`).
- `serialize_validate` says every reachable prediction of an accepted tree is a real leaf. That holds
  with one parent per node, which growth guarantees; with shared children the recorded first-visit
  depth is the shortest one and a walk can be cut (`TreeWalk.SharedChildrenCutTheWalk`).
- The wakeup path is described as promotion-only. The Q3 seed raises the queue number
  (`ClassifyRuns.WakeupSeedRaises`).
- The validator's loop reports an unreachable node through its depth message, because the unset depth
  is the largest word and is compared first; the model has one verdict for it.
- `mlfq_sleep_ema_update` clamps the sleep to 64 ms before testing it against 120 ms, so its long-idle
  branch, and the decay of the GPU count in it, is never taken; the model does not contain it.
- The stay comment says only Q2 and Q3 stays carry a stamp. An aging boost moves a task to Q1 and
  leaves the stamp; it is without effect, because every way back re-arms it (`ClassifyRuns.StepKeeps`).
- A gauge is said to climb with the run. `validate` accepts ceilings at which the product wraps and a
  longer run climbs less, 100 ms at the default alpha among them (`Ema.HundredMillisecondsFalls`).
- `validate` accepts aging periods of 2^63 and more, which the wrapping order reads as already over:
  every stay then ends as it begins (`ClassifyRuns.UnmeasurablePeriodPinsToQ1`).
- The rate limit of boosts uses 0 as "never": a boost granted at instant 0 is forgotten
  (`ClassifyRuns.ZeroStampIsForgotten`).

## Model

| member | source | states |
|---|---|---|
| Samples.RunningSse | scx/src/mlfq_tree.rs:272-280 | The error computed from the running sums of a group equals the weighted sum of squared deviations from its weighted mean, for every non-empty group and any positive weights. |
| Samples.DeviationExpands | scx/src/mlfq_tree.rs:272-280 | The squared deviations around any point are a quadratic in the three label totals. |
| Samples.MeanBalances | scx/src/mlfq_tree.rs:272-280 | The weighted mean of a non-empty group is the one point around which the weighted signed deviations of its labels cancel. |
| Samples.BalanceIsLeast | scx/src/mlfq_tree.rs:272-280 | Away from that point the squared error of a group grows by its weight times the squared distance, so it is least there. |
| Samples.CappedMeanBetween | scx/src/mlfq_tree.rs:302-309 | A prediction that is such a point, truncated and capped at 2^32 - 1, lies between the smallest and the largest label of the group, each capped. |
| BestSplit.Midpoint | scx/src/mlfq_tree.rs:221-224 | The threshold between two distinct values is half their sum, rounded down, and separates them: at or above the lower, strictly below the higher, for all 64-bit values. |
| BestSplit.GainRuns | scx/src/mlfq_tree.rs:427-440 | What the sweep computes from totals of the whole node and of the left group is the error the split removes, measured on the two groups themselves; it has no value exactly when a side is empty or below the leaf minimum. |
| BestSplit.SweepPoint | scx/src/mlfq_tree.rs:406-424 | Any threshold between two neighbouring sorted values routes exactly the prefix swept so far to the left, so every 64-bit threshold is equivalent to a swept one. |
| BestSplit.AddGroup | scx/src/mlfq_tree.rs:415-424 | A maximal run of equal feature values enters the left totals as a whole. |
| BestSplit.SweepFeature | scx/src/mlfq_tree.rs:401-448 | Sweeping one more feature keeps the best split over everything swept. |
| BestSplit.FindBestSplit | scx/src/mlfq_tree.rs:389-451 | Over all nine features and all 64-bit thresholds: the returned split has the largest gain, above the required reduction, both sides at the leaf minimum, the first of its equals in sweep order and at the midpoint of its gap; None exactly when no such split beats the required reduction. |
| TreeFit.Partition | scx/src/mlfq_tree.rs:591-599 | Each sample of a node goes to the side the walk would take, order kept. |
| TreeFit.Fit | scx/src/mlfq_tree.rs:511-634 | Growth returns an empty list exactly for no samples or no node budget, and otherwise a grown tree: breadth-first numbering, each node split exactly when its depth, count, budget and error allow it and a best split exists, by that best split, else a leaf with the clamped weighted mean. Terminates on node budget left plus queue length. |
| TreeFit.SplitStep | scx/src/mlfq_tree.rs:572-614 | Splitting the oldest pending node keeps the growth invariant: two placeholders more, their samples the two sides of the split. |
| TreeFit.LeafStep | scx/src/mlfq_tree.rs:615-624 | Turning the oldest pending node into a leaf keeps the growth invariant. |
| TreeFit.BestSides | scx/src/mlfq_tree.rs:426-428 | Both sides of a chosen split hold at least one sample and the leaf minimum. |
| TreeMeaning.GrownIsValid | scx/src/mlfq_tree.rs:636-728 | Every grown tree within depth 12 and 2048 nodes is accepted by the validator, and no node has two parents. |
| TreeMeaning.PassesLeafIffEnds | scx/src/mlfq_tree.rs:762-777 | On a tree with parents, a descent passes a leaf exactly when it ends there. |
| TreeMeaning.GroupIsPassing | scx/src/mlfq_tree.rs:591-614 | The samples growth put into a node are exactly the training samples whose walk passes it. |
| TreeMeaning.TrainedPrediction | scx/src/mlfq_tree.rs:511-634 | For every feature vector both walks return the point around which the weighted labels of exactly the training samples on the same leaf balance, truncated and capped at 2^32 - 1; there are such samples on every leaf, below the root at least the leaf minimum. |
| TreeMeaning.PredictionBetweenLabels | scx/src/mlfq_tree.rs:302-309 | So in both walks the prediction lies between the smallest and the largest training label on the leaf, each capped. |
| TreeMeaning.NodeSplitsIff | scx/src/mlfq_tree.rs:538-570 | A node of a grown tree splits if and only if depth, sample count and node budget allow it, its squared error is above the noise floor of 1e-12 of its squared labels, and some threshold on one of the nine features with both sides at the leaf minimum, and some value for each side, leave less than the error minus the required share. |
| TreeMeaning.SplitIsLeastSquares | scx/src/mlfq_tree.rs:389-451 | Where it splits, no admissible split at any feature and threshold and with any two values leaves less squared error than the two children do. |
| Training.WeightedHoldoutMae | scx/src/mlfq_tree.rs:827-846 | The loop computes the weighted mean absolute error, 0 for an empty slice. |
| Training.MaeBalances | scx/src/mlfq_tree.rs:827-846 | The error of a non-empty slice is the one point around which the weighted absolute differences of predictions and labels cancel. |
| Training.ErrorFreeIffExact | scx/src/mlfq_tree.rs:827-846 | The weighted error is never negative and vanishes exactly when every prediction equals its label. |
| Training.ErrorBelowMax | scx/src/mlfq_tree.rs:827-846 | It is at most the largest single error in the same weights. |
| Training.PredictAll | scx/src/main.rs:1412-1416 | On a validated tree with one parent per node the holdout predictions are the leaves of the plain descent. |
| Training.Score | scx/src/main.rs:1409-1430 | Both holdout errors and the correlation are those of the tree's leaves and the gauge baseline against the holdout labels. |
| Training.TrainModel | scx/src/main.rs:1385-1439 | A run is skipped exactly below 20 samples; otherwise the fitted tree always passes validation, has one parent per node, counts the pids of its fit slice, and carries the two holdout errors and the correlation of plain descent on the holdout. |
| Training.RunPredicts | scx/src/main.rs:1385-1439 | For every feature vector the tree of a run predicts the balance point, truncated and capped, of the labels of the fit slice's samples on the same leaf, of which there are some. |
| Training.RunScored | scx/src/main.rs:1385-1439 | The scores of a run in its own data: on the last tenth of the window and in its weights, the two errors balance the absolute differences of the leaves, and of the gauge, from the labels, and the correlation is that of leaves and labels. |
| TreeLayout.SerializeValidate | scx/src/mlfq_tree.rs:652-728 | Accepts exactly the layouts with 1..2048 nodes, children in range after their parent, populated split ids, every node reachable and inner nodes at shortest depth below 12; each rejection names a real culprit. |
| TreeLayout.NoShorterPath | scx/src/mlfq_tree.rs:672-709 | The first-visit depth of the breadth-first search is the shortest depth, and everything up to the open level is seen. |
| TreeLayout.ValidIsOrdered | scx/src/mlfq_tree.rs:690-697 | In an accepted layout every edge goes forward, so there are no cycles. |
| TreeLayout.OneParentStaysShallow | scx/src/mlfq_tree.rs:644-651 | With one parent per node no descent is longer than the layout is deep. |
| TreeWalk.Predict | scx/src/mlfq_tree.rs:737-792 | The daemon's loop computes the masked, depth-capped walk over the unpadded list. |
| TreeWalk.WalkStore | scx/src/bpf/intf.h:1969-2018 | The scheduler's loop computes the same over a full store entry, in 1 to 13 node reads. |
| TreeWalk.ArrayIsFeatValue | scx/src/mlfq_tree.rs:194-213 | The 16-entry arrays both walks index hold the features in the order of the ids the fit splits on. |
| TreeWalk.WalksAgree | scx/src/bpf/intf.h:1949-1957 | For every list of at most 2048 nodes with populated feature ids, valid or not, both walks return the same prediction for every feature vector. |
| TreeWalk.WalksDisagreeOnFeatureNine | scx/src/bpf/intf.h:1991-1997 | The feature condition is needed: on id 9 the daemon reads the carried-along value, the scheduler stops. |
| TreeWalk.WalkIsCappedDescent | scx/src/mlfq_tree.rs:757-792 | On any forward layout the walk returns the leaf of the plain descent if that takes at most 12 edges, and 0 otherwise. |
| TreeWalk.ValidatedWalkReachesLeaf | scx/src/mlfq_tree.rs:645-651 | On an accepted layout with one parent per node both walks end on the leaf of the plain descent within 12 edges, for every feature vector. |
| TreeWalk.ShortPathsReachLeaf | scx/src/mlfq_tree.rs:757-792 | Shared children or not, on a forward layout with level numbers of at most 12 that grow along every edge (no longer path) both walks end on the leaf of the plain descent. |
| TreeWalk.OneParentHasLevels | scx/src/mlfq_tree.rs:698-709 | One parent per node is a special case: the shortest depths are such levels. |
| TreeWalk.LadderIsValid | scx/src/mlfq_tree.rs:698-709 | A 15-node layout with shared children is accepted. |
| TreeWalk.SharedChildrenCutTheWalk | scx/src/mlfq_tree.rs:698-709 | On it the walk returns 0 although the descent ends on a leaf predicting 5: acceptance alone does not make the walk total. |
| Publish.MetaRoundTrip | scx/src/mlfq_tree.rs:873-886 | Trained bit, active bit, node count and the 32-bit generation read back from a packed meta word as written. |
| Publish.StepKeeps | scx/src/main.rs:1225-1270 | Every single step of the publisher (start, any subset of the remaining nodes, commit) and of any reader (meta load, node read) keeps the protocol invariant. |
| Publish.ReadersSeeOneTree | scx/src/bpf/intf.h:2165-2194 | In every interleaving a finished prediction took at most 13 node reads, is 0 if its meta load was untrained, and is the prediction of the one committed tree its load named unless a publish started writing after a commit that followed the load. |
| Publish.ReadersReachTheLeaf | scx/src/bpf/intf.h:2165-2194 | If the committed trees are validated with one parent per node, that prediction is the leaf of the plain descent in the named tree. |
| Publish.UntornRead | scx/src/bpf/intf.h:2165-2194 | On the actions alone: a reader that loads a trained meta, and during whose walk no publish starts after a commit, returns in at most 13 reads the prediction of the tree committed last when it loaded. |
| Publish.TornWalkWitness | scx/src/main.rs:1216-1224 | A run with one commit after the load and one further publish that has written a single node, in which the walk returns a value none of the three valid trees predicts. |
| Pearson.Moments | scx/src/mlfq_tree.rs:916-938 | The loop computes the comoment and both second moments of the deviations from the means. |
| Pearson.Correlation | scx/src/mlfq_tree.rs:916-938 | For every square root the computed coefficient is the correlation: 0 where undefined, else its square times both second moments is the squared comoment, with the comoment's sign. |
| Pearson.CauchySchwarz | scx/src/mlfq_tree.rs:931-938 | The squared comoment is at most the product of the second moments. |
| Pearson.PearsonBounded | scx/src/mlfq_tree.rs:909-938 | A correlation is between -1 and 1, the undefined cases included. |
| Pearson.PerfectIffAffine | scx/src/mlfq_tree.rs:909-938 | A correlation is 1 (-1) if and only if the first series is not constant and the second is a rising (falling) affine image of it. |
| Ratchet.Daemon.constructor | scx/src/bpf/intf.h:564-579 | The zeroed store and meta are the untrained model. |
| Ratchet.Daemon.PublishTree | scx/src/main.rs:1225-1270 | A generation not above a non-zero committed one is refused with nothing changed; otherwise the inactive entry holds the padded tree and the meta names it. |
| Ratchet.Daemon.ApplyTrainResult | scx/src/main.rs:1143-1205 | Store, meta, generation and score change together exactly for a valid fit with at least 8 pids that clears the gate, and not at all otherwise. |
| Ratchet.Commits | scx/src/main.rs:1149-1190 | In every reachable state an eligible fit is never refused by the generation check, and committing it keeps the run invariant. |
| Ratchet.IncreasingSnoc | scx/src/mlfq_tree.rs:795-824 | A committed correlation beats all earlier ones by more than 1e-9 and leaves fewer than 700 million steps up to 1. |
| Ratchet.RatchetRun | scx/src/mlfq_tree.rs:795-886 | Over every series of scored fits from the untrained daemon: at most 700 million commits, each valid, better than the baseline and than all before, generation equal to their number, no wrap of its 32 bits, the active bit alternating, the active entry holding the last. |
| Ratchet.CommittedIff | scx/src/main.rs:1143-1205 | In every reachable state a fit is committed (generation up by one, its correlation stored, its tree padded in the newly active entry, the other entry as it was) if and only if its tree is valid, its slice held 8 pids, its error is at most the baseline's, its correlation is at least 0.3 and, with a model committed, above that model's by more than 1e-9; otherwise nothing changes. |
| Ratchet.RisingSeriesCommitted | scx/src/mlfq_tree.rs:795-824 | A series of training runs each of which improves in that sense on the one before is committed whole. |
| Ratchet.RunCorrelation | scx/src/main.rs:1428-1429 | The correlation of a training run is at most 1. |
| Pipeline.RunExplains | scx/src/main.rs:1385-1439 | The leaf a training run's tree gives is explained by the window it was fit on. |
| Serving.PublishTreeIsRun | scx/src/main.rs:1225-1270 | The generation check is exactly the guard of the publisher's start, and a publish that passes it leaves the meta and store that a start, the writes and a commit leave; a refused one leaves everything. |
| Serving.StartsIffEligible | scx/src/main.rs:1149-1190 | In every reachable state the daemon starts publishing exactly the eligible fits. |
| Serving.CommitApplies | scx/src/main.rs:1143-1205 | The commit that ends a publish leaves the daemon model that applying the fit at once would, entry for entry. |
| Serving.StepKeeps | scx/src/main.rs:1143-1270 | Every step of daemon, publisher and readers keeps the daemon that publishes at once behind the interleaved machine. |
| Serving.RunRefinesDaemon | scx/src/main.rs:1143-1270 | Over every interleaving: the fits taken up, but for the one under way, were applied in order by the daemon that publishes at once; the publisher committed exactly the trees of its commits; generation, score, meta and active entry are its own, and so is the whole store between publishes. |
| Pipeline.WindowToReader | scx/src/main.rs:1112-1270 | End to end, over every interleaving of a daemon that takes up training runs, gates and publishes them node by node, with readers walking: an untorn prediction is that of one committed fit which the daemon took up, whose error on its held-out tenth was at most the gauge baseline's, which held at least 8 pids, and it is the balance point of the labels of the fit slice's samples on the reader's leaf, truncated and capped. |
| Window.TrainingWindow.TreeAdmitPid | scx/src/main.rs:1337-1344 | Admits exactly below the cap of 819 and counts the sample then. |
| Window.TrainingWindow.TreeEvictPid | scx/src/main.rs:1349-1356 | Uncounts one sample and prunes the entry at zero. |
| Window.TrainingWindow.IngestSample | scx/src/main.rs:1072-1085 | The window gains the sample, losing its oldest at 16384, or the drop counter does; the map stays the exact multiplicity of the window without zero entries. |
| Window.IngestedCapped | scx/src/main.rs:1072-1085 | No pid ever holds more than 819 samples of the window. |
| Window.WindowRun | scx/src/main.rs:1072-1085 | After any sequence of samples: let in plus dropped equals ingested, and the window is the newest 16384 of those let in. |
| Window.SplitHoldout | scx/src/main.rs:1320-1331 | Refuses below 20 samples, else cuts off the last tenth, rounded down. |
| Window.TreeDistinctPids | scx/src/main.rs:1359-1365 | Counts the distinct pids of a slice. |
| Window.Pigeonhole | scx/src/main.rs:104-113 | A slice is at most the cap times its number of distinct pids long. |
| Window.PidGatePasses | scx/src/main.rs:115-123 | Every reachable window of at least 6371 samples has at least 8 distinct pids in its fit slice, so the pid gate cannot reject it. |
| Window.PidGateBoundIsTight | scx/src/main.rs:115-123 | A reachable window of 6370 samples has a fit slice of fewer than 8 pids. |
| Word.TimeBeforeIsLess | scx/src/bpf/intf.h:1140-1156 | The wrapping order is the integer order on instants less than 2^63 apart. |
| Word.TimeBeforeInArc | scx/src/bpf/intf.h:1140-1156 | On one half circle it is a linear order. |
| Placement.BoundsFit | scx/src/bpf/intf.h:1245-1278 | For slices below 2.9 years the word-sized lag limit and request are the exact ones and stay below 2^63. |
| Placement.BoundsInNumbers | scx/src/bpf/intf.h:1245-1278 | Times the weight, the lag limit is a slice and one millisecond at the nice-0 weight of 100, the request a slice, both rounded down, and the first request half a request. |
| Placement.PlaceEntity | scx/src/bpf/intf.h:1385-1410 | Commits the read-only deadline, never zero, one request after the new vruntime (1 at the wrap point); the lag is clock minus vruntime, within 0 and the limit, in wrapping order; on the unbounded timeline the vruntime is clamped to [clock - limit, clock]. |
| Placement.PlaceWraps | scx/src/bpf/intf.h:1320-1353 | The word-sized placement is the unbounded one, wrapped. |
| Placement.UpdateVruntime | scx/src/bpf/vtime.bpf.c:56-60 | A run segment advances the vruntime by its weighted length, on words and on the timeline. |
| Placement.AdvanceClock | scx/src/bpf/intf.h:1296-1303 | Without interference the clock becomes the maximum of itself and the charged vruntime. |
| Starvation.StepKeepsValid | scx/src/bpf/vtime.bpf.c:29-60 | Every step of any schedule keeps queued tasks eligible and the clock monotone. |
| Starvation.StepRaisesFloor | scx/src/bpf/intf.h:1385-1410 | No step lowers the vruntime a task is sure to have at its next service, and a service raises it; in particular placement never lowers a vruntime at or behind the clock. |
| Starvation.ServiceCostsTurn | scx/src/bpf/intf.h:1364-1381 | While a task waits, each service of another uses up one of the turns left before its deadline. |
| Starvation.PassedOverBound | scx/src/bpf/intf.h:1364-1381 | In every run that does not serve a queued task with deadline D, the others are served at most the sum of max(0, D - floor + 1) times, whatever else advances the clock. The floor is the vruntime each is sure to have at its next service: its own if queued, at most the clock if it stopped ahead of it, one above its last placement while it runs or is being charged. |
| Starvation.PassedOverVruntimeBound | scx/src/bpf/intf.h:1364-1381 | While every other task is queued, running, or stopped at or behind the clock, the bound is the sum of max(0, D - vruntime + 1). |
| Starvation.LostSwapOvertakes | scx/src/bpf/intf.h:1279-1303 | That condition is needed: a run in which a task charged past D loses its swap, is placed back at the clock and is served first although the sum is 0. |
| Starvation.ServedWithinBound | scx/src/bpf/intf.h:1364-1381 | A run with more services than that serves the waiting task. |
| Starvation.PlacedEligible | scx/src/bpf/intf.h:1385-1410 | After every run a placement leaves the task eligible, within its lag limit of the clock its first read saw, and due at most one request (plus the wrap step) later, plus what the clock moved between its two reads. |
| WordRuns.StepSimulates | scx/src/bpf/intf.h:1245-1410 | Every step of the code on 64-bit words (placement in two clock reads, charge, clock read, compare-and-swap, service, another CPU's advance) is the wrapped step of the timeline while all instants are less than 2^62 from the clock. |
| WordRuns.RunSimulates | scx/src/bpf/intf.h:1245-1410 | So is every whole run, with the same services. |
| WordRuns.WordPassedOverBound | scx/src/bpf/intf.h:1364-1381 | The starvation bound holds of every such run on words. |
| WordRuns.WordQueuedEligible | scx/src/bpf/vtime.bpf.c:29-60 | After every such run, in wrapping order, no queued task is ahead of the clock and none is due before its vruntime. |
| WordRuns.WordPlacedEligible | scx/src/bpf/intf.h:1385-1410 | A placement there is eligible, within its lag limit of the clock of its first read, has a non-zero deadline, and is due one request (plus the wrap step) later plus what the clock moved between its reads, on words. |
| ClockCas.RunKeepsValid | scx/src/bpf/intf.h:1296-1303 | Under any interleaving of single-shot advances the queue clock never moves backward. |
| ClockCas.BatchLandsOnCharged | scx/src/bpf/intf.h:1279-1303 | A finished batch leaves the clock on one of the charged vruntimes ahead of it, if there is one, and unmoved otherwise. |
| ClockCas.ClockTrailsBySpread | scx/src/bpf/intf.h:1279-1303 | So it ends between the smallest and the largest vruntime ahead and trails the largest by at most their spread. |
| ClockCas.LostSwapWitness | scx/src/bpf/intf.h:1279-1303 | An interleaving in which the larger of two advances is lost. |
| Topology.PlanLlcs | scx/src/topology.rs:127-171 | The plan is disabled exactly for an empty map or a domain id out of range; otherwise domain lists, per-CPU domains, domain count and the primary flags are those of the map. |
| Topology.BuildLlcCpuList | scx/src/topology.rs:670-690 | The published list is the domain's in-range CPUs in order, or empty above 32, with a zeroed tail. |
| Topology.MappedIffMember | scx/src/topology.rs:157-163 | With distinct CPUs, a CPU is mapped to a domain exactly when the domain lists it. |
| StealScan.ReachedOnce | scx/src/bpf/dispatch.bpf.c:251-254 | A rotated window of full width reaches every place at exactly one position. |
| StealScan.OwnListIsDomain | scx/src/bpf/dispatch.bpf.c:187-192 | A live own-LLC window lists exactly the CPUs of that domain, each once. |
| StealScan.WindowsOfMap | scx/src/bpf/dispatch.bpf.c:170-260 | In terms of the planned map: the first window holds exactly the other CPUs of the own domain if that has at most 32, the second the CPUs at the first 64 places of the rotation outside what the first covers, each once, and it runs unless the own domain is listed and the only one. |
| StealScan.ProbesOf | scx/src/bpf/dispatch.bpf.c:247-345 | On a planned machine of any size each remote CPU is probed once if it is in a live own-LLC window or within the width of a rotating window that runs, and never otherwise. |
| StealScan.EachRemoteProbedOnce | scx/src/bpf/dispatch.bpf.c:247-345 | On a machine of any size and at any offset the two tiers probe every remote CPU exactly once, oversized and disabled domains included, if and only if the scan is covered: what the rotation puts beyond position 64 is skipped anyway, and where only the own domain is scanned every CPU is mapped to it. |
| StealScan.CoveredUpTo64 | scx/src/bpf/main.bpf.c:730-736 | Up to 64 CPUs a scan is covered if and only if a lone scanned domain has every CPU mapped to it. |
| StealScan.CoveredWithoutOwnWindow | scx/src/bpf/main.bpf.c:730-736 | Without an own-LLC window it is covered if and only if there are at most 64 CPUs, or 65 with the dispatching one at the last position. |
| StealScan.OnlyRemotesProbed | scx/src/bpf/dispatch.bpf.c:256-300 | Neither the own CPU nor one beyond the machine is ever probed. |
| StealScan.OffsetsRecur | scx/src/bpf/dispatch.bpf.c:453-462 | Successive calls reach every offset: within n calls on n CPUs, or within 2n across the wrap of the 32-bit counter. |
| StealScan.EveryRemoteIsProbedAgain | scx/src/bpf/dispatch.bpf.c:453-462 | From any counter value one of the next 2n calls has a given remote CPU in its rotating window, whatever the size of the machine, unless that window does not run or skips the CPU. |
| Dispatch.Dispatcher.MoveToLocal | scx/src/bpf/dispatch.bpf.c:204-218 | Moves the first entry that may run here from a DSQ to the local one and reports whether there was one. |
| Dispatch.Dispatcher.ScanTierA | scx/src/bpf/dispatch.bpf.c:247-277 | The loop over the own-LLC window ends with the best of its candidates. |
| Dispatch.Dispatcher.ScanTierB | scx/src/bpf/dispatch.bpf.c:294-345 | The loop over the rotating window ends with the best of its candidates. |
| Dispatch.Dispatcher.DispatchQueue | scx/src/bpf/dispatch.bpf.c:150-414 | The slot loop serves its queue as the sequence of slots says and returns the number of tasks moved. |
| Dispatch.Dispatcher.DecideKeep | scx/src/bpf/dispatch.bpf.c:505-556 | The outgoing task is kept exactly if it is queued, tracked, all own DSQs are empty and the probed CPU has no head for this one. |
| Dispatch.Dispatcher.ServeQueues | scx/src/bpf/dispatch.bpf.c:558-573 | The three services of a call, with a remainder that never wraps. |
| Dispatch.Dispatcher.Dispatch | scx/src/bpf/dispatch.bpf.c:416-576 | One call rotates the scan start by one, then keeps the outgoing task with all queues unchanged, or appends three shares to the local DSQ: Q1 within its quota, then Q2 within its quota, then Q3 within what both leave of the batch. |
| Dispatch.ServedInThreeShares | scx/src/bpf/dispatch.bpf.c:558-573 | Each share takes only from the DSQs of its queue, conserves them with what it appends, holds only tasks that may run here, begins with the own ones in queue order up to the budget, and ends below its budget only when no source is left; the shares come in the order Q1, Q2, Q3. |
| Dispatch.KeepIff | scx/src/bpf/dispatch.bpf.c:497-556 | The outgoing task is kept exactly when it is queued on Q1 to Q3, all three DSQs of this CPU are empty and no head of the one probed CPU, which is another, may run here. |
| Dispatch.NothingMovedIff | scx/src/bpf/dispatch.bpf.c:558-573 | A call that serves moves nothing exactly when none of the three queues has a source. |
| Dispatch.CallFindsWork | scx/src/bpf/dispatch.bpf.c:558-573 | On a covered machine that is exactly when no task of its own three DSQs and no head of any remote DSQ may run on this CPU. |
| Dispatch.SourceYields | scx/src/bpf/dispatch.bpf.c:347-357 | The chosen source always yields a task, so every slot that finds a source moves one. |
| Dispatch.ServedBudget | scx/src/bpf/dispatch.bpf.c:150-414 | A service moves at most its quota and only appends to the local DSQ. |
| Dispatch.ServedDrains | scx/src/bpf/dispatch.bpf.c:347-349 | A service below its quota ended because no source was left. |
| Dispatch.BatchBudget | scx/src/bpf/dispatch.bpf.c:558-573 | A call moves at most one batch, and Q3 always gets at least batch minus both quotas, which is positive. |
| Dispatch.MoveConserves | scx/src/bpf/dispatch.bpf.c:204-218 | A move conserves the multiset of tasks. |
| Dispatch.BatchConserves | scx/src/bpf/dispatch.bpf.c:416-576 | No dispatch call loses, invents or duplicates a task over all DSQs. |
| Dispatch.AllowedHead | scx/src/bpf/dispatch.bpf.c:204-218 | Popping the first allowed entry takes the head of the allowed subsequence and leaves its tail. |
| Dispatch.OwnFirst | scx/src/bpf/dispatch.bpf.c:138-145 | Within the quota every own task that may run here is moved, in queue order, before any stolen one. |
| Dispatch.FirstIsEarliest | scx/src/bpf/dispatch.bpf.c:204-218 | In a DSQ in deadline order the entry a move takes is due no later than any other that may run here, and what is left stays in order. |
| Dispatch.ServedKeepsOrder | scx/src/bpf/dispatch.bpf.c:150-414 | A service keeps every DSQ in deadline order. |
| Dispatch.OwnInDeadlineOrder | scx/src/bpf/dispatch.bpf.c:138-145 | The own tasks of a service leave in deadline order, before anything stolen. |
| Dispatch.BestIsEarliest | scx/src/bpf/dispatch.bpf.c:266-275 | A scan ends with a head no probed head is before, whenever the heads lie within 2^63. |
| Dispatch.StealIsEarliest | scx/src/bpf/dispatch.bpf.c:138-145 | A steal comes from the own domain if any head there may run here, and is the earliest of its tier. |
| Dispatch.SlotFindsWork | scx/src/bpf/dispatch.bpf.c:197-349 | On a planned machine of any size whose scan is covered, a slot reports no work exactly when its own DSQ yields nothing and no remote head may run here. |
| Dispatch.UncoveredMissesWork | scx/src/bpf/dispatch.bpf.c:197-349 | Where the scan is not covered, some queue contents make a slot report no work despite a remote head that may run here. |
| Dispatch.KeepOverlooks | scx/src/bpf/dispatch.bpf.c:497-556 | Where the scan is covered, a keep overlooks exactly the heads of the remote CPUs it did not probe. |
| Dispatch.KeptAlthoughWorkRemains | scx/src/bpf/dispatch.bpf.c:497-556 | On every covered machine of three or more CPUs some queue contents make the outgoing task kept although a slot would have found work. |
| Dispatch.KeepMissesNothingOnTwo | scx/src/bpf/dispatch.bpf.c:497-556 | On one or two CPUs a kept task leaves nothing any slot would have found. |
| Dispatch.SourceIsRemote | scx/src/bpf/dispatch.bpf.c:256-300 | Every steal takes a head from another CPU. |
| DispatchRace.StepConserves | scx/src/bpf/dispatch.bpf.c:357-378 | However dispatch calls race, each locked move conserves the tasks over all DSQs and local DSQs, and an insert adds its one. |
| DispatchRace.StepKeeps | scx/src/bpf/dispatch.bpf.c:357-378 | Each step keeps every local DSQ to tasks allowed there, and each call to one task per slot used, stale peeks and failed moves included. |
| DispatchRace.RacingCallsConserve | scx/src/bpf/dispatch.bpf.c:352-378 | Over every interleaving of all CPUs no task is lost, duplicated or invented. |
| DispatchRace.CallWithinQuota | scx/src/bpf/dispatch.bpf.c:150-414 | A running call has moved no more than its quota. |
| DispatchRace.SoloCall | scx/src/bpf/dispatch.bpf.c:150-414 | A racing call that nobody disturbs can serve, atomic step by atomic step, exactly as the dispatcher does. |
| Gauges.GaugeTable.AddLlc | scx/src/bpf/intf.h:2218-2226 | One wrapping step on a domain gauge; ids out of range change nothing. |
| Gauges.GaugeTable.AddQueue | scx/src/bpf/intf.h:2236-2244 | One wrapping step on a queue gauge; ids out of range change nothing. |
| Gauges.TaskCtx.RunnableEnter | scx/src/bpf/intf.h:2263-2293 | Run alone, an insert performs its program of atomic operations on gauges and record. |
| Gauges.TaskCtx.RunnableExit | scx/src/bpf/intf.h:2306-2314 | Run alone, a release performs its program of atomic operations. |
| Gauges.ProgramIsOk | scx/src/bpf/intf.h:2247-2314 | From every consistent record each operation of a call is legal at its turn and the call ends with the record naming what the task is counted in. |
| Gauges.CallMovesTask | scx/src/bpf/intf.h:2247-2314 | A call run to its end leaves the record at the domain and queue it asked for, or at none, and moves each gauge by exactly what that changes. |
| Gauges.OpOnGauge | scx/src/bpf/intf.h:2218-2244 | A legal operation moves a gauge by exactly what it moves the task, without wrapping at either end. |
| Gauges.StepKeeps | scx/src/bpf/intf.h:2218-2314 | Every single atomic operation of any call keeps each gauge equal to the number of tasks counted in it. |
| Gauges.NoUnderflow | scx/src/bpf/intf.h:2218-2314 | In every interleaving a gauge is above zero before each decrement. |
| Gauges.GaugeCountsOwners | scx/src/bpf/intf.h:2247-2314 | Each gauge is the number of records naming it, off by at most one per call in flight. |
| Gauges.SumsAgreeWhenQuiet | scx/src/bpf/intf.h:2247-2314 | Whenever no call is in flight the domain gauges and the queue gauges both sum to the number of owned tasks. |
| WakeupFold.WakeupStats.WindowFold | scx/src/bpf/main.bpf.c:438-453 | The fold returns the sum of all windows and leaves them at zero. |
| WakeupFold.StepKeeps | scx/src/bpf/main.bpf.c:438-558 | Every atomic operation of enqueuers, gate callers and folders keeps the conservation law and the spacing of stamps. |
| WakeupFold.FoldedExactlyOnce | scx/src/bpf/enqueue.bpf.c:193-201 | In every interleaving folded arrivals, running folds, windows and enqueuers between their increments add up to the lifetime totals, and winning stamps are an interval apart. |
| WakeupFold.AtMostOnePerSecond | scx/src/bpf/main.bpf.c:535-544 | In real time n winners after a first one take at least n seconds. |
| WakeupFold.UndisturbedStep | scx/src/bpf/main.bpf.c:535-560 | A caller an interval or more past the stamp that nobody disturbs does win, and its fold is the sum of all windows, each left at zero. |
| Ema.EmaClimb | scx/src/bpf/intf.h:1487-1504 | For all word-sized arguments, wrapping included, the climb stays between the gauge and its ceiling. |
| Ema.ClimbFits | scx/src/bpf/intf.h:1487-1504 | No product wraps while the largest one fits a word. |
| Ema.ClimbFitsIff | scx/src/bpf/intf.h:1487-1504 | No product wraps, over all gauges and all runs of a ceiling, if and only if the square of the ceiling times alpha and 256 times the ceiling both fit a word. |
| Ema.ClimbIs | scx/src/bpf/intf.h:1487-1504 | Where no product wraps, the climb is gap times run times alpha over 256 times the ceiling, rounded down, and at most the gap. |
| Ema.ClimbFollowsTheRun | scx/src/bpf/intf.h:1469-1504 | While no product wraps: a longer run never climbs less, no run does not climb, and a full-budget run at an alpha of one or more saturates the gauge. |
| Ema.ClimbFalls | scx/src/bpf/intf.h:1487-1504 | Past the word, while the ceiling times alpha plus 256 still fits one, there is a run after which one more nanosecond climbs less. |
| Ema.ClimbsInOrderIff | scx/src/bpf/intf.h:1469-1504 | For all such ceilings and alphas: a longer run never climbs less, from any gauge, if and only if the square of the ceiling times alpha fits a word. |
| Ema.HundredMillisecondsFalls | scx/src/bpf/intf.h:1469-1504 | At the default alpha a ceiling of 100 ms is past that bound. |
| Ema.NoClimbPastTheDivisor | scx/src/bpf/intf.h:1487-1504 | Where 256 times the ceiling wraps to zero nothing climbs at all, so far beyond the word the order holds again. |
| Ema.Factor | scx/src/bpf/intf.h:1532-1534 | The fractional factor lies between 140 and 256. |
| Ema.FactorAntitone | scx/src/bpf/intf.h:1532-1534 | It never grows with the fraction. |
| Ema.DecayBetween | scx/src/bpf/intf.h:1518-1536 | On exact integers: after p whole half-lives the gauge lies between its (p+1)-fold and p-fold halving, and is the latter at the boundary. |
| Ema.DecayAntitone | scx/src/bpf/intf.h:1518-1536 | On exact integers: a longer sleep never leaves more, across all half-life boundaries. |
| Ema.DecayMonotone | scx/src/bpf/intf.h:1518-1536 | On exact integers: a larger gauge never decays below a smaller one. |
| Ema.DecayInNumbers | scx/src/bpf/intf.h:1518-1536 | On exact integers: whole half-lives divide by powers of two, the fraction x scales by 256 - a + a^2/512 with a = 177 x / 256, in 1/256, and 64 half-lives leave nothing. |
| Ema.DecayFits | scx/src/bpf/intf.h:1518-1536 | No product of the decay leaves a word while the gauge is below and the half-life at most 2^56. |
| Ema.DecayIsExact | scx/src/bpf/intf.h:1518-1536 | There the word-sized decay of the code is the exact one. |
| Ema.DecayWordBetween | scx/src/bpf/intf.h:1518-1536 | On words, for every half-life and every gauge below 2^56: before the cut-off, after p whole half-lives, the gauge lies between its (p+1)-fold and p-fold halving. |
| Ema.DecayWordMonotone | scx/src/bpf/intf.h:1518-1536 | On words, for every half-life and every pair of gauges below 2^56, the larger one never decays below the smaller. |
| Ema.LargeGaugeWraps | scx/src/bpf/intf.h:1518-1536 | That bound on the gauge is needed: at 2^56 a sleep of 1 ns leaves nothing and a longer one leaves more, for every half-life from 257 up to 2^56. |
| Ema.DecayWordBelow | scx/src/bpf/intf.h:1518-1536 | For all words, wrapping included, a decay never leaves more than there was. |
| Ema.FractionWraps | scx/src/bpf/intf.h:1518-1536 | For every half-life past 2^56 up to 2^63 - 128 whose wrapped cut-off lies past 2^56, the fraction wraps at a sleep of 2^56, which leaves more than one 1 ns shorter. |
| Ema.DecaysInOrderIff | scx/src/bpf/intf.h:1518-1536 | Over all non-zero half-lives: a longer sleep never leaves more of a gauge below 2^56 if and only if the half-life is at most 2^56, or its wrapped 64-fold is, or it exceeds 2^63 - 128. |
| Ema.LatOvershoot | scx/src/bpf/intf.h:1566-1584 | Before its cap the latency fold exceeds the larger of its inputs by less than 1/256. |
| Ema.LatUndershoot | scx/src/bpf/intf.h:1548-1584 | It falls at most two below the smaller of them, so equal inputs are a fixed point but for rounding. |
| Ema.LatWeighted | scx/src/bpf/intf.h:1566-1584 | It is the mean of gauge and window average in the weights of what the elapsed time leaves and takes of 256 parts, up to 1/256 of the gauge upward and three downward. |
| Ema.LeftEnds | scx/src/bpf/intf.h:1566-1584 | Those weights: all on the gauge at once, half after one second, a quarter after two, none after 64. |
| Ema.LatFoldCapped | scx/src/bpf/intf.h:1548-1584 | A fold without episodes changes nothing; any other takes the average of the window, and both average and gauge are capped at 16 ms. |
| Ema.RateBetween | scx/src/bpf/intf.h:1611-1631 | The rate fold never exceeds the larger of the gauge and the measured rate, and falls at most one below the smaller. |
| Ema.RateWeighted | scx/src/bpf/intf.h:1611-1631 | It is their mean in the same weights of a window of 1 to 60 seconds, never more than half on the gauge, less than two below: the measured rate is the wakeups per second of that window, at most a million. |
| Ema.AfterAll | scx/src/bpf/intf.h:1487-1631 | Over every series of runs, sleeps and folds all three gauges stay within their ceilings. |
| Ema.FoldsFit | scx/src/bpf/intf.h:1566-1631 | Within those ceilings no product of the folds leaves a word. |
| Adapt.ShiftTarget | scx/src/bpf/intf.h:1657-1679 | The target lies in 0..128 for all gauge words, and in 0..64 in a wakeup storm. |
| Adapt.TargetFollowsLatency | scx/src/bpf/intf.h:1657-1679 | It never falls with the latency, is 0 at or below 1 ms and full from 2 ms on. |
| Adapt.TargetInNumbers | scx/src/bpf/intf.h:1657-1679 | For every latency the gauge can hold: 128 times the excess over 1 ms in ms, at most 128, or 64 in a storm. |
| Adapt.SlewCloses | scx/src/bpf/intf.h:1694-1703 | n steps close exactly 25 n of the distance to a constant target, until it is reached. |
| Adapt.SixStepsSettle | scx/src/bpf/intf.h:1694-1703 | Six steps always suffice within the shift range; five do not. |
| Adapt.Band | scx/src/bpf/intf.h:1724-1748 | For every base and shift, wrapping included, the effective edge lies in its hard range. |
| Adapt.BandIsClampedScale | scx/src/bpf/intf.h:1724-1748 | For bases below 2^55 it is base * (1 + shift/256), rounded down and clamped; unshifted it is the base. |
| Adapt.BandMonotone | scx/src/bpf/intf.h:1724-1748 | A wider shift never lowers an edge. |
| Adapt.AdaptState.constructor | scx/src/bpf/main.bpf.c:805-820 | Initially the shift is 0 and the edges are the bases. |
| Adapt.AdaptState.AdaptStep | scx/src/bpf/main.bpf.c:474-500 | One step folds the wakeup count, truncated to 32 bits, into the rate gauge within its ceiling, counts itself, slews the shift toward the target of the new gauges and recomputes all four edges from it. |
| Adapt.StepIsSound | scx/src/bpf/main.bpf.c:474-500 | One step moves the shift by at most 25 and puts every edge into its hard range, in order. |
| Adapt.After | scx/src/bpf/main.bpf.c:474-500 | From every validated base, over every series of steps, the shift stays in 0..128 and T_L < T_H and T_INT < T_BOUND hold; after the first step each edge is in its range. |
| Adapt.SettlesInSixSteps | scx/src/bpf/intf.h:1683-1691 | From every reachable state six equal readings settle the shift on its target. |
| Adapt.EdgesFollowShift | scx/src/bpf/main.bpf.c:488-499 | After every non-empty series of steps, for bases below 2^55, each edge is its own base times 1 + shift/256 moved into its own range, at the shift reached. |
| Adapt.SettledEdges | scx/src/bpf/main.bpf.c:474-500 | After six equal readings, whatever came before, each edge is that at the target shift. |
| Adapt.HigherLatencyWidens | scx/src/bpf/intf.h:1637-1679 | So a higher steady latency at the same wakeup rate never leaves a lower edge. |
| Classify.TaskCtx.PromoteOnWakeup | scx/src/bpf/intf.h:1784-1808 | The hysteresis counts short sleeps and promotes one band. |
| Classify.TaskCtx.DemoteOnReenq | scx/src/bpf/intf.h:1838-1858 | The run-out counter wraps at 256 and moves Q1 or Q2 down one band from eight on. |
| Classify.TaskCtx.CaptureSample | scx/src/bpf/classify.bpf.c:159-191 | The pending sample and the prediction come from one feature vector; an idle-policy capture drops the sample. |
| Classify.TaskCtx.WakeupClassify | scx/src/bpf/classify.bpf.c:124-321 | The wakeup steps in their order: decay, capture, clamp, mapping, boost, hysteresis, long-sleep remap, seed. |
| Classify.TaskCtx.RunoutClassify | scx/src/bpf/classify.bpf.c:336-412 | The run-out steps in their order: capture, seed, demotion. |
| Classify.TaskCtx.Enqueue | scx/src/bpf/enqueue.bpf.c:171-257 | Classification, idle policy, stay bookkeeping and aging in their order. |
| ClassifyRuns.RearmedAges | scx/src/bpf/enqueue.bpf.c:229-256 | Exactly when an enqueue that re-arms the stay or changes the queue ages the task at once: in Q2 or Q3, not SCHED_IDLE, at an instant other than 0, with an aging period of 2^63 or more. |
| ClassifyRuns.AgesOnlyNeutral | scx/src/bpf/enqueue.bpf.c:229-256 | So for every aging period below 2^63 such an enqueue never ages the task. |
| ClassifyRuns.UnmeasurablePeriodPinsToQ1 | scx/src/bpf/enqueue.bpf.c:229-256 | For every longer one each wakeup and run-out at an instant other than 0 ends in Q1. |
| ClassifyRuns.GrantEndsInQ1 | scx/src/bpf/classify.bpf.c:240-263 | A granted I/O or short-sleep boost always ends in Q1, whatever tree and gauges say. |
| ClassifyRuns.WakeupPromotes | scx/src/bpf/classify.bpf.c:196-286 | Without a seed a wakeup lowers the queue number for a grant, a prediction below the Q3 band, two short sleeps on a low gauge or an untrained long sleep, for each of them, and for nothing else. |
| ClassifyRuns.WakeupQueue | scx/src/bpf/classify.bpf.c:124-321 | Exactly what a wakeup does to queue, counters, boost stamp, gauge and pending sample, down to measured values: seed before boost before prediction, two-sleep lift and long-sleep fallback. |
| ClassifyRuns.IdleIsPinned | scx/src/bpf/enqueue.bpf.c:205-228 | A SCHED_IDLE task ends every enqueue in Q3, without boost, aging or training sample. |
| ClassifyRuns.WakeupSeedRaises | scx/src/bpf/classify.bpf.c:288-321 | The wakeup path is not promotion-only: it ends in Q3 when the seed condition holds, unless the aging period is unmeasurable, and never above the old queue number otherwise. |
| ClassifyRuns.RunoutQueue | scx/src/bpf/classify.bpf.c:336-412 | Exactly what a run-out does to queue, counters and pending sample, down to measured values: Q3 for no GPU work and a last burst above T_H, else one band down for a CPU hog at an effective count of eight, else nothing, and Q1 at once where the new stay is over as it begins. |
| ClassifyRuns.DemotedIff | scx/src/bpf/intf.h:1838-1858 | At an unblocked, unseeded run-out with the count at eight a Q1 or Q2 task goes down one band if and only if the committed tree predicts at least the Q3 edge for its run-out vector, or predicts 0 and its gauge is above T_H; else it stays. |
| ClassifyRuns.RiseCauses | scx/src/bpf/intf.h:1810-1858 | The queue number rises only through a Q3 seed or by exactly one at a run-out of a CPU hog with the count at eight. |
| ClassifyRuns.DemotionNeedsEightInARow | scx/src/bpf/intf.h:1828-1835 | On every trace from fork, that run-out is at least the eighth in a row in its queue. |
| ClassifyRuns.MissingRunoutsDemote | scx/src/bpf/intf.h:1838-1858 | From any counter value the stated number of run-outs at which the tree (or, without one, the gauge) says CPU hog moves a Q1 or Q2 task down, for aging periods below 2^63. |
| ClassifyRuns.NineRunoutsDemote | scx/src/bpf/intf.h:1838-1858 | There nine consecutive such run-outs always do, the 8-bit wrap included. |
| ClassifyRuns.StepKeeps | scx/src/bpf/enqueue.bpf.c:171-257 | Every enqueue keeps the trace invariant on counters, stay stamps and grants. |
| ClassifyRuns.GrantsKeepTheirDistance | scx/src/bpf/intf.h:1158-1177 | On every trace from fork, consecutive grants are more than the rate limit apart, unless the earlier was stamped 0. |
| ClassifyRuns.ZeroStampIsForgotten | scx/src/bpf/intf.h:1171-1177 | A grant stamped 0 is followed at once by another. |
| ClassifyRuns.AgedAfterALongWait | scx/src/bpf/enqueue.bpf.c:240-256 | On every trace from fork, a task is aged exactly at a neutral enqueue in Q2 or Q3 with no wakeup, run-out or queue change for a whole aging period (a stay stamped 0 excepted), at another enqueue exactly where a stay is over as it begins, and then lands in Q1. |

## Left out

- Kernel facilities: kfuncs, BPF maps and their lookup failures, the program verifier, ring buffers and the DSQ tree. A DSQ is a sequence with affinity; task storage is the object itself.
- CPU selection (`scx/src/bpf/select_cpu.bpf.c`) and realtime takeover (`scx/src/bpf/rtdl.bpf.c`): mostly kernel idle claims.
- Same-queue preemption, LLC steering and CPU frequency decisions: single comparisons or minimum searches without state of their own.
- The insert paths of an enqueue after classification (local fast path, pinned tasks, preemption) and their effect on service order: they bypass deadline order by design, so the starvation bound is about the regular path.
- Rounding of `f64`, `powf` and `sqrt`; struct layout and cache-line placement.
- Tearing inside one node read, and reordering of a reader's loads against each other.
- Statistics counters, operation latency charging, per-CPU frequency gauges, and the non-atomic `wait_total` and `wait_count`, which are advisory.
- The retrain cadence and channels between daemon threads, sysfs and cache-size parsing, the configuration beyond the inequalities of `validate`, the web interface and packaging.
- Sleep cadence statistics (`mlfq_sleep_ema_update`) and the GPU submission count: inputs of the classification here.
- Dispatch.Dispatcher.DispatchQueue: one call without interference from other CPUs, so a peeked head is the task moved. What racing calls keep is in DispatchRace; which task a racing steal gets, and the ownership adjustment of a mismatched head, are not modelled.
- DispatchRace.RacingCallsConserve: local DSQs only grow; the kernel taking tasks from them to run is left out.
- Starvation.PassedOverBound: on the unbounded timeline; WordRuns.WordPassedOverBound has it of words, while all instants stay less than 2^62 from the clock and no run segment is so long that its 100-fold leaves a word.
- Placement.PlaceEntity: both clock reads see the same value; Starvation.PlacedEligible has the disturbed case.
- Publish.MetaRoundTrip: the generation field is its low 32 bits; that it never exceeds them is Ratchet.RatchetRun.
- Serving.RunRefinesDaemon: map updates of a publish do not fail, and the daemon publishes from one thread, as its poll loop does.
- Ema.ClimbFollowsTheRun: for ceilings and alphas with no wrapping product. The exact condition of its order is Ema.ClimbsInOrderIff wherever the ceiling times alpha plus 256 fits a word (at the default alpha, up to 64 days) and alpha is at most 256 times the ceiling. Beyond that, which `validate` accepts, no condition is given: the order can hold there (Ema.NoClimbPastTheDivisor), and the range of the climb does for all words (Ema.EmaClimb).
- Ema.DecayBetween: on exact integers, at the half-life boundaries included; Ema.DecayWordBetween has the bounds of the code for gauges below 2^56.
- Ema.DecayAntitone: on exact integers; Ema.DecaysInOrderIff says for which half-lives it holds of the code, for gauges below 2^56.
- Ema.DecayMonotone: on exact integers; Ema.DecayWordMonotone has it of the code, for gauges below 2^56.
- ClassifyRuns.GrantsKeepTheirDistance: traces start at a fork and contain no SCHED_IDLE enqueue; a reset of the task state starts a new trace. Distances are in the wrapping order, so for rate limits of 2^63 and more, which `validate` accepts, they say nothing about elapsed time.
- ClassifyRuns.NineRunoutsDemote: for aging periods below 2^63; for longer ones ClassifyRuns.RunoutQueue and ClassifyRuns.UnmeasurablePeriodPinsToQ1 say what a run-out does instead.
- Adapt.EdgesFollowShift: for bases below 2^55 (over a year); beyond, the scaled base may wrap, and only the range of each edge is proved (Adapt.Band).
