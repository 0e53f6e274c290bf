# Verification of the spark-rsi gatekeeper

The repository collects evidence about a candidate change, seals it, and decides whether it counts.
This project models the algorithms and protocols behind that decision in Dafny and proves what they
are for:

- **Ranking** (`Sums`, `ShortestPaths`, `Dependency`, `BetweennessLaws`, `Brandes`, `Forward`, `Backward`,
  `Phases`, `CapabilityNodes`, `Ranking`, `CapabilityGraphs`). Betweenness centrality is defined naively
  over all shortest paths of a multigraph; the breadth-first search with path counting and the
  back-accumulation are proved to compute it.
- **Statistics** (`Prng`, `Bootstrap`, `Fisher`). The xoshiro256++ step as a bijection on 256 bits, the
  bootstrap draw by draw with its interval and p-value, and Fisher's exact test in exact arithmetic.
- **Ledger** (`Merkle`, `LedgerRecord`, `Ledger`). A hash-chained ledger with Merkle checkpoints, run
  against its auditor.
- **Canary** (`Fields`, `Canary`, `CanaryLog`, `CanaryWriter`, `CanaryAdmission`, `CanaryWorker`,
  `CanaryEvidence`, `CanaryHistory`, `CanaryShape`, `CanaryExecutor`). A supervisor drives an untrusted
  worker request by request and keeps a crash-safe log. The worker may send anything at any time, and
  the machine may stop at any byte of any write; the invariant of `Executor` holds after every run, up
  to the admission decision.
- **Receipts** (`Hex`, `Receipts`, `PromotionGate`). The version 2 receipt preimage and what a promotion
  rests on.
- **DUAL records** (`DualRecords`, `DualDoubles`, `DualLayout`, `DualCodec`, `DualRoundTrip`,
  `DualDiagnostic`). What the checks mean in numbers, the binary codec with its sticky-error reader, its
  round trips and the scarcity diagnostic.
- **Canonical text** (`Decimal`, `Escaping`, `Json`, `CanonicalRecords`, `CanaryObservationV1`). Canonical
  JSON and the version 1 observation printer are injective.
- **Paths** (`Paths`, `RootOfTrust`, `SecurityLayer`, `DiffGate`, `UnifiedDiff`, `RawDiff`). Two
  independently written normalisers, the checks on a real diff, and what the content checks see of it.
- **Measurement** (`NearestRank`, `Selection`, `MeasuredGraph`, `SampleLogs`). Sample selection, the
  nearest-rank percentile and the sample log.

Code that changes things step by step is modelled by methods and classes with the same loops and
branches; their contracts tie the result to specification functions, and the laws are lemmas about
those.

SHA-256 is a function parameter of type `Hash` whose results are 64 hex characters. Injectivity is
assumed only by name (`CollisionFree`), and only of the finitely many strings that a statement is
about. P-256 appears as the functions in `Crypto`; `SignedVerifies` names what is assumed of a key. A
file is a string of bytes, a line format is a printer and a parser that reads back what was printed
(`Lawful`), and `CanonicalFormatsAreLawful` shows that canonical JSON is one.

Where the code and its own statements disagree, the model follows the code:

- `p < 0.01` together with mostly negative means does not force the upper end of the bootstrap interval
  below zero. With fewer than 200 means it does, and otherwise exactly when fewer than b / 200 of them
  are non-negative (`Bootstrap.UpperEndExactly`), which a multiple of 200 ensures. For any other count,
  seed and sample, some constant added to the candidate makes it fail exactly when the sorted resample
  means rise at the upper end (`Bootstrap.ShiftMisses`).
- The unprefixed preimage of the genesis block does not say how its blob names are cut
  (`Ledger.GenesisBlobsUnbound`). That is all it leaves open: chains with the same latest hash are equal
  exactly when their genesis names are (`Ledger.LatestHashFixesChain`).
- Version 1 receipts do not bind their ids (`PromotionGate.Version1Ambiguous`): equal digests mean equal
  ids exactly when the ids have the same lengths (`PromotionGate.Version1BindsIds`).
- A revert for memory or readiness stores no failed observation. It seals the log like any other end of
  a run, so no later run touches it, and admission accepts it if it holds enough successes
  (`CanaryExecutor.PromptRun`).
- The content checks are said to look at what the change adds. They skip an added line whose content
  starts with `++`, because it prints like the header of a file (`UnifiedDiff.MarkedContentEscapes`).
  They find exactly what stands in the other added contents (`UnifiedDiff.FoundExactly`), so nothing
  escapes them exactly when every added content that starts with `++` is repeated inside one that does
  not (`UnifiedDiff.NothingEscapesExactly`); a diff without such contents is safe.

## Model

| member | source | states |
|---|---|---|
| `CapabilityNodes.MeasuredRoundTrip` | src/graph/mod.rs:87-127 | A measurement is accepted exactly when median, p95 and rate are nonnegative and the rate at most 1; an accepted one is read back unchanged by the ranking, and an unavailable node is never read as zero |
| `CapabilityGraphs.CapabilityGraph.AdjacencyList` | src/graph/mod.rs:211-223 | The neighbour list of every node holds the targets of its edges in edge order, parallel edges repeated |
| `Phases.RelaxEdge` | src/graph/mod.rs:264-274 | One edge of the inner loop performs the abstract relaxation: discovers a new node, counts a tight edge |
| `Phases.ScanNeighbours` | src/graph/mod.rs:261-275 | Scanning one node keeps the discovered order sorted by distance, the predecessor lists equal to the scanned tight edges and the path counts equal to the sums over them |
| `Forward.ScanStep` | src/graph/mod.rs:264-274 | One relaxation keeps all five parts of the forward bookkeeping exact |
| `Phases.ForwardPhase` | src/graph/mod.rs:236-275 | The search from a source terminates with every reached node scanned in full, nearest first |
| `Brandes.DistCorrect` | src/graph/mod.rs:241-276 | After the forward phase the recorded distance is the length of a shortest path, or -1 exactly when there is no path |
| `Brandes.SigmaCorrect` | src/graph/mod.rs:241-276 | After the forward phase sigma is the number of shortest paths from the source, parallel edges counted |
| `Brandes.PredCount` | src/graph/mod.rs:241-276 | The predecessor list of w holds u as often as there are edges u -> w that are tight, and nothing else |
| `Backward.ForwardExact` | src/graph/mod.rs:241-276 | The stack holds the reached nodes in non-decreasing distance, each once, with exact distance, path count and predecessors |
| `ShortestPaths.CountSplit` | src/graph/mod.rs:225-301 | Paths of length i + j are counted by summing over the node after i steps: the law behind counting paths by steps |
| `Dependency.DependencyRecursion` | src/graph/mod.rs:283-289 | The sum of pair shares through v equals the sum over shortest-path successors w of sigma(v)/sigma(w) times one plus the share through w |
| `Dependency.DepIsSourceShare` | src/graph/mod.rs:283-289 | What is accumulated for a source is the sum over targets of (shortest paths through v) / (shortest paths) |
| `Phases.PassBack` | src/graph/mod.rs:284-288 | Passing the share of w back to its predecessor list adds exactly the flow of each tight edge |
| `Backward.DependencyFinal` | src/graph/mod.rs:283-292 | When w is popped its accumulated share is already complete |
| `Phases.BackwardPhase` | src/graph/mod.rs:278-293 | The back-accumulation adds to every node other than the source its exact share for this source |
| `CapabilityGraphs.AddSource` | src/graph/mod.rs:236-293 | One source adds to every node its share over all targets |
| `CapabilityGraphs.CapabilityGraph.CalculateBetweennessCentrality` | src/graph/mod.rs:225-301 | For a graph whose edges stay inside the node set the result is the sum over ordered pairs of (shortest paths through v) / (shortest paths), divided by (n-1)(n-2), and zero up to two nodes |
| `BetweennessLaws.BetweennessBounds` | src/graph/mod.rs:225-301 | The unscaled centrality lies between 0 and (n-1)(n-2) |
| `Ranking.CentralityRange` | src/graph/mod.rs:295-301 | Every scaled centrality lies in [0, 1] |
| `Ranking.CentralityTimesPairs` | src/graph/mod.rs:294-299 | The scaled centrality times (n-1)(n-2) is the sum over ordered pairs |
| `BetweennessLaws.Conservation` | src/graph/mod.rs:225-301 | The unscaled centralities of all nodes add up to the total of d(s,t) - 1 over ordered pairs with t reachable from s |
| `CapabilityGraphs.CapabilityGraph.RankBottlenecks` | src/graph/mod.rs:303-405 | The ranking holds every node once, scored from its measurements and numbered from 1; no row stands ahead of one whose score exceeds its own by 1e-9 or more, and rows of equal score stand in the order of their ids |
| `Ranking.RankingInScoreOrder` | src/graph/mod.rs:392-398 | Whatever is a ranking stands in the order of scores and ids, stated on the scores themselves |
| `Ranking.RankingUnique` | src/graph/mod.rs:303-405 | There is only one such ranking, and it depends on nothing but ids, edges and scoring inputs: neither map order nor legacy fields can show |
| `Ordering.StringLeqPlainly` | src/graph/mod.rs:397 | The order of ids: one is a beginning of the other, or smaller where the two first differ |
| `Ranking.ScoreRange` | src/graph/mod.rs:303-405 | Without a full measurement the score is the centrality; with one it stays within 0 and 5.4 |
| `Ranking.ScoreMonotone` | src/graph/mod.rs:340-345 | More centrality, a slower median and more errors never lower a score |
| `Ranking.ScoreWithinLimits` | src/graph/mod.rs:340-345 | Up to ten times the average latency a score is four tenths of the centrality, four tenths of the latency ratio and the error rate; slower nodes score as at ten times the average |
| `Ranking.MeasuredExactly` | src/graph/mod.rs:318 | Measurements enter the scores exactly when there are nodes and every one has an acceptable median and error rate |
| `Ranking.AverageTimesNodes` | src/graph/mod.rs:325-336 | The average latency times the number of nodes is the sum of the medians, unless that average is below one microsecond |
| `CapabilityGraphs.CapabilityGraph.TopBottleneck` | src/graph/mod.rs:407-410 | No score exceeds that of the top entry by 1e-9 or more; there is none only for the empty graph |
| `Prng.StepBijective` | src/evaluator/stats.rs:34-46 | The generator step on 256 bits has a two-sided inverse |
| `Prng.ZeroIsIsolated` | src/evaluator/stats.rs:34-46 | The all-zero state is reached only from itself |
| `Prng.SeededNonZero` | src/evaluator/stats.rs:10-31 | No seed gives the all-zero state |
| `Prng.FastPrng.NextU64` | src/evaluator/stats.rs:34-46 | A draw advances the state by the step and never reaches the all-zero state |
| `Prng.WrapsAround` | src/evaluator/stats.rs:10-46 | Additions and multiplications of 64-bit words are those of numbers modulo 2 to the 64 |
| `Prng.FastPrng.GenRange` | src/evaluator/stats.rs:49-54 | A drawn index is below the bound, 0 for bounds up to 1 without advancing the state |
| `Bootstrap.Indices` | src/evaluator/stats.rs:171-172 | The interval indices are b/200 and b - b/200 (b - 1 below 200), in range and in order |
| `Bootstrap.PValueAtMost` | src/evaluator/stats.rs:176-179 | The p-value is at most x < 1 exactly when twice the number of non-positive or of non-negative means is at most that share of all |
| `Bootstrap.SignBlocks` | src/evaluator/stats.rs:169-177 | In the sorted means the counts of non-positive and non-negative values are the places where the sign changes |
| `Bootstrap.PositiveInterval` | src/evaluator/stats.rs:169-182 | A p-value below 0.01 with the non-positive count the smaller one forces the whole interval above zero, for every resample count |
| `Bootstrap.NegativeInterval` | src/evaluator/stats.rs:169-182 | A p-value below 0.01 with the non-negative count the smaller one forces the whole interval below zero when the resample count is mirrored |
| `Bootstrap.UpperEndExactly` | src/evaluator/stats.rs:171-182 | When p is below 0.01 with the non-negative count the smaller one, the upper end is below zero exactly with fewer than 200 means or fewer than b/200 non-negative ones; for mirrored counts always |
| `Bootstrap.RaisedMeans` | src/evaluator/stats.rs:157-167 | With the same seed, a constant added to the candidate is added to every resample mean |
| `Bootstrap.ShiftMisses` | src/evaluator/stats.rs:111-196 | For every sample, count and seed: some constant added to the candidate gives p below 0.01, mostly negative means and an upper end that is not below zero, exactly when the count is not mirrored and the sorted resample means strictly rise at index b - b/200 |
| `Bootstrap.SignificanceIsPValue` | src/evaluator/stats.rs:171-182 | For mirrored counts the significance flag says no more and no less than p < 0.01 |
| `Bootstrap.ResampleMean` | src/evaluator/stats.rs:161-166 | A resample is as large as the sample, drawn with replacement from the numbers the generator gives next, and its mean is returned |
| `Bootstrap.SortedMeans` | src/evaluator/stats.rs:157-169 | The sorted list holds the means of b resamples drawn one after another from the seeded generator, each as often as it was drawn |
| `Bootstrap.PairedComparison` | src/evaluator/stats.rs:111-196 | Refuses exactly empty or unequally long samples; otherwise gives the estimate of the asked or default count and seed |
| `Bootstrap.EstimateIsFixed` | src/evaluator/stats.rs:111-196 | The estimate is determined by the samples, the count and the seed: repeating a comparison repeats every number |
| `Bootstrap.IntervalWithin` | src/evaluator/stats.rs:169-174 | The interval ends lie in order between the least and the greatest paired difference |
| `Bootstrap.MeanOfDifferences` | src/evaluator/stats.rs:126-143 | The mean of the differences is the difference of the means |
| `Bootstrap.DeltaPctExactly` | src/evaluator/stats.rs:141-145 | The relative change times the parent mean is a hundred times the difference, and zero when the parent mean is within 1e-9 of zero |
| `Bootstrap.SwappedEstimate` | src/evaluator/stats.rs:111-196 | Swapping parent and candidate with the same seed keeps the p-value and turns the difference around; the interval turns around too below 200 resamples, and from 200 on its ends lie no lower than the turned ones |
| `Fisher.Vandermonde` | src/evaluator/stats.rs:319-351 | Choosing c out of m + n is choosing some from the m and the rest from the n |
| `Fisher.ProbIsShare` | src/evaluator/stats.rs:319-331 | The quotient of factorials that the code computes is the share of this table among all tables with its margins, and positive |
| `Fisher.TotalProbability` | src/evaluator/stats.rs:311-351 | Over the loop range the probabilities add up to exactly 1 |
| `Fisher.PValues` | src/evaluator/stats.rs:333-355 | The one-sided p-values add up to 1 plus the observed probability, and all three lie between the observed probability and 1, so the final clamps never change a value |
| `Fisher.TwoSidedLeavesOut` | src/evaluator/stats.rs:340-344 | The two-sided p-value and the probabilities of the tables more likely than the observed one by more than one in ten million add up to 1 |
| `Fisher.TwoSidedGrows` | src/evaluator/stats.rs:340-344 | A less likely table never has the larger two-sided p-value |
| `Fisher.OneSidedOrder` | src/evaluator/stats.rs:345-350 | Moving one more success to the parent raises one of the one-sided p-values and lowers the other by the probabilities passed |
| `Fisher.ExchangeRows` | src/evaluator/stats.rs:287-370 | Exchanging parent and candidate exchanges the one-sided p-values |
| `Fisher.ExchangeRowsTwoSided` | src/evaluator/stats.rs:287-370 | Exchanging parent and candidate keeps the two-sided p-value |
| `Fisher.FactorialTable` | src/evaluator/stats.rs:314-317 | The table filled in one pass holds every factorial that is asked for |
| `Fisher.Accumulate` | src/evaluator/stats.rs:333-351 | One pass over the tables adds up the three p-values, every factorial index in range |
| `Fisher.FishersExactTest` | src/evaluator/stats.rs:287-370 | Refuses exactly the empty table; otherwise returns the exact two-sided and one-sided p-values after its clamps, with the counts and rates of the table |
| `Fisher.RateTimesTotal` | src/evaluator/stats.rs:287-370 | A reported rate times the number of trials gives back the successes, and is zero without trials |
| `Merkle.ComputeMerkleRoot` | src/ledger/merkle.rs:47-83 | The level loop terminates with the root of the tree with duplicated odd nodes |
| `Merkle.RootDeterminesLeaves` | src/ledger/merkle.rs:47-83 | For equally many leaves equal roots mean equal leaves, unless two strings that were hashed collide |
| `Merkle.RepeatedLastLeaf` | src/ledger/merkle.rs:47-83 | An odd list and the same list with its last leaf repeated have the same root, which is why the count is compared first |
| `LedgerRecord.ComputeBlockHash` | src/ledger/record.rs:101-119 | The hash fed piece by piece is the hash of the concatenated fields |
| `LedgerRecord.VerifyIntegrity` | src/ledger/record.rs:121-147 | Accepts exactly the blocks whose payload digest and block hash recompute |
| `LedgerRecord.TimestampPrefixFree` | src/ledger/record.rs:101-119 | No RFC 3339 timestamp (section 5.6) is a proper beginning of another |
| `LedgerRecord.BlockInputFields` | src/ledger/record.rs:101-119 | Whatever the blobs are called, the unprefixed preimage determines every other field and the concatenated blob names |
| `LedgerRecord.BlockInputUnique` | src/ledger/record.rs:101-119 | The unprefixed preimage of a well-formed block determines every field |
| `LedgerRecord.BlockHashUnique` | src/ledger/record.rs:101-119 | Intact well-formed blocks with equal hashes are equal, barring a collision of what was hashed |
| `Ledger.ImprovementLedger.Open` | src/ledger/db.rs:66-110 | Opening adds a genesis block exactly when there is none and keeps the ledger healthy |
| `Ledger.ImprovementLedger.AppendBlock` | src/ledger/db.rs:268-293 | The new block is linked to the latest one; refused exactly without a genesis block or when its sequence or hash is already taken; a healthy ledger stays healthy if the blobs it names are stored |
| `Ledger.NextIsUnused` | src/ledger/db.rs:112-136 | In a chain that passes the audit the next block is refused only if another block has its hash |
| `Ledger.ImprovementLedger.PutBlob` | src/ledger/blob.rs:17-34 | A blob is stored under its digest and never replaced |
| `Ledger.ImprovementLedger.AppendEvaluation` | src/ledger/db.rs:295-317 | Stores the metrics before the block that names them, so a healthy ledger stays healthy |
| `Ledger.ImprovementLedger.Checkpoint` | src/ledger/db.rs:361-394 | Commits to all blocks so far; refuses exactly the empty ledger; a healthy ledger stays healthy |
| `Ledger.ImprovementLedger.LatestCheckpoint` | src/ledger/db.rs:396-423 | Returns a checkpoint with the greatest covered sequence, if there is any |
| `Ledger.ImprovementLedger.VerifyChainIntegrity` | src/ledger/db.rs:429-562 | Passes exactly when genesis, every link, every blob and the latest checkpoint hold, and reports the blocks not covered; after a pass every blob that a block behind genesis names is stored with contents that hash to its name |
| `Ledger.ChainValidPlainly` | src/ledger/db.rs:441-510 | What an audited chain is, field by field: numbered blocks whose digests recompute, each naming the hash before it, and every blob named behind genesis stored under the digest of its contents |
| `Ledger.HealthyAudit` | src/ledger/db.rs:429-562 | A healthy ledger passes the audit without a key, and what is reported as uncovered is exactly the blocks since the last checkpoint |
| `Ledger.ImprovementLedger.RunHistory` | src/ledger/db.rs:268-394 | After any interleaving of opening, storing blobs, appending blocks that name stored blobs, evaluations and checkpoints the audit passes and counts the blocks since the last checkpoint |
| `Ledger.HashFixesHistory` | src/ledger/db.rs:429-510 | Equal block hashes in two audited chains mean the same position and the same blocks up to it, but for how the genesis block cuts its blob names |
| `Ledger.LatestHashFixesChain` | src/ledger/db.rs:429-510 | Two audited chains with the same latest hash agree in everything but how the genesis block cuts its blob names; they are the same chain exactly when these names are the same, as digests always are |
| `Ledger.LatestHashFixesBlobs` | src/ledger/db.rs:429-510 | Two audited ledgers with the same latest hash hold the same contents for every blob named after genesis, barring a collision |
| `Ledger.CheckpointFixesPrefix` | src/ledger/db.rs:517-531 | Two audited chains that satisfy checkpoints with the same root and count agree on all covered blocks, exactly when their genesis blob names do |
| `Ledger.GenesisBlobsUnbound` | src/ledger/db.rs:441-463 | An input on which the latest hash does not fix the chain: two audited chains whose genesis blob names are cut differently |
| `Fields.FieldsUnique` | src/evaluator/mod.rs:77-80 | A stream of length-prefixed fields determines the fields |
| `Fields.DomainInputUnique` | src/canary/mod.rs:69-76 | A domain-separated preimage determines domain and fields |
| `Canary.ValidateWorkload` | src/canary/workload.rs:113-143 | Accepts exactly workloads of the supported version with ids that are not blank and have no control character, valid requests and no repeated request id |
| `Canary.BlankPlainly` | src/canary/workload.rs:113-143 | One visible ASCII character makes an id not blank, and ASCII white space alone does not |
| `Canary.ControlPlainly` | src/canary/workload.rs:68-80 | An ASCII control character is always found, and in ASCII text nothing else is |
| `Canary.FindRequestAt` | src/canary/workload.rs:155-157 | In a valid workload the lookup by id finds that very request |
| `Canary.DistinctRequestsDistinctIds` | src/canary/observation.rs:64-73 | Different requests have different observation ids, barring a collision of the hashed coordinates |
| `CanaryLog.ParseLog` | src/canary/log.rs:147-241 | The parser loop accepts and returns exactly what scanning line by line gives |
| `CanaryLog.ScanEncoded` | src/canary/log.rs:147-241 | Parsing an encoding replays its records and stops before a torn last line |
| `CanaryLog.ScanDecodes` | src/canary/log.rs:147-241 | Whatever is accepted is the encoding of acceptable records and a torn last line |
| `CanaryLog.AcceptsExactly` | src/canary/log.rs:147-241 | The parser accepts exactly the encodings of replayable record sequences followed by a newline-free tail |
| `CanaryShape.ReplayExactly` | src/canary/log.rs:147-241 | The parser takes in exactly the lists of records that are all in their place: one header first, a seal last, coherent observations bound to the header with their own digests, and no id with two digests |
| `CanaryShape.ValidIsCoherent` | src/canary/observation.rs:129-172 | Which observations are valid: version 2, named, three hex digests, a result digest wherever there was an output, and the id of the coordinates |
| `CanaryShape.SealCounts` | src/canary/log.rs:484-523 | The seal of an accepted file counts its observations and the measured successes among them |
| `CanaryLog.EncodePrefix` | src/canary/log.rs:106-113 | An encoding that starts another encoding consists of its first records |
| `CanaryLog.SealIsLast` | src/canary/log.rs:168-173 | Nothing is accepted after a seal |
| `CanaryEvidence.SeenAreStored` | src/canary/log.rs:360-364 | The ids and digests a reopened writer remembers are exactly those of the observations the parser keeps, each once |
| `CanaryWriter.TornRecords` | src/canary/log.rs:456-461 | Whatever byte of a line the machine stops at, the file holds the old records, or the new one as well exactly if the whole line was written, and a rest without line break |
| `CanaryWriter.CreateLog` | src/canary/log.rs:303-321 | Refuses an invalid header and an existing file, otherwise starts the log with its header line |
| `CanaryWriter.LogWriter.AppendObservation` | src/canary/log.rs:391-414 | Stores a record once; refuses exactly invalid, unbound and conflicting ones; a crash leaves a log torn inside this record |
| `CanaryWriter.LogWriter.AppendRejection` | src/canary/log.rs:416-422 | Adds a rejection without touching observations or ids |
| `CanaryWriter.LogWriter.Seal` | src/canary/log.rs:426-453 | Sealing returns a log that verifies and holds exactly what was stored |
| `CanaryWriter.ReopenLog` | src/canary/log.rs:326-371 | Keeps exactly the complete records of an unsealed log with the expected header and refuses everything else unchanged |
| `CanaryWriter.TornLogReopens` | src/canary/log.rs:326-371 | After a crash at any byte of an append the log can be reopened with exactly the records whose newline was written |
| `CanaryWriter.VerifyBytes` | src/canary/log.rs:484-523 | Accepts exactly the files that end with the seal that fits them |
| `CanaryWriter.VerifiedShape` | src/canary/log.rs:484-523 | An accepted file is an open log followed by its seal |
| `CanaryWriter.SealVerifies` | src/canary/log.rs:426-453 | Every open log followed by its seal is accepted with the contents of the log |
| `CanaryWriter.NoStrictPrefix` | src/canary/log.rs:484-523 | No strict prefix of an accepted file is accepted |
| `CanaryWriter.NoStrictExtension` | src/canary/log.rs:484-523 | No strict extension of an accepted file is accepted |
| `CanaryWriter.EqualDigestEqualLog` | src/canary/log.rs:484-523 | Two accepted files with the same log digest agree byte for byte before the seal and in everything they record, and are the same file exactly when sealed at the same time, barring a collision |
| `CanaryHistory.RunLog` | src/canary/log.rs:303-453 | After any history of appends, repeated appends, rejections, crashes at any byte and restarts the sealed log is accepted and holds exactly the valid, bound and new observations whose newline was written, each once and in order |
| `CanaryAdmission.CheckObservation` | src/canary/admission.rs:63-111 | Passes exactly the bound, measured, successful observations of a pinned request with its expected outcome in time |
| `CanaryAdmission.CountObservations` | src/canary/admission.rs:61-122 | Fails on any observation that does not count, otherwise counts the different ids |
| `CanaryAdmission.AdmitSealedQuota` | src/canary/admission.rs:28-131 | Admits exactly when the target is positive, identity, workload and header match, every observation counts and the different ids reach the target |
| `CanaryShape.IdentityPlainly` | src/canary/identity.rs:42-62 | Which identities are valid: version 1, three digests of 64 lowercase hex characters and a generation that is not blank |
| `CanaryExecutor.StoredRecords` | src/supervisor/canary_exec.rs:176-188 | Reads every complete line |
| `CanaryExecutor.ReadEncoded` | src/supervisor/canary_exec.rs:176-188 | Reading back an encoding with a torn last line gives its records |
| `CanaryExecutor.HandleFrame` | src/supervisor/canary_exec.rs:593-670 | A frame ends the wait exactly as the protocol decides: naming another generation ends it without success, and otherwise the wait goes on exactly if the frame is not the answer to the open request; whatever is refused is logged and changes no observation |
| `CanaryExecutor.AwaitResult` | src/supervisor/canary_exec.rs:562-672 | The wait ends with the first thing heard that decides, and everything before it decides nothing; the first frame that names another generation ends it, and not as a success |
| `CanaryExecutor.DecidedCutsOff` | src/supervisor/canary_exec.rs:593-670 | Nothing heard before the end of a wait names another generation, and no wait that such a frame ends is a success |
| `CanaryExecutor.DecidedJustifies` | src/supervisor/canary_exec.rs:474-486 | The stored verdict is justified by what was heard while the request was open |
| `CanaryExecutor.Store` | src/supervisor/canary_exec.rs:513-527 | The report on the next request is always storable: it is valid, bound and new |
| `CanaryExecutor.IssueOne` | src/supervisor/canary_exec.rs:434-539 | One request is sent once; afterwards exactly one observation is added, or none if the memory budget refused a success, or the machine stopped; a frame that names another generation ends the wait and the request is not a success |
| `CanaryExecutor.FindOutstanding` | src/supervisor/canary_exec.rs:333-344 | The outstanding requests are exactly those behind the stored ones |
| `CanaryExecutor.RunRequests` | src/supervisor/canary_exec.rs:429-546 | Requests are sent in order, each once; the first failure ends the loop and is the one named; for every status the summary counts exactly the observations stored |
| `CanaryExecutor.AwaitReady` | src/supervisor/canary_exec.rs:371-421 | Waiting for readiness stores no observation |
| `CanaryExecutor.PriorRecords` | src/supervisor/canary_exec.rs:313-327 | Counts the stored observations and finds a failure exactly when one is stored |
| `CanaryExecutor.CreateFor` | src/supervisor/canary_exec.rs:253-262 | A crash while the log is created leaves a torn header or an empty open log |
| `CanaryExecutor.Restart` | src/supervisor/canary_exec.rs:263-284 | Reopens exactly the logs that earlier runs left unsealed, with everything they stored; a torn header and a sealed log are refused unchanged |
| `CanaryExecutor.Finish` | src/supervisor/canary_exec.rs:701-716 | Ends with a sealed log that verifies and holds what was stored; a crash leaves it unsealed or sealed with nothing lost |
| `CanaryExecutor.RunOpened` | src/supervisor/canary_exec.rs:308-556 | A stored failure seals the log with a revert and sends nothing; otherwise the outstanding requests are issued and the run ends in one of the allowed ways |
| `CanaryExecutor.Executor.CheckPins` | src/supervisor/canary_exec.rs:290-302 | Runs nothing unless identity, generation, workload and executable are the pinned ones |
| `CanaryExecutor.Executor.Run` | src/supervisor/canary_exec.rs:289-556 | For every worker and every crash: stored observations are a prefix of the workload in order, all successes but possibly the last, none is ever lost; each was witnessed, so that whatever named another generation while a request was open left no success; requests go out in order; once a failure is stored none is sent again; a sealed log is never touched |
| `CanaryExecutor.Executor.Admit` | src/canary/admission.rs:28-131 | After any history of runs the log is admitted exactly when it is sealed, the target is positive, no failure is stored and at least target observations are; all of them are counted, and each was earned by an authenticated answer of the right version, generation, request and output within its deadline, with no frame of another generation since the request went out |
| `CanaryExecutor.PromptRun` | src/supervisor/canary_exec.rs:289-556 | A worker that answers everything correctly is reverted exactly if it exceeds its memory limit on some request k, and either way its log is admitted exactly for the targets from 1 to k |
| `CanaryEvidence.AdmissionExactly` | src/canary/admission.rs:61-131 | A log the executor sealed is admissible exactly when target >= 1, all stored observations are successes and there are at least target |
| `CanaryEvidence.SuccessIsEarned` | src/supervisor/canary_exec.rs:594-612 | A stored success was heard on the authenticated connection: right version, generation and request, the pinned output, within the deadline; nothing heard since the request was sent names another generation; its microseconds pass the deadline test of admission |
| `CanaryEvidence.EvidenceExplains` | src/supervisor/canary_exec.rs:474-512 | What each status means in terms of what was heard: an earned answer, a wrong output in time, a deadline passed or an answer too late, an undecodable or wrong answer, or a closed connection or another generation |
| `CanaryEvidence.StoredAreWitnessed` | src/supervisor/canary_exec.rs:434-539 | Whatever happened, every observation found in the file was witnessed between the sending of its request and the end of the wait |
| `CanaryWorker.ElapsedPlainly` | src/supervisor/canary_exec.rs:521 | The elapsed time is recorded in whole microseconds as long as it fits 64 bits |
| `CanaryEvidence.CountableIffSuccess` | src/canary/admission.rs:63-111 | An observation the executor stored is counted exactly when it is a success |
| `CanaryEvidence.ProgressGrows` | src/supervisor/canary_exec.rs:513-546 | Adding the verdict on the next request keeps the stored observations in workload order |
| `CanaryExecutor.TornUnsealed` | src/canary/log.rs:456-461 | A crash during any append leaves a log that the next run reopens with everything stored before |
| `CanaryExecutor.TornSeal` | src/canary/log.rs:426-453 | A crash while sealing leaves either an unsealed or a sealed log |
| `Receipts.PreimageUnique` | src/evaluator/mod.rs:144-203 | The version 2 preimage determines every signed id, flag, count, layer, violation and metric bit pattern |
| `Receipts.EvaluationReceipt.ComputeDigestV2` | src/evaluator/mod.rs:144-203 | Fed field by field, the digest is that of the whole field list; fails exactly without a binding |
| `Receipts.EvaluationReceipt.Sign` | src/evaluator/mod.rs:259-287 | A signed receipt verifies under exactly the keys that accept what was signed, if its digest is right; so under the public key of the signing key |
| `Receipts.SignedBytesFixDigest` | src/evaluator/mod.rs:259-263 | The bytes that are signed determine the digest |
| `Receipts.EvaluationReceipt.BindAndSignV2` | src/evaluator/mod.rs:206-216 | A bound and signed receipt is sufficient exactly for its subject, policy and holdout set, and only if the candidate was admitted |
| `Receipts.EvaluationReceipt.VerifyForPromotion` | src/evaluator/mod.rs:221-257 | Accepts exactly version 2 receipts that verify under the key, name the subject, policy and holdout set, and were admitted |
| `Hex.DecodesEncoded` | src/evaluator/mod.rs:259-287 | Hex decoding undoes hex encoding |
| `PromotionGate.CheckV2Promotion` | src/promotion_gate.rs:41-105 | Passes exactly when staged bytes, separate judge key, pinned policy, receipt, parent, path, allowed target and holdout ratio all hold; what passes has holdouts, and passed the pinned share of them |
| `PromotionGate.ThresholdExactly` | src/promotion_gate.rs:96-104 | The threshold asks for the given share of a positive number of holdouts, and nothing else depends on it |
| `PromotionGate.MorePassedStays` | src/promotion_gate.rs:96-104 | What is promoted stays promoted when more of the same holdouts pass |
| `PromotionGate.NonePassedNever` | src/promotion_gate.rs:96-104 | A positive threshold never promotes with no holdout passed |
| `PromotionGate.AllPassedAlways` | src/promotion_gate.rs:96-104 | A threshold of at most 1 never refuses when every one of a positive number of holdouts passed |
| `PromotionGate.DigestFixesPromotion` | src/promotion_gate.rs:41-105 | A digest accepted once is accepted only for the same parent, path and bytes under the same policy file and holdout set, with the same recorded results |
| `PromotionGate.Version1Ambiguous` | src/evaluator/mod.rs:85-106 | An input: two version 1 receipts with different ids share a digest and both verify |
| `PromotionGate.Version1BindsIds` | src/evaluator/mod.rs:85-106 | Version 1 receipts with equal digests have equal ids exactly when the three ids have the same lengths, and then the same verdict, barring a collision |
| `DualCodec.Reader.Take` | src/dual/records.rs:324-373 | Reads the next bytes or refuses; the cursor never passes the end and the first refusal is kept |
| `DualCodec.Reader.ReadHeader` | src/dual/records.rs:374-387 | Short header, wrong kind and wrong version are refused in this order |
| `DualCodec.Reader.End` | src/dual/records.rs:389-397 | An earlier refusal comes first, then trailing bytes; otherwise the fields read are the whole input |
| `DualCodec.DecodeResource` | src/dual/records.rs:589-598 | Gives exactly the outcome that the form of the bytes and the checks determine |
| `DualCodec.DecodeConstraint` | src/dual/records.rs:610-635 | Gives exactly the outcome that the form of the bytes and the checks determine |
| `DualCodec.DecodeController` | src/dual/records.rs:661-693 | Gives exactly the outcome that form, count and checks determine, in the order of the refusals |
| `DualCodec.DecodePriceVector` | src/dual/records.rs:711-737 | Gives exactly the outcome that form, count and checks determine, in the order of the refusals |
| `DualCodec.EncodeResource` | src/dual/records.rs:600-608 | Writes the image of the canonical record |
| `DualCodec.EncodeConstraint` | src/dual/records.rs:637-659 | Writes the image of the canonical record |
| `DualCodec.EncodeController` | src/dual/records.rs:695-709 | Writes the image of the canonical record |
| `DualCodec.EncodePriceVector` | src/dual/records.rs:739-750 | Writes the image of the canonical record |
| `DualLayout.ImageUnique` | src/dual/records.rs:589-750 | The bytes of a kind determine the record bit for bit |
| `DualRoundTrip.DecodingIsUnique` | src/dual/records.rs:589-750 | The bytes determine the outcome of decoding |
| `DualRoundTrip.DecodeEncoded` | src/dual/records.rs:589-750 | Decoding undoes encoding for every acceptable record, with +0.0 for -0.0 |
| `DualRoundTrip.EncodeDecoded` | src/dual/records.rs:589-750 | Encoding undoes decoding exactly when no double of the record is -0.0, and is idempotent otherwise |
| `DualRoundTrip.AcceptedLengths` | src/dual/records.rs:589-750 | Only 50, 294, 46 + 12n and 46 + 36n bytes with 1 <= n <= 32 are ever accepted |
| `DualRoundTrip.AttainedLengths` | src/dual/records.rs:589-750 | Each of these lengths is accepted for some record |
| `DualRoundTrip.IdentityIffEqual` | src/dual/records.rs:757-771 | Two acceptable records have the same identity digest exactly when they are equal up to the sign of zeros, barring a collision |
| `DualRoundTrip.CanonicalKeeps` | src/dual/records.rs:420-423 | Writing both zeros alike keeps a record acceptable and changes nothing the second time |
| `DualDoubles.AcceptedExactly` | src/dual/records.rs:462-585 | Exactly which records pass the checks, with their doubles as numbers: finite, positive scales and limits, nonnegative prices and uncertainties, rho between 0 and 1, named digests, 1 to 32 entries with strictly ascending ids |
| `DualDoubles.MagnitudeGrows` | src/dual/records.rs:475-477 | Larger bits of a double without its sign stand for a larger magnitude |
| `DualDoubles.ChecksCompare` | src/dual/records.rs:475-477 | The checks on bit patterns are the comparisons with 0.0 and 1.0 |
| `DualDoubles.CanonicalOrder` | src/dual/records.rs:420-423 | Nonnegative doubles have one canonical pattern for each number, in the order of the numbers |
| `DualDiagnostic.SelectDominant` | src/dual/diagnostic.rs:236-285 | A reading gives the fields of a fresh calibrated state such that no other has a larger canonical pattern of lambda, nor the same and a lower id; without one, refused prevails over stale, stale over frozen, frozen over uncalibrated |
| `DualDiagnostic.ReadingIsScarcest` | src/dual/diagnostic.rs:236-266 | Among accepted states no fresh one has a larger price, as a number, than the one that is read, and none of the same price a lower id |
| `DualDiagnostic.FreshPlainly` | src/dual/diagnostic.rs:238-241 | Only a fresh state whose calibration reference has a nonzero byte is read |
| `DualDiagnostic.DominantUnique` | src/dual/diagnostic.rs:139-147 | With different ids there is one dominant state, so order does not matter |
| `DualDiagnostic.ResolveStates` | src/dual/diagnostic.rs:189-224 | Gives the state of every entry, or the reason of the first entry that names no supplied record of its resource and generation |
| `DualDiagnostic.FromRecords` | src/dual/diagnostic.rs:154-226 | A reading is given exactly for a vector that decodes, has the expected digest and whose entries all resolve, and is that of the dominant state; otherwise the first thing that is wrong is the reason |
| `DualDiagnostic.StatesHaveDifferentResources` | src/dual/diagnostic.rs:189-224 | The states behind a reading have strictly ascending resources |
| `Json.WriteCanonical` | src/canary/mod.rs:93-125 | Whatever order the keys of an object are met in, the text is the same function of the value |
| `Json.SortedKeysUnique` | src/canary/mod.rs:110-123 | There is one sorted list of the keys |
| `Json.PrintUnique` | src/canary/mod.rs:93-130 | A printed value ends where it ends: in front of any delimiter, equal texts are equal values |
| `Json.PrintInjective` | src/canary/mod.rs:86-130 | Different values have different canonical texts |
| `Json.PrintIsPrintable` | src/canary/mod.rs:86-130 | Canonical text has no control character, so a record stays on one line |
| `Json.VisibleIsKept` | src/canary/mod.rs:93-125 | Text without control characters, backslash and quote is written as it is |
| `CanonicalRecords.ObservationValueUnique` | src/canary/observation.rs:118-125 | The canonical form of an observation covers every field |
| `CanonicalRecords.WorkloadValueUnique` | src/canary/workload.rs:145-153 | The canonical form of a workload covers every request, outcome and deadline |
| `CanonicalRecords.LineTextUnique` | src/canary/log.rs:97-113 | Different log records have different lines |
| `CanonicalRecords.CanonicalFormatsAreLawful` | src/canary/log.rs:106-113 | Canonical JSON meets what the log asks of its lines: no line break, and read back as printed |
| `CanonicalRecords.WorkloadDigestUnique` | src/canary/workload.rs:149-153 | Workloads with equal digests are equal, barring a collision |
| `Escaping.EscapeUnique` | src/canary_observation.rs:103-114 | A quoted text ends at the first unescaped quote and determines its characters |
| `CanaryObservationV1.JsonString` | src/canary_observation.rs:103-114 | The loop escapes every character |
| `CanaryObservationV1.EscapedIsVisible` | src/canary_observation.rs:103-114 | No control character is ever written |
| `CanaryObservationV1.VisibleIsKept` | src/canary_observation.rs:103-114 | Visible text without backslash and quote is written as it is |
| `CanaryObservationV1.CanonicalBytes` | src/canary_observation.rs:34-49 | Assembles the canonical text |
| `CanaryObservationV1.CanonicalTextUnique` | src/canary_observation.rs:34-49 | The canonical text determines the record: no field can pass for another |
| `CanaryObservationV1.AdmitProductionQuota` | src/canary_observation.rs:56-101 | Admits exactly when every observation qualifies, no id stands for two digests and the different ids reach the target, and counts the ids |
| `CanaryObservationV1.BlankPlainly` | src/canary_observation.rs:67-72 | One visible ASCII character makes an id or status not blank, and ASCII white space alone does not |
| `CanaryObservationV1.QuotaIgnoresOrder` | src/canary_observation.rs:56-101 | Decision and count do not change under reordering or repeating observations |
| `CanaryObservationV1.AdmittedIdsAreRecords` | src/canary_observation.rs:56-101 | In an admitted list each id stands for one record, barring a collision |
| `Paths.SplitJoined` | src/isolation/root_of_trust.rs:38-55 | Joined components come apart again |
| `Paths.JoinSplit` | src/isolation/root_of_trust.rs:38-55 | The components of a path join to the path |
| `RootOfTrust.NormalizeStrict` | src/isolation/root_of_trust.rs:38-55 | The loop over the components gives the normal form, or refuses what climbs above the root |
| `RootOfTrust.NormalIsClean` | src/isolation/root_of_trust.rs:38-55 | A normal form has no empty, . or .. component |
| `RootOfTrust.NormalizeIdempotent` | src/isolation/root_of_trust.rs:38-55 | Normalising twice is normalising once |
| `RootOfTrust.DetourVanishes` | src/isolation/root_of_trust.rs:45-52 | Stepping into a directory and out again anywhere in a path does not change its normal form |
| `RootOfTrust.IsProtectedPath` | src/isolation/root_of_trust.rs:57-75 | The verdict is a function of the normal form, and every listed path is protected |
| `RootOfTrust.ProtectedExactly` | src/isolation/root_of_trust.rs:57-75 | Protected is exactly what has no normal form, the root, and a listed path followed by any components or none |
| `RootOfTrust.EntriesAreProtected` | src/isolation/root_of_trust.rs:57-75 | Every listed path has a normal form and is protected, and so is every path whose normal form is at or below it |
| `RootOfTrust.ProtectionExtendsBelow` | src/isolation/root_of_trust.rs:57-75 | Everything below a protected path is protected |
| `RootOfTrust.AssertPatchPermitted` | src/isolation/root_of_trust.rs:77-87 | Permits exactly paths with a normal form that are unprotected or of tier 2 and above |
| `RootOfTrust.ValidateDeclaredFiles` | src/isolation/root_of_trust.rs:89-102 | One violation for each file that is not permitted; none exactly when all are |
| `DiffGate.NormalizeRepoPath` | src/diff_gate.rs:38-66 | The loop gives the kept components or refuses |
| `DiffGate.NormalisersAgree` | src/diff_gate.rs:38-66 | What the gate accepts the root of trust maps to the same path, a fixed point of both |
| `DiffGate.RepoPathsExactly` | src/diff_gate.rs:38-66 | Accepted are exactly relative paths without backslash, NUL, .. or .git component and with a name in them |
| `DiffGate.GitInAnyCase` | src/diff_gate.rs:56 | A component counts as git metadata exactly when it is .git in any mixture of cases |
| `DiffGate.WithinRoots` | src/diff_gate.rs:70-79 | True exactly when a valid root is the path or a directory above it |
| `DiffGate.WithinExactly` | src/diff_gate.rs:70-79 | Inside is exactly an accepted root followed by any components or none |
| `DiffGate.CheckDeclaredTarget` | src/diff_gate.rs:82-92 | Accepts exactly paths inside the roots that are not protected, and returns their normal form |
| `DiffGate.CheckEntry` | src/diff_gate.rs:205-237 | No violation exactly for a canonical path inside the roots that is not deleted, with mode 100644 or 100755 now and before, or no file before |
| `SecurityLayer.FoundInOneLine` | src/diff_gate.rs:248-252 | Searching the collected text is searching the scanned lines, those with `+` but not `+++` in front, one by one: no pattern is found across two of them and none in them is missed |
| `SecurityLayer.EvaluateCandidate` | src/evaluator/layers/security.rs:72-122 | Passes exactly when there is no violation: all files permitted, no secret signature and no network primitive in the text |
| `DiffGate.CheckRealDiff` | src/diff_gate.rs:194-258 | No violation exactly for a single entry equal to the declared target that is canonical, inside the roots, not protected, regular and not deleted, with no secret signature and no network primitive in the scanned lines of the patch |
| `UnifiedDiff.LinesOfRendered` | src/diff_gate.rs:248-252 | Cutting a printed patch into lines gives back its lines, up to a carriage return at the end |
| `UnifiedDiff.FoundExactly` | src/diff_gate.rs:247-253 | For every printed patch the gate finds a pattern exactly when it stands in an added content that does not start with `++` |
| `UnifiedDiff.NothingEscapesExactly` | src/diff_gate.rs:247-253 | Every pattern that is added is found exactly when every added content that starts with `++` is repeated inside one that does not |
| `UnifiedDiff.ContentCleanExactly` | src/diff_gate.rs:247-256 | The content verdict is clean exactly when no added content that does not start with `++` holds a secret signature or network primitive; under the same condition it speaks of all added contents |
| `UnifiedDiff.UnmarkedIsRepeated` | src/diff_gate.rs:247-252 | A patch with no added content that starts with `++` meets that condition |
| `UnifiedDiff.MarkedContentEscapes` | src/diff_gate.rs:248-252 | An input: a patch whose only added line is `++AKIA` is accepted for every entry the gate would accept |
| `RawDiff.ParseRawDiff` | src/diff_gate.rs:127-157 | The loop over header and path fields parses the whole listing or refuses it |
| `RawDiff.ParseRendered` | src/diff_gate.rs:127-157 | Parsing what is printed for a list of entries gives the entries back in order |
| `NearestRank.PercentileNearestRank` | src/measure/stats.rs:23-34 | Returns a sample with at least ceil(pn/100) samples at most it and, for p > 0, fewer than that strictly below; refuses exactly empty or negative samples and p outside 0..100 |
| `NearestRank.RankUnique` | src/measure/stats.rs:23-34 | Only one sample value has a given rank, so the order of the samples does not matter |
| `NearestRank.P95IfSufficient` | src/measure/stats.rs:42-48 | A p95 exactly from the required number of samples on |
| `NearestRank.MedianAtMostP95` | src/measure/stats.rs:36-48 | The median never exceeds the p95 of the same samples |
| `Selection.SelectCompatible` | src/measure/select.rs:81-88 | The filter chain keeps the eligible records, each cycle once, in order |
| `Selection.WindowIgnores` | src/measure/select.rs:81-90 | Records of the current cycle, of another key or fingerprint and later repetitions of a cycle change nothing wherever they are inserted |
| `Selection.WindowIsLast` | src/measure/select.rs:81-90 | When as many different cycles of the key and fingerprint follow as the window holds, or fewer with none before, exactly those are measured and earlier records change nothing |
| `Selection.TryMeasure` | src/measure/select.rs:73-131 | Succeeds exactly when no cycle of the window records a stage twice and, with a minimum of 0, every stage has a sample; every number is then fixed by the window |
| `Selection.MeasurementIsFixed` | src/measure/select.rs:112-128 | Two measurements of a stage from the same window agree in every number |
| `Selection.MeasurementIsSound` | src/measure/select.rs:112-128 | Latencies are nonnegative, the median at most the p95, the error rate in [0, 1] |
| `MeasuredGraph.MeasureStages` | src/measure/select.rs:40-71 | Every stage is measured, or all are unavailable because the samples were rejected |
| `MeasuredGraph.BuildCapabilityGraph` | src/measure/select.rs:134-165 | Gives a graph exactly for acceptable measurements: one node a stage reading back its measurement, and the chain of the pipeline |
| `MeasuredGraph.SoundIsAcceptable` | src/measure/select.rs:134-165 | What was measured always builds a graph |
| `SampleLogs.CompleteConcat` | src/measure/log.rs:80-91 | What is written after whole lines adds its own complete lines |
| `SampleLogs.SampleLog.DropTornTail` | src/measure/log.rs:80-91 | Drops what follows the last newline and no complete line |
| `SampleLogs.SampleLog.Append` | src/measure/log.rs:52-77 | After a crash at any byte the log holds the old records, and the new one only if its newline was written |
| `SampleLogs.SampleLog.ReadComplete` | src/measure/log.rs:93-116 | Reads back exactly the records that were written |

## Left out

- CapabilityGraphs.CapabilityGraph.CalculateBetweennessCentrality: scores three or more nodes only when every edge that leaves a node of the graph ends inside it, because the code indexes its maps with the target and stops the program otherwise.
- Ranking.ScoreRange: rounding to 1e-9 is kept, the saturation of the rounded score at 64 bits is not, since scores stay below 5.4.
- Bootstrap.PairedComparison: means, interval ends and p-values are exact reals; rounding, infinities and NaN are not modelled.
- Fisher.FishersExactTest: the code adds logarithms of factorials in floating point, the model multiplies factorials exactly.
- CanaryExecutor.HandleFrame: the frame that is logged is not spelled out in the reason text.
- CanaryExecutor.RecordRejection: a rejection that fails to be written without stopping the supervisor is ignored by the code and not modelled; a failed write of an observation or a seal ends the run like a crash.
- RootOfTrust.IsProtectedPath: component-wise comparison of paths is modelled on the text, with `/` as the only separator.
- RawDiff.ParseRawDiff: invalid UTF-8 in a listing is not modelled.
- Receipts.EvaluationReceipt.VerifyForPromotion: reading the policy file and the key bytes is a parameter; floating point in the holdout ratio is exact.
- SHA-256, HMAC and P-256 themselves, the worker's authentication handshake, process launch, sockets, timers, SQLite and the file system.
- Sequence numbers and counters of the ledger are unbounded; the code stores them in 64 bits.
- The tail non-inferiority test, graph export, reports and explanation texts, ratification, promotion evidence and rollback blocks beyond an ordinary append.
- Proposing, soak runs, the daemon, configuration, the resource balancer, the GPU tuner and the meta layers: orchestration or small tables.
- Standard-library sorting is modelled by insertion sort.
