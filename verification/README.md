# usenet-bench verification

A Dafny model of the parts of usenet-bench whose correctness is an argument, not plumbing, and
proofs of what those parts promise.

- **PAR2 generator.** The arithmetic of GF(2^16) as the generator's loops do it
  (`GaloisField`, `CarrylessProduct`, `FieldInverse`, `GroupOrder`), the list of slice constants
  (`Constants`), and the recovery blocks (`LinearAlgebra`, `Par2`). The catalog says which
  exponent sets make a repair possible; `Par2` proves that it is right, for every content.
- **Schedule.** Building a plan, validating it and grouping it into queue suites
  (`Sequences`, `PlanModel`, `PlanSchedule`, `PlanValidate`, `PlanBuild`, `PlanDrift`,
  `PlanOrder`, `QueueSuites`). The builder, the validator that re-derives everything with other
  loops, and the grouper that relies on the validator are proved to agree, whatever the generator
  of random numbers chooses.
- **Statistics.** The paired bootstrap, the figure over several fixtures and the assessment of
  measurement uncertainty (`Statistics`, `CrossFixture`, `Precision`), and what their numbers are,
  told with products, powers and counts (`GeometricMean`, `Quantiles`).
- **Summary.** The fold over the artifacts and the report made of it (`Ordering`, `SummaryFold`,
  `TransferEvidence`, `Counters`, `SummaryReport`, `Subgroups`, `Summary`): the order of the
  artifacts does not matter, blocks are conserved, every fixture of a class is accounted for, and
  the timing assessment never contradicts the summary it stands beside. `FoldedTables`,
  `Reported` and `Traced` say the same in the fields of blocks and artifacts.
- **NNTP responder.** The shared state with its atomic operations (`Responder`) and all
  interleavings of its connections (`Interleaving`, `ResponderRuns`): a run is any sequence of
  atomic actions.
- **Encoders.** Dot-stuffing, yEnc, uuencode, ustar, pax records, RAR 5 and 7z numbers (`Text`,
  `Wire`, `Yenc`, `Uuencode`, `Articles`, `Tar`, `Pax`, `Numbers`). The repository has only the
  printers. Each decoder here parses the public format, fields and checks included, and is proved
  to undo its printer, together with the exact inputs on which it does.

Code that changes things step by step is a method with loops, an array or a class, proved against
a function; the properties are lemmas about the function. `dafny verify dfyconfig.toml` checks
everything.

Where the code does less than its own comments or the formats ask for, the model follows the code
and states exactly when it does meet the promise, with a lemma at an input that fails: constants
repeat beyond 32768 slices (`Constants.ConstantsDistinct`), a dot after a bare LF stays doubled in
the CRLF receiver (`Wire.CrlfRoundTrip`), a name with an LF breaks a yEnc or a uuencode header
(`Yenc.RoundTrip`, `Uuencode.RoundTrip`), a pax key with an equals sign is split in the wrong place
(`Pax.RoundTrip`), long names and large files do not survive a ustar header
(`Tar.ArchiveRoundTrip`), and `BuildPlan` refuses valid options whose TLS policies do not match the
link (`PlanBuild.BuildPlan`).

## Model

| member | source | states |
|---|---|---|
| GaloisField.GfMultiply | internal/adversarial/par2_multi.go:11-25 | the shift-and-xor loop returns the product `Mul`, whose ring laws are proved below |
| GaloisField.MulComm | internal/adversarial/par2_multi.go:11-25 | multiplication commutes, although the loop treats its two arguments differently |
| GaloisField.MulAssoc | internal/adversarial/par2_multi.go:11-25 | multiplication is associative |
| GaloisField.MulAddLeft | internal/adversarial/par2_multi.go:11-25 | multiplication distributes over xor in its first argument |
| GaloisField.MulAddRight | internal/adversarial/par2_multi.go:11-25 | multiplication distributes over xor in its second argument |
| CarrylessProduct.CarrylessRemainder | internal/adversarial/par2_multi.go:9-25 | the carry-less product over wide polynomials equals a multiple of 0x1100B plus the loop's result |
| CarrylessProduct.RemainderUnique | internal/adversarial/par2_multi.go:9-25 | the loop's result is the only 16-bit remainder of that division |
| FieldInverse.AllFixed | internal/adversarial/par2_multi.go:11-25 | squaring any element sixteen times gives it back |
| FieldInverse.Idempotent | internal/adversarial/par2_multi.go:11-25 | only 0 and 1 are their own squares |
| FieldInverse.InverseLaw | internal/adversarial/par2_multi.go:11-25 | every non-zero element times its 65534th power is 1, so it has an inverse |
| FieldInverse.PowGroup | internal/adversarial/par2_multi.go:26-36 | every non-zero element to the power 65535 is 1 |
| FieldInverse.NoZeroDivisors | internal/adversarial/par2_multi.go:11-25 | a product is zero only when a factor is |
| FieldInverse.MulCancel | internal/adversarial/par2_multi.go:11-25 | a non-zero factor cancels |
| GaloisField.GfPower | internal/adversarial/par2_multi.go:26-36 | square-and-multiply returns the n-fold product `Pow` |
| GaloisField.PowAdd | internal/adversarial/par2_multi.go:26-36 | a power of a sum of exponents is the product of the powers |
| GaloisField.PowMul | internal/adversarial/par2_multi.go:26-36 | a power of a power multiplies the exponents |
| GaloisField.ProductPow | internal/adversarial/par2_multi.go:26-36 | the power of a product is the product of the powers |
| GroupOrder.OrderOfTwo | internal/adversarial/par2_multi.go:26-45 | 2 has order exactly 65535: a power of 2 is 1 only at multiples of 65535 |
| GroupOrder.PowersOfTwo | internal/adversarial/par2_multi.go:26-45 | two powers of 2 are equal exactly when their exponents agree modulo 65535 |
| Constants.ParConstants | internal/adversarial/par2_multi.go:37-45 | the filtered loop terminates for every count, with its 32-bit exponent wrapping around, and returns the powers of 2 at the allowed exponents in order |
| Constants.DistanceDecreases | internal/adversarial/par2_multi.go:39 | the termination measure: from any exponent that is skipped, the next allowed one comes closer, across the wrap-around too |
| Constants.CountAllowed | internal/adversarial/par2_multi.go:40 | exactly 32768 exponents below 65535 pass the filter |
| Constants.ExponentsInOrder | internal/adversarial/par2_multi.go:39-43 | constant number i uses the allowed exponent that has i allowed ones below it, all below 65535 |
| Constants.ConstantsDistinct | internal/adversarial/par2_multi.go:37-45 | the constants are never zero, and pairwise distinct exactly when there are at most 32768 |
| Constants.FirstComesBack | internal/adversarial/par2_multi.go:37-45 | with more than 32768 slices the first constant occurs a second time |
| LinearAlgebra.Vandermonde | internal/adversarial/par2_multi.go:85-96 | a difference supported on k slices with distinct non-zero constants and k consecutive vanishing power sums is zero |
| LinearAlgebra.Underdetermined | internal/adversarial/par2_multi.go:85-96 | fewer equations than unknown slices always have a non-zero solution |
| Par2.CutSlices | internal/adversarial/par2_multi.go:76-79 | a file is cut into zero-padded slices of one size |
| Par2.SlicesRestore | internal/adversarial/par2_multi.go:76-79 | every slice has the slice size, the slices together start with the file, and only zeros follow it |
| Par2.DamageOneSlice | internal/adversarial/par2_multi.go:76-79 | changing one byte of a file changes one byte of one slice |
| Par2.WordValue | internal/adversarial/par2_multi.go:91-92 | a word is its first byte plus 256 times its second |
| Par2.Recover | internal/adversarial/par2_multi.go:86-94 | on byte values: byte 2j and 256 times byte 2j+1 of the recovery block are the xor, over all slices, of the slice's own two bytes so joined times its constant to the exponent |
| Par2.MultiRecovery | internal/adversarial/par2_multi.go:46-96 | the files in ascending order of their identifiers, and one recovery block per exponent, over the slices of all of them in that order and the constants for that many slices |
| Par2.IdentifierReads | internal/adversarial/par2_multi.go:52-54 | an identifier depends on the first 16 KiB of the file, its length and its name |
| Par2.RecoveryDetermines | internal/adversarial/par2_multi.go:85-96 | for every content of up to 32768 slices: contents that agree outside k lost slices and on recovery blocks with k consecutive exponents are equal |
| Par2.RecoveryLeavesChoice | internal/adversarial/par2_multi.go:85-96 | with fewer different exponents than lost slices, every content has a different one with the same intact slices and the same recovery blocks |
| Par2.CatalogIsRight | internal/adversarial/catalog.go:45-46 | for every slice count up to 32768 and any two lost slices, the variant's exponents make repair possible exactly when the catalog expects recovery |
| Par2.CaseOrders | internal/adversarial/par2_multi.go:56-66 | sorting the two files of the repair case puts alpha or beta first, the two orders of the rows below |
| Par2.DamageHitsTwoSlices | internal/adversarial/par2_multi.go:101-125 | in either order of the files the two damaged bytes change exactly the fifth slice of alpha and the third of beta, slices 4 and 8 or 7 and 2 of nine |
| Par2.RecoverableCase | internal/adversarial/par2_multi.go:101-125 | for the recoverable variants, in either order of the files, any files that match the intact slices and the recovery blocks are the originals |
| Par2.RejectedCase | internal/adversarial/par2_multi.go:101-125 | for the rejected variants, in either order of the files, there are other files of the same lengths with the same intact slices and recovery blocks |
| PlanModel.RunIDInjective | internal/benchmark/plan.go:361 | different positions have different run identifiers, also beyond four digits |
| PlanOrder.RunIDReads | internal/benchmark/plan.go:274 | an identifier is "run-" and the number, in four digits or as many as it needs |
| PlanModel.KeyInjective | internal/benchmark/plan.go:403 | the NUL-joined key separates run tuples, even when a fixture identifier contains NUL |
| PlanValidate.HasDuplicates | internal/benchmark/plan.go:733-753 | true exactly when a value occurs twice |
| PlanValidate.ValidateProfiles | internal/benchmark/plan.go:651-674 | accepts exactly one well-formed TLS policy for every client and for no other |
| PlanValidate.ValidateExclusions | internal/benchmark/plan.go:679-703 | accepts exactly the exclusions with a reason, of declared clients and fixtures, without repetition, that leave a client on every fixture |
| PlanOrder.BlankMeans | internal/benchmark/plan.go:679-703 | a caption or a reason is blank when it has only the 25 characters that Go trims |
| PlanValidate.FixtureKeepsClient | internal/benchmark/plan.go:696-700 | on every fixture some client is not excluded |
| PlanValidate.ValidateOptions | internal/benchmark/plan.go:449-518 | accepts exactly the valid options |
| PlanValidate.BenchmarkLanes | internal/benchmark/plan.go:532-542 | the lanes of a target: the allowed toolchains of each client, in declared order |
| PlanValidate.ReverseLanes | internal/benchmark/plan.go:595-599 | the two-index swap loop reverses the lanes in place |
| PlanValidate.CountExpected | internal/benchmark/plan.go:321-331 | the count over the loops, times transports and repetitions |
| PlanSchedule.PlannedCount | internal/benchmark/plan.go:321-331 | that count is the number of allowed, non-excluded run tuples |
| PlanSchedule.Pigeonhole | internal/benchmark/plan.go:332-408 | planned tuples without repetition are all of them exactly when their number is the expected one |
| PlanSchedule.ScheduleComplete | internal/benchmark/plan.go:557-578 | the forward/reverse schedule has every planned tuple exactly once |
| PlanOrder.ScheduleOrdered | internal/benchmark/plan.go:557-578 | the schedule goes by pass, fixture, transport and target in declared order, and within a cell by client and toolchain, forwards on odd passes and backwards on even ones |
| PlanOrder.ScheduleIs | internal/benchmark/plan.go:557-578 | the only list of the planned tuples, each once, in that order is the schedule |
| PlanOrder.ToolchainsPlanned | internal/benchmark/plan.go:601-612 | vanilla runs wherever its tuple is declared, Rarpar exactly in Docker with SABnzbd and NZBGet |
| PlanValidate.InterleavedOrder | internal/benchmark/plan.go:557-578 | the loop nest of the re-derivation yields the pass-major schedule with even passes reversed |
| PlanValidate.ValidateInterleavedOrder | internal/benchmark/plan.go:548-591 | accepts exactly the plans whose runs are that schedule, position by position |
| PlanValidate.ValidateRuns | internal/benchmark/plan.go:357-408 | accepts exactly the runs with canonical order, matching metadata and distinct tuples |
| PlanValidate.Validate | internal/benchmark/plan.go:299-410 | accepts a plan exactly when it has every planned tuple once and nothing else, canonical metadata, and, interleaved, the exact order |
| PlanValidate.ValidPlanChecks | internal/benchmark/plan.go:299-410 | membership and uniqueness and the count together are the same as completeness |
| PlanBuild.Shuffle | internal/benchmark/plan.go:250 | whatever the generator chooses, the swaps leave a permutation |
| PlanBuild.SortStable | internal/benchmark/plan.go:248 | sorted by repetition, and rounds of one repetition keep their order |
| PlanBuild.StableSortUnique | internal/benchmark/plan.go:248 | there is one stable sort of the rounds |
| PlanBuild.SortedRoundsArePasses | internal/benchmark/plan.go:231-248 | the stable sort of the fixture-major rounds is the pass-major order |
| PlanBuild.BuildRounds | internal/benchmark/plan.go:231-240 | the four loops list the rounds fixture-major |
| PlanBuild.AppendRuns | internal/benchmark/plan.go:261-291 | a round appends one run for every lane that is not excluded, numbered on from the runs so far |
| PlanBuild.BuildRuns | internal/benchmark/plan.go:231-292 | for every choice of the generator: every planned tuple once, numbered in order, and interleaved in exactly the forward/reverse order |
| PlanBuild.BuiltPlanValid | internal/benchmark/plan.go:293 | built runs pass validation exactly when the TLS policies match the link |
| PlanBuild.BuildPlan | internal/benchmark/plan.go:180-297 | succeeds exactly when the defaulted options are valid and the policies match the link, and then returns a valid plan |
| PlanBuild.PoliciesCanDiffer | internal/benchmark/plan.go:293 | valid options, complete as given, whose policies do not match the link, so that the plan is refused |
| PlanBuild.DefaultProfilesMatch | internal/benchmark/plan.go:193-198 | defaulted client profiles always match the link |
| PlanOrder.DefaultsMean | internal/benchmark/plan.go:181-204 | what is unset gets its named default, only SABnzbd is left unverified, an external link uses public roots, and what is set stays |
| PlanDrift.OrderGaps | internal/benchmark/plan.go:95-105 | the summed positions of two surviving lanes differ by their distance when the number of passes is odd and not at all when it is even |
| PlanDrift.DriftCancels | internal/benchmark/plan.go:95-105 | over all passes the total order of any two surviving lanes is equal (even) or differs by their single-pass distance (odd), exclusions filtered |
| QueueSuites.GroupRuns | internal/benchmark/queue.go:327-344 | the lane map and the appends produce one suite per lane, in order of first appearance, each with its runs in plan order |
| QueueSuites.QueueTransitionSuites | internal/benchmark/queue.go:312-351 | succeeds exactly on one fixture, two or more repetitions, runs of that fixture only and full suites; for every valid plan with one fixture and two repetitions it never fails |
| QueueSuites.SuitesPartition | internal/benchmark/queue.go:327-344 | every run of the target is in exactly one suite, and a run of another target or from outside the plan is in none |
| QueueSuites.SuitesNumbered | internal/benchmark/queue.go:333-338 | suites are numbered from 1, so no two of a plan share an identifier |
| QueueSuites.SuitesInOrder | internal/benchmark/queue.go:327-344 | before any run of a later suite the plan has a run of each earlier one |
| QueueSuites.SuiteAscends | internal/benchmark/queue.go:327-344 | the runs of a suite of a valid plan are in plan order |
| QueueSuites.LaneIsFull | internal/benchmark/queue.go:345-349 | in a valid single-fixture plan the lane of any run has exactly one run per repetition |
| QueueSuites.TransitionAccepts | internal/benchmark/queue.go:330-349 | for a valid single-fixture plan none of the error branches is reachable |
| QueueSuites.ValidateFor | internal/benchmark/queue.go:768-846 | accepts exactly when the checks of each job hold and the job identifiers are the suite's run identifiers, each once |
| QueueSuites.JobsPairWithRuns | internal/benchmark/queue.go:788-844 | for a suite of a valid plan an accepted result pairs its jobs one to one with the suite's runs |
| Statistics.SortUnique | internal/benchmark/statistics.go:63 | every ascending rearrangement of the values is the one that the model sorts to, whatever algorithm finds it |
| Statistics.SortBelow | internal/benchmark/statistics.go:63 | sorting keeps pointwise domination: the k-th smallest of dominated values is dominated |
| Statistics.PercentileMonotone | internal/benchmark/statistics.go:111-123 | percentiles grow with the probability and stay between the smallest and the largest value |
| Statistics.PercentileBelow | internal/benchmark/statistics.go:111-123 | interpolated percentiles of dominated values are dominated |
| Statistics.Mean | internal/benchmark/statistics.go:83-89 | the loop computes the average |
| Statistics.Bootstrap | internal/benchmark/statistics.go:54-62 | each resample averages as many draws as there are blocks, from one stream that continues across resamples |
| Statistics.SummarizePaired | internal/benchmark/statistics.go:35-77 | fails exactly for fewer than two blocks, no resamples or a non-positive measurement; otherwise medians, geometric mean and the two bootstrap percentiles |
| GeometricMean.RatioIsGeometric | internal/benchmark/statistics.go:71 | the ratio is positive, and its power to the number of blocks times the product of the baselines is the product of the candidates |
| GeometricMean.RatioUnique | internal/benchmark/statistics.go:71 | one number has that property |
| GeometricMean.RatioRises | internal/benchmark/statistics.go:71 | raising one block's candidate raises the ratio |
| GeometricMean.SummaryPermuted | internal/benchmark/statistics.go:65-77 | ratio and medians do not depend on the order of the blocks |
| Quantiles.SummaryMedians | internal/benchmark/statistics.go:67-68 | at least half of the baselines, and of the candidates, are at most their median, and at least half at least it |
| Quantiles.MedianNegated | internal/benchmark/statistics.go:91-99 | the median of the negated values is the negated median, so it favours neither middle value |
| GeometricMean.ResampleIsGeometric | internal/benchmark/statistics.go:54-62 | resample k is the ratio of the blocks that the stream names from k times their number on |
| Quantiles.IntervalIsQuantiles | internal/benchmark/statistics.go:54-73 | the ends of the interval are the quantiles 0.025 and 0.975 of the resampled ratios, counted on both sides |
| Quantiles.PercentileEven | internal/benchmark/statistics.go:111-123 | on evenly spaced values a percentile is exact, so it moves evenly between two values |
| Statistics.IntervalBelow | internal/benchmark/statistics.go:54-73 | with one seed and one number of blocks, larger ratios give a higher interval at both ends |
| Statistics.IntervalObserved | internal/benchmark/statistics.go:54-73 | low is at most high, and both and the geometric mean lie between the smallest and the largest observed ratio |
| Precision.CollectEnds | cmd/nntpbench/precision.go:22-33 | stops exactly when some pair has an uncertainty that is not smaller than its measurement; otherwise both sample lists, the shortest duration and the largest fraction |
| Precision.AssessTiming | cmd/nntpbench/precision.go:19-67 | the loop and the two summaries report, of the blocks in which both clients finished, both ends of the interval, the shortest duration, the largest fraction and the conclusion |
| Precision.ConclusionHolds | cmd/nntpbench/precision.go:29-67 | each of the eight conclusions that state something is drawn exactly under its condition on the pairs, the failures and the interval |
| Precision.ShortestMeans | cmd/nntpbench/precision.go:26 | the reported duration is one of the measurements and at most all of them |
| Precision.LoosestMeans | cmd/nntpbench/precision.go:27 | the reported fraction bounds every uncertainty and is reached by one |
| Reported.JudgedTiming | cmd/nntpbench/precision.go:30-51 | the two ends are the intervals of the blocks with the candidate shortened by its uncertainty, and with the baseline shortened by its own |
| Precision.SensitivityEncloses | cmd/nntpbench/precision.go:32-51 | sensitivity low <= nominal low <= nominal high <= sensitivity high |
| Precision.TimingEncloses | cmd/nntpbench/precision.go:19-67 | whenever the assessment is bounded its interval encloses the one of the summary of the same pairs, and a decisive conclusion holds of the latter too |
| CrossFixture.SummarizeAcrossFixtures | internal/benchmark/statistics.go:150-208 | fails exactly without fixtures, without resamples or with an unusable fixture; otherwise the average of fixture averages over the sorted fixtures, resampled within each fixture |
| GeometricMean.FigureIsGeometric | internal/benchmark/statistics.go:202 | the figure is the geometric mean of the ratios that the fixtures have on their own |
| GeometricMean.MeanUnique | internal/benchmark/statistics.go:202 | one number is that mean |
| GeometricMean.FixturesExchanged | internal/benchmark/statistics.go:183-204 | exchanging the blocks of two fixtures leaves the figure where it was |
| GeometricMean.FixtureRaises | internal/benchmark/statistics.go:183-204 | whatever raises the ratio of one fixture raises the figure |
| GeometricMean.FigureCounts | internal/benchmark/statistics.go:176-200 | the figure counts the blocks of all its fixtures |
| GeometricMean.CrossResampleIsGeometric | internal/benchmark/statistics.go:183-195 | resample k is the geometric mean of what the fixtures draw one after the other from one stream |
| Quantiles.CrossIntervalIsQuantiles | internal/benchmark/statistics.go:183-204 | the ends of the interval are the quantiles 0.025 and 0.975 of those resamples |
| CrossFixture.EqualWeight | internal/benchmark/statistics.go:125-131 | repeating one fixture's blocks any number of times leaves the geometric mean unchanged |
| CrossFixture.CrossIntervalObserved | internal/benchmark/statistics.go:183-204 | the cross-fixture interval is ordered and lies, with the figure, between the smallest and the largest observed ratio |
| Responder.Server.CountRequest | internal/adversarial/server.go:155-157 | the request counter, and whether the command is within its budget |
| Responder.Server.TakeAttempt | internal/adversarial/server.go:260-266 | the attempt number of a call, under the mutex |
| Responder.Server.Record | internal/adversarial/server.go:285-294 | the deferred transcript entry: appended below the limit, counted as dropped at it |
| Responder.Server.LoadReserved | internal/adversarial/server.go:121-124 | the load half of a reservation, and whether the length fits |
| Responder.Server.SwapReserved | internal/adversarial/server.go:125-127 | the compare-and-swap half: reserves exactly when nothing was reserved in between |
| Responder.Server.Reserve | internal/adversarial/server.go:119-129 | the load-and-swap loop, with whatever other connections reserve between a load and its swap: it ends by adding its length once, within the budget, or by refusing a length that no longer fits |
| Responder.Server.AddBytes | internal/adversarial/server.go:130 | counts the bytes written |
| Responder.Server.Write | internal/adversarial/server.go:118-135 | reserves with whatever others reserve meanwhile, then counts what the socket took; the result is over budget, socket error, short write or delivered, each exactly in its case; the bytes written stay within the bytes reserved, and those within 512 MiB |
| Responder.Server.BeginArticle | internal/adversarial/server.go:225-266 | one more article call, and its attempt number |
| Interleaving.BudgetHolds | internal/adversarial/server.go:119-135 | in every interleaving: bytes written plus reservations in flight are within the bytes reserved, which are the sum of all successful reservations and at most 512 MiB |
| Interleaving.SwapFailsOnProgress | internal/adversarial/server.go:120-128 | a compare-and-swap is retried exactly when another connection reserved bytes since the load |
| Interleaving.NothingDropped | internal/adversarial/server.go:155-294 | in every interleaving at most 8192 article calls start, nothing is dropped, and transcript entries, calls in flight and calls about to start add up to the body requests |
| Interleaving.AttemptsConsecutive | internal/adversarial/server.go:260-266 | in every interleaving the finished and running calls of an article carry the attempts 1 to n, each once |
| Interleaving.FirstAttemptOnly | internal/adversarial/server.go:273-297 | first-missing and first-corrupt hit exactly one call of every requested article, in every interleaving |
| Interleaving.SlotsHold | internal/adversarial/server.go:97-108 | at most 64 connections are open at once, and at most 2048 are served |
| ResponderRuns.RunCounts | internal/adversarial/server.go:119-294 | after any run every counter has counted its own events: bytes the sockets took, requests, body requests, calls, entries and connections |
| ResponderRuns.RunLimits | internal/adversarial/server.go:86-290 | in numbers: 536870912 bytes, 8192 calls, 64 connections at once, 2048 served, 512 lines each |
| ResponderRuns.LimitsExact | internal/adversarial/server.go:86-290 | and a connection, a line, a request or a reservation is refused exactly at these numbers |
| ResponderRuns.RepliesFit | internal/adversarial/server.go:260-320 | every recorded call got the reply that the fault kind and its attempt number ask for |
| Wire.WireBody | internal/adversarial/server.go:242-257 | the start-flag loop writes the dot-stuffed body, a final CRLF where missing, and the lone dot |
| Wire.LfRoundTrip | internal/adversarial/server.go:242-257 | for every body and whatever follows, a receiver of LF lines gets the body, ended by CRLF, and consumes exactly the block |
| Wire.CrlfRoundTrip | internal/adversarial/server.go:242-257 | the receiver of section 3.1.1 of RFC 3977 gets the body exactly when no dot follows an LF that has no CR before it |
| Wire.CrlfReceives | internal/adversarial/server.go:242-257 | in every case that receiver consumes exactly the block, with the dots after bare LFs left doubled |
| Wire.DotAfterBareLf | internal/adversarial/server.go:242-257 | a body of LF and a dot does not survive that receiver |
| Wire.FirstLoneDotIsLast | internal/adversarial/server.go:242-257 | no line of the block before the last is a lone dot, whether it ends with CRLF or with LF alone |
| Yenc.Encode | internal/adversarial/generate.go:25-58 | header, lines and trailer of a single or a numbered part |
| Yenc.EncodeLines | internal/adversarial/generate.go:32-47 | the column loop writes the shifted and escaped bytes with a line end at column 126 |
| Yenc.RoundTrip | internal/adversarial/generate.go:25-58 | a yEnc decoder that reads the fields of all three keyword lines and checks the sizes, the part's bounds and the checksum returns name, part, data and what follows exactly when the name has no LF |
| Yenc.LineEndInName | internal/adversarial/generate.go:27-31 | a name that is one LF does not come back |
| Yenc.LinesFilled | internal/adversarial/generate.go:32-47 | every line but the last has 126 or 127 octets, and the last at most 127 |
| Yenc.NoMarker | internal/adversarial/generate.go:38-46 | "=y" never occurs in the lines |
| Yenc.LinesEscaped | internal/adversarial/generate.go:38-46 | an equals sign is always followed by the escaped form of a critical byte, and every LF by construction follows a CR |
| Yenc.ArticlePaired | internal/adversarial/generate.go:25-58 | in an article whose name has no LF every LF follows a CR, and the article ends with CRLF |
| Uuencode.SextetBits | internal/adversarial/archives.go:448 | the shifts and masks of a group are the quotients and remainders of the model |
| Uuencode.Pad | internal/adversarial/archives.go:443-445 | zero bytes up to a multiple of three do not change the characters |
| Uuencode.EncodeRow | internal/adversarial/archives.go:436-451 | one row: its count, its characters and CRLF |
| Uuencode.Encode | internal/adversarial/archives.go:426-454 | begin line, rows of at most 45 bytes, end line |
| Uuencode.RoundTrip | internal/adversarial/archives.go:426-454 | a uuencode decoder returns name, mode, data and what follows the end line exactly when the name has no LF |
| Uuencode.LineEndInName | internal/adversarial/archives.go:428 | a name that is one LF does not come back |
| Uuencode.EncodedPaired | internal/adversarial/archives.go:426-454 | in a file whose name has no LF every LF follows a CR, and the file ends with CRLF |
| Uuencode.RowsFilled | internal/adversarial/archives.go:436-451 | every row but the last carries 45 bytes |
| Uuencode.RowsPlain | internal/adversarial/archives.go:429-434 | no row has a space that could be stripped |
| Articles.YencOverTheWire | internal/adversarial/generate.go:25-58 | yEnc encoder, dot-stuffing, RFC 3977 receiver and yEnc decoder together return name, part and data |
| Articles.UuOverTheWire | internal/adversarial/archives.go:426-454 | uuencode encoder, dot-stuffing, RFC 3977 receiver and uuencode decoder together return name, mode and data |
| Tar.Copy | internal/adversarial/archives.go:192-200 | copy into a slice of the header, cut at its end |
| Tar.TarChecksum | internal/adversarial/archives.go:204-213 | blanks the checksum field, sums the 512 bytes and writes six octal digits, in place |
| Tar.ChecksumVerifies | internal/adversarial/archives.go:204-213 | any 512-byte header verifies once its checksum is written |
| Tar.ChecksumIdempotent | internal/adversarial/archives.go:204-213 | writing the checksum twice is writing it once |
| Tar.TarHeader | internal/adversarial/archives.go:190-203 | the header built by successive copies, with its checksum |
| Tar.OctalFits | internal/adversarial/archives.go:196 | zero-padded octal has its width exactly when the number fits, and reads back as the number |
| Tar.SizeField | internal/adversarial/archives.go:196 | the size is read back exactly when it has at most eleven octal digits |
| Tar.NameRead | internal/adversarial/archives.go:192 | the name, with the prefix field, is read back exactly when it has at most 100 bytes and no NUL |
| Tar.TarEntry | internal/adversarial/archives.go:214-219 | header, data and zeros up to a whole block |
| Tar.TarArchive | internal/adversarial/archives.go:220-226 | the entries and two zero blocks |
| Tar.ArchiveRoundTrip | internal/adversarial/archives.go:220-226 | a ustar reader that checks checksums and reads mode, owner, time, kind and link returns the files exactly when every name has at most 100 bytes without NUL and every size is below 8^11 |
| Tar.LongName | internal/adversarial/archives.go:192 | an archive of one file with a name of 101 bytes does not come back |
| Pax.PaxRecord | internal/adversarial/archives.go:244-255 | the loop terminates for every key and value, and the length it states is the least that equals the length of the record |
| Pax.RoundTrip | internal/adversarial/archives.go:244-255 | a pax reader returns key, value and rest exactly when the key has no equals sign |
| Pax.EqualsInKey | internal/adversarial/archives.go:244-255 | a key that is one equals sign does not come back |
| Pax.TwoConsistent | internal/adversarial/archives.go:247-254 | two lengths can be consistent for one record |
| Numbers.Vint | internal/adversarial/binary_formats.go:10-17 | the shifting loop writes base-128 digits, least significant first |
| Numbers.VintBits | internal/adversarial/binary_formats.go:10-17 | the masks and shifts of the loop are the remainders, sums and quotients of the model, on 64-bit words |
| Numbers.VintRoundTrip | internal/adversarial/binary_formats.go:10-17 | a RAR 5 reader returns the number and exactly what follows |
| Numbers.VintPrefixFree | internal/adversarial/binary_formats.go:10-17 | no encoding is a prefix of another |
| Numbers.VintShortest | internal/adversarial/binary_formats.go:10-17 | no other spelling of a number is shorter |
| Numbers.VintTenBytes | internal/adversarial/binary_formats.go:10-17 | a 64-bit number takes at most ten bytes |
| Numbers.SevenUint | internal/adversarial/binary_formats.go:213-226 | the loop over lengths writes the shortest form that fits, little-endian after its first byte |
| Numbers.FirstByteBits | internal/adversarial/binary_formats.go:216-217 | prefix and high bits do not overlap, so joining them is the sum of the model |
| Numbers.SevenRoundTrip | internal/adversarial/binary_formats.go:213-226 | a 7z reader returns the number and exactly what follows |
| Numbers.SevenPrefixFree | internal/adversarial/binary_formats.go:213-226 | no encoding is a prefix of another |
| Numbers.SevenShortest | internal/adversarial/binary_formats.go:213-226 | no other spelling of a number is shorter |
| Numbers.SevenNineBytes | internal/adversarial/binary_formats.go:214-225 | the nine-byte form is used exactly from 2^56 on |
| SummaryFold.FoldArtifacts | cmd/nntpbench/summarize.go:696-939 | the loop over the artifacts, with its maps of earlier values, computes the fold, and its lists of byte counts hold the counts that the fold collects |
| SummaryFold.FoldAccepts | cmd/nntpbench/summarize.go:696-939 | the loop accepts exactly the artifacts that are usable on their own and agree two by two: one storage profile, one value of every fact, no second observation of a block |
| FoldedTables.FoldAcceptsExactly | cmd/nntpbench/summarize.go:696-939 | the same in the fields of the artifacts: usable ones that share storage profile and pinned output and, when compared, workload, infrastructure, class, axes, encoding and build, and do not observe one side of a block twice |
| SummaryFold.AcceptableExactly | internal/benchmark/queue.go:757-766 | in whole nanoseconds: a positive duration, and an uncertainty of at most a hundredth of it or 250 ms |
| FoldedTables.FoldFacts | cmd/nntpbench/summarize.go:724-823 | every artifact finds its own digests, class, axes, encoding and build in the tables |
| FoldedTables.FoldBuilds | cmd/nntpbench/summarize.go:803-820 | a client has a build in a stratum exactly when it has an artifact there |
| FoldedTables.FoldRecords | cmd/nntpbench/summarize.go:914-937 | a compared artifact is recorded in the block of its repetition, the baseline's as baseline and the candidate's as candidate, as unfinished or with its own duration, uncertainty, CPU, RSS and writes |
| FoldedTables.FoldAbsences | cmd/nntpbench/summarize.go:824-937 | a side is absent exactly when no artifact is for it, and a block exists exactly when one is |
| FoldedTables.FoldTallies | cmd/nntpbench/summarize.go:839-885 | the accounts of CPU, RSS and writes hold each reading of the client's finished runs once, under its provenance or with its reason |
| FoldedTables.FoldNotes | cmd/nntpbench/summarize.go:887-894 | a stratum has exactly the caveats of its finished runs |
| SummaryFold.StepsCommute | cmd/nntpbench/summarize.go:696-939 | taking two artifacts in either order refuses the same or collects the same |
| SummaryFold.OrderIrrelevant | cmd/nntpbench/summarize.go:696-939 | every permutation of the artifacts is refused, or collects the same tables |
| SummaryFold.FoldCarries | cmd/nntpbench/summarize.go:895-912 | the transfer account of a compared client holds the byte count of each of its finished, shaped runs once, and the sums of their censuses |
| SummaryFold.FoldPlausible | cmd/nntpbench/summarize.go:735-747 | every collected duration is positive and no uncertainty is negative |
| TransferEvidence.BuildTransferEvidence | cmd/nntpbench/summarize.go:1118-1145 | the evidence computed from the lists in artifact order is a function of the collected accounts, baseline first |
| TransferEvidence.SortedUnique | cmd/nntpbench/summarize.go:1125-1126 | there is one ascending list of given byte counts, so the order of the artifacts leaves no trace |
| TransferEvidence.EvidenceMeans | cmd/nntpbench/summarize.go:1127-1133 | minimum and maximum are counts of the runs and bound all of them; the median is one of them, with at least half of the counts at most as large and at least half at least as large |
| TransferEvidence.TransferOrder | cmd/nntpbench/summarize.go:1118-1145 | one entry for each client with shaped bytes, the baseline's first |
| Counters.CheckClient | cmd/nntpbench/summarize.go:1202-1239 | one client's accounting and reasons, from its provenances in order |
| Counters.CheckMeans | cmd/nntpbench/summarize.go:1202-1239 | a client gives no reason exactly when it has one source, the one of the client before |
| Counters.NoReason | cmd/nntpbench/summarize.go:1199-1267 | over both clients no reason is given exactly when both were measured by one and the same source over enough pairs |
| Counters.ReasonsMean | cmd/nntpbench/summarize.go:1199-1267 | which reason is given when: no finished block, nothing measured, a changed source, too few pairs |
| Counters.BuildCounterComparison | cmd/nntpbench/summarize.go:1192-1275 | accounting, sorted caveats, reasons and summary; a summary exactly when both clients were measured by one and the same source over enough pairs, and otherwise a reason |
| SummaryReport.CompleteBlocks | cmd/nntpbench/summarize.go:961-1002 | fills excluded clients in, refuses exactly the blocks that lack a client, and counts |
| SummaryReport.BlocksConserved | cmd/nntpbench/summarize.go:967-1002 | every observed block is paired or has a client that did not finish, never both |
| SummaryReport.JudgeStratum | cmd/nntpbench/summarize.go:961-1064 | the verdict on one stratum, with digests, policies, exclusions, timing, counters and transfer evidence: an error, a withheld comparison, or samples for its class |
| SummaryReport.JudgedBalanced | cmd/nntpbench/summarize.go:967-1064 | observed blocks are paired blocks plus blocks with a failure; a summary exists exactly with enough pairs, and only a stratum without failures is pooled |
| Reported.JudgedExactly | cmd/nntpbench/summarize.go:967-1056 | when a stratum is an error: a run is missing that is not excluded, a counter cannot be summarized, pairs are too few without a failure, or pairs or resamples cannot be summarized |
| Reported.JudgedCompletion | cmd/nntpbench/summarize.go:967-1002 | each completion count is the number of repetitions whose recorded block is so |
| Reported.JudgedFigures | cmd/nntpbench/summarize.go:973-1056 | durations and each counter are compared with themselves, block by block in order of repetition: the baseline's value as baseline, the candidate's as candidate |
| Reported.JudgedNotes | cmd/nntpbench/summarize.go:1020-1042 | each counter is accounted for from its own accounts, the baseline's first; storage caveats stand with the CPU time only, the NFS note with the writes only |
| Traced.ReportRepeats | cmd/nntpbench/summarize.go:1003-1019 | a comparison repeats class, axes, encoding, digests and policies of every artifact of its stratum, and the exclusions of its fixture |
| Traced.ReportCompares | cmd/nntpbench/summarize.go:669-1079 | in every report of any artifacts the ratio of a comparison is the geometric mean of candidate over baseline durations, over exactly the blocks that both clients finished |
| SummaryReport.SamplesNominal | cmd/nntpbench/summarize.go:973-1008 | the blocks that the summary compares are the pairs that the timing assesses |
| SummaryReport.JudgedEnclosed | cmd/nntpbench/summarize.go:1008-1056 | in every comparison with a summary the interval of a bounded timing encloses the reported one, and a decisive conclusion holds of the reported one |
| SummaryReport.DraftReport | cmd/nntpbench/summarize.go:941-1065 | the loop over the strata in order |
| SummaryReport.RollsCover | cmd/nntpbench/summarize.go:954-1065 | the compared and the withheld fixtures of a class are exactly its fixtures, each on one side |
| SummaryReport.EntersOnce | cmd/nntpbench/summarize.go:1052-1063 | a stratum always finds the account of its class without its fixture, so no list gets a fixture twice |
| Traced.ClassTraced | cmd/nntpbench/summarize.go:954-959 | a fixture of a class has an artifact of that class under that setting |
| Traced.ClassComplete | cmd/nntpbench/summarize.go:954-1063 | the fixture of every compared artifact is in its class under its setting: with the pairs of its stratum, or withheld exactly when some block of it is not a pair |
| SummaryReport.BuildClassAggregates | cmd/nntpbench/summarize.go:1084-1114 | one aggregate per class in order, or an error |
| SummaryReport.SoundAggregates | cmd/nntpbench/summarize.go:1084-1114 | for accounts of judged strata no aggregate fails, and a figure exists exactly when no fixture is withheld |
| Traced.AggregateFigure | cmd/nntpbench/summarize.go:1103-1110 | the figure of an aggregate is the geometric mean of the ratios of the fixtures it names, none of them withheld |
| Subgroups.SubgroupAccounts | cmd/nntpbench/subgroups.go:11-49 | the nested loops, in any order of their maps, divide every class along both axes |
| Subgroups.PlaceFixture | cmd/nntpbench/subgroups.go:31-45 | one fixture enters one group on each axis, neither of which holds it yet |
| Subgroups.AxisPartitions | cmd/nntpbench/subgroups.go:11-49 | along each axis a fixture is in exactly one group of its class, the one of its value, with the samples or the status it has in the class |
| Traced.SubgroupTraced | cmd/nntpbench/subgroups.go:21-45 | in the artifacts' own axes: repair_required exactly for a declared profile other than clean, and the declared encryption or unspecified |
| Subgroups.OnlyDivisions | cmd/nntpbench/subgroups.go:11-49 | no other group exists, and none is empty |
| Subgroups.DivisionUnique | cmd/nntpbench/subgroups.go:11-49 | the division does not depend on the order in which maps are traversed |
| Summary.BuildSummaryReport | cmd/nntpbench/summarize.go:669-1079 | fold, strata, classes and subgroups together |
| Summary.ReportIgnoresOrder | cmd/nntpbench/summarize.go:669-1079 | two orders of the same artifacts give the same report, transfer evidence included, or neither gives one |
| Summary.ReportEncloses | cmd/nntpbench/summarize.go:669-1079 | in every report of any artifacts, each bounded timing interval encloses the interval of the summary beside it, and no decisive conclusion is contradicted by that summary |
| Summary.ReportComplete | cmd/nntpbench/summarize.go:1069-1079 | once every stratum is judged the report exists, with one comparison per stratum and one aggregate per class and subgroup, each naming its fixtures, with a figure exactly when none is withheld |

## Left out

- Error messages: an operation that fails says so, not with which of its messages; where several checks fail the model does not say which is reported.
- Integer widths: lengths, orders and counters that cannot reach their limits are unbounded; 16-bit field elements, the 32-bit exponent of the constants and 64-bit numbers in archives keep their widths.
- Random numbers: a shuffle is any sequence of swaps, and bootstrap draws are any stream of indices that its seed, the bound and the position of a draw determine.
- Floating point: measurements are real numbers, logarithm and exponential any increasing inverses that turn products into sums and back, so rounding, infinities and NaN are not modelled; of the float64 limits only the largest finite value is kept.
- Statistics.SummarizePaired: the two coefficients of variation, which would need a square root and are used by no other figure.
- PlanValidate.ValidateOptions: the profile tables of links, storage and articles; a plan's options carry whether each is well formed and declared.
- PlanValidate.HasDuplicates: `hasDuplicateStrings` sorts its copy where the model remembers what it has seen.
- Par2.MultiRecovery: the packets around the recovery blocks; a file's identifier is any number that its first 16 KiB, its length and its name determine, in place of the MD5.
- Yenc.Encode: CRC32 is any 32-bit function of the data, and the decoder compares with the same function.
- QueueSuites.ValidateFor: each job's timing, status and metric checks and the result's header checks are one flag each, because they look at one job or at the header alone.
- `queueSuites`, which gives every run a suite of its own, and the execution of suites.
- Responder.Server: a write to a socket and the addition to the byte counter are one action in `Interleaving`; the per-command counters, fault deliveries, deadlines, time stamps and digests of a response are not modelled, and what a response holds is reduced to the lengths of its writes.
- Interleaving: a connection that the listener refuses because all slots are taken is counted but has no further action; commands are reduced to what they make the responder do.
- Summary.BuildSummaryReport: display names and the texts of withheld comparisons, which are printed from the declared case, the stratum and the counts that a comparison has, and the constant texts and the parameters that are copied into the report; strata, groups and provenances are sorted by any injective rank instead of their printed form.
- SummaryFold.FoldArtifacts: the checks that look at one artifact alone are two flags, one for all artifacts and one for those of the compared clients; the pinned-output check, which the source makes in a pass of its own, is one of the facts of the fold.
- Subgroups.SubgroupAccounts: the lists of withheld fixtures are sets, because they are only sorted and counted; `SummaryReport.EntersOnce` and `Subgroups.PlaceFixture` show that no fixture enters one twice.
- Counters.BuildCounterComparison: reasons and caveats are values, not their texts.
- Fixture generation, mutation tables, ZIP, RAR and 7z containers, the compression of payloads, downloads, process control, JSON and the rendering of reports.
