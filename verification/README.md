# Verified model of the cake-autorate-rs decision logic

A Dafny model of the OpenWrt traffic-shaper daemon's pure decisions and
crash-safe protocols, with proofs of what they guarantee over every input, run
or reachable state. `dafny verify dfyconfig.toml` checks all of it.

| files | component |
|---|---|
| `Selection`, `SearchHistory`, `Search`, `SearchTheorems`, `SearchConvergence`, `SearchLength`, `SearchEnding`, `SearchSelectors`, `SearchSteps`, `SearchExamples` | Auto-Tune search: judging measurements, deciding the next rate, verdicts, the closed loop, bisection and its length, whole searches, what selectors and steps mean, counterexamples |
| `Review`, `ReviewBuilder` | the Pareto review set and alignment of the verdict with it |
| `Corrections` | corrections of a shaped candidate |
| `OwnedRouteRules`, `OwnedLedger`, `OwnedLedgerRuns`, `OwnedAttestation` | the owned probe table: rendered rules, a packet interpreter, the byte ledger, whole runs, reading it back |
| `ProbeLease`, `ProbeReceipt` | the probe lease as a state machine, the receipt text and the group pool |
| `DnsName`, `RoutedDns`, `DnsAnswer`, `DnsResponse` | the DNS codec and alias resolver, and printed responses |
| `QdiscCapability` | the multi-queue capability probe |
| `CandidateTransfer` | the chunked candidate upload |
| `AdaptiveCeiling`, `AdaptiveCeilingRuns` | the adaptive ceiling |
| `BoundedLog` | the bounded rotating log |
| `TrafficWindow` | counter windows |

Conventions: floating-point values are `real`, with rounding to 100 kbit/s and
all clamps exact; times are natural numbers; bytes are naturals below 256;
reasons and error codes are constructors. Files and kernel objects are values,
and every failure, torn write, crash or foreign change is a parameter or a step,
so a theorem holds for all of them.

The kernel semantics the rule interpreter fixes: a socket match, `==` or `!=`,
fails for a packet without a socket; a connection match fails for an untracked
packet; a set insert that does not fit ends its rule; `return` in a base chain
accepts. A packet is never empty, and its passage through the output and the
postrouting hook is two events with any others in between. The lease model relies
on table handles never being reused, table comments being immutable, strangers
never writing an owner's comment, fresh generations and a complete process
inventory; its runs have every table creation settled before the owner's lock is
released, and `ProbeLease.LateInstallFence` says when a later one is harmless. In
the capability probe strangers move before every step, also between the check and
the command of a deletion; it relies on fresh aliases and on links not surviving
a reboot. The transfer relies on fresh tokens.

Where code and a tempting statement disagree, the model follows the code, and a
lemma gives an input and the exact condition:

- A terminal search result may have no review option, because one lossy repeat
  removes its whole rate: `SearchExamples.LossyRepeatHasNoOption`, exactly when no
  measured rate is reviewable (`SearchExamples.NoOptionIff`).
- Variable Link may measure a rate more than three times:
  `SearchExamples.FourMeasurementsInOneRun`, only through the non-monotonic repeat
  and with fewer than three safe measurements (`SearchTheorems.VerdictSound`).
- A required floor that saturates at the global rate bound can be missed by an
  Increase: `Corrections.SaturatedFloorCanBeMissed`, and
  `Corrections.CorrectionSound` for when it is kept.
- A foreign packet can be dropped when an owner packet of the same tuple is sent
  between its two hooks: `OwnedLedgerRuns.ForeignPacketCanBeDropped`, exactly as
  `OwnedLedgerRuns.SplitHooks` says.
- Deleting the probe link by name can take a stranger's link:
  `QdiscCapability.ReplacedLinkIsDeleted`, exactly when a stranger removed the
  checked link before the command (`QdiscCapability.RemovalOwnedIff`).
- A table creation that completes after its owner's slot was taken over is not
  fenced by a receipt: `ProbeLease.LateInstallCanEscape`, exactly as
  `ProbeLease.LateInstallFence` says.
- A probe target is rounded after the cap is applied, so a fractional cap can be
  exceeded: `AdaptiveCeilingRuns.FractionalCapIsExceeded`, exactly when the cap
  rounds up and a probe below it can start
  (`AdaptiveCeilingRuns.CeilingWithinCapIff`).
- A complete upload can be validated more than once:
  `CandidateTransfer.ValidatedTwice`, only after validations whose file could not
  be removed, and always for the same bytes (`CandidateTransfer.Store.Serve`).

## Model

| member | source | states |
|---|---|---|
| `SearchTheorems.VerdictSound` | package/cake-autorate-rs/src/src/autotune.rs:2816-2955 | For every valid history, on the measurements themselves: a non-Test verdict is Inconclusive exactly when no measurement is uncensored, in the realization band and within the loss limit, no censored one is worth a review, and no two of one rate that are worth a review, with no delay above 200 ms, achieve the same within 5%; Complete and Fallback select a safe measurement or one worth a review, Complete a safe one and, unless the profile is Fair, one with both its delays under the target; a Test has attempts left and asks for a rate in [minimum, upper] that was measured fewer than three times or, on Variable Link and only for the non-monotonic repeat, has fewer than three safe measurements |
| `SearchHistory.JudgeMeaning` | package/cake-autorate-rs/src/src/autotune.rs:2897-2955 | The judgement of a measurement, without divisions: safe, resource safe, on target with both delays, worth a manual review, and the larger delay as the effective one |
| `SearchSelectors.ScoreMeans` | package/cake-autorate-rs/src/src/autotune.rs:2935-2942 | The balanced score is half for the retained share of observed-low and half for the delay, full up to the target and then in inverse proportion |
| `SearchSelectors.GradeCountsBounds` | package/cake-autorate-rs/src/src/transport_quality.rs:284-302 | A grade is the number of the bounds 5, 30, 60, 200 and 400 ms that the delay reaches |
| `SearchTheorems.DecisionSound` | package/cake-autorate-rs/src/src/autotune.rs:4589-5079 | Every branch of both searches proposes a bounded rate with attempts left and keeps a selection backed by evidence |
| `SearchTheorems.VariableSound` | package/cake-autorate-rs/src/src/autotune.rs:4047-4587 | The same for the Variable Link search over its aggregated curve, plateau and knee branches |
| `SearchTheorems.FloorBranchesUnreachable` | package/cake-autorate-rs/src/src/autotune.rs:4900-5005 | For every valid input the search never answers with one of the four reasons that raise a rate towards a capacity or throughput floor: those branches are dead code |
| `SearchTheorems.ResolveSound` | package/cake-autorate-rs/src/src/autotune.rs:4654-4728 | The chain of fallbacks of an inconclusive decision: safe, then low-realization, then censored evidence, and Inconclusive exactly without any |
| `SearchTheorems.LowRealizationFacts` | package/cake-autorate-rs/src/src/autotune.rs:3435-3464 | The best low-realization selector finds a reviewable measurement exactly when some rate has a corroborated pair |
| `Review.PairIffLowRealization` | package/cake-autorate-rs/src/src/autotune.rs:3359-3429 | A rate is a low-realization candidate exactly when two of its reviewable measurements repeat each other |
| `SearchTheorems.BestSafeFacts` | package/cake-autorate-rs/src/src/autotune.rs:3125-3140 | The best safe selector finds a safe measurement exactly when there is one, and one that meets the target exactly when any safe one does |
| `SearchSelectors.BestTargetIsWidest` | package/cake-autorate-rs/src/src/autotune.rs:2965-2981 | Of the safe measurements on target the one with the most throughput, and then the least delay |
| `SearchSelectors.NoCakeEffectIsWidest` | package/cake-autorate-rs/src/src/autotune.rs:2983-3003 | The same among those that retained half of observed-low |
| `SearchSelectors.TrustedQualityIsBestGraded` | package/cake-autorate-rs/src/src/autotune.rs:3005-3027 | Of the safe measurements that retained half of observed-low the best graded, then the least delay, then the most throughput |
| `SearchSelectors.BestQualityIsBestGraded` | package/cake-autorate-rs/src/src/autotune.rs:3043-3073 | Of the safe measurements the best graded, then the most throughput, then the least delay |
| `SearchSelectors.BestBalancedScoresHighest` | package/cake-autorate-rs/src/src/autotune.rs:3075-3090 | Of the safe measurements the highest score, then the most throughput |
| `SearchSelectors.BestFairIsQuickest` | package/cake-autorate-rs/src/src/autotune.rs:3092-3123 | Within the uncertainty of every safe measurement's throughput, and of such measurements the least delay |
| `SearchSelectors.FairFallsBack` | package/cake-autorate-rs/src/src/autotune.rs:4642-4650 | Without a safe measurement the fair profile keeps the most throughput within the loss limit |
| `SearchSelectors.CapacityGroupIsWidest` | package/cake-autorate-rs/src/src/autotune.rs:3221-3308 | Of the groups limited by the link the one with the greatest least throughput is reviewed |
| `SearchSelectors.BestCensoredIsWidest` | package/cake-autorate-rs/src/src/autotune.rs:3165-3193 | Of the reviewable censored measurements the most throughput, then the highest rate, then the least delay |
| `SearchSelectors.LowRealizationIsWorst` | package/cake-autorate-rs/src/src/autotune.rs:3359-3429 | The low-realization evidence at a rate is the greatest delay and the least throughput of its corroborated measurements |
| `SearchSelectors.BestLowRealizationPrefers` | package/cake-autorate-rs/src/src/autotune.rs:3435-3464 | Among rates with such evidence one on target comes first, and then the most throughput |
| `SearchSteps.ControlledMeans` | package/cake-autorate-rs/src/src/autotune.rs:3919-3970 | A lower rate is derived exactly after two or more measurements of low realization that repeat or are three; it is the lowest hundred that would carry the least achieved rate half way between the realization floor and 100%, within [minimum, rate) |
| `SearchSteps.LatencyDescentMeans` | package/cake-autorate-rs/src/src/autotune.rs:3898-3917 | A latency-first step goes to the first hundred at or above 90% of the least clean throughput at the rate, within [minimum, rate), and only if that was not measured |
| `SearchSteps.LowPeerMeans` | package/cake-autorate-rs/src/src/autotune.rs:3868-3896 | A low measurement has a repeatable peer exactly if another one of its rate, low and with usable evidence, repeats it |
| `SearchSteps.FlatMeans` | package/cake-autorate-rs/src/src/autotune.rs:4038-4045 | A step down is flat exactly if it improves the median delay by no more than 3 ms or the uncertainty of the larger median |
| `SearchSteps.KneeMeans` | package/cake-autorate-rs/src/src/autotune.rs:4452-4490 | A measured knee keeps a measurement at its rate or above, the best target if that is one, and is complete exactly if it meets the target and the retention floor |
| `SearchSteps.RuntimeMinimumMeans` | package/cake-autorate-rs/src/src/autotune.rs:4654-4728 | A latency-first verdict carries its lowest passing rate as the runtime minimum exactly when there is one; a measured knee carries itself |
| `SearchSteps.FixedStepMeans` | package/cake-autorate-rs/src/src/autotune.rs:2400-2420 | The fixed step down is 15% of observed-low rounded up to a hundred, or to the minimum, and exists exactly above it |
| `SearchSteps.AtLimitExact` | package/cake-autorate-rs/src/src/autotune.rs:4870-4899 | Out of attempts: Complete exactly with certified evidence, Fallback with any other, Inconclusive with none |
| `SearchSteps.CapacityGroupIff` | package/cake-autorate-rs/src/src/autotune.rs:3221-3308 | A capacity-limited group exists exactly on Variable Link with a rate above the minimum whose every measurement is limited by the link and two of which repeat each other in achieved and realized rate |
| `Search.AggregateMeaning` | package/cake-autorate-rs/src/src/autotune.rs:3985-4036 | The aggregate of a rate: number, spread and median of its sorted safe delays, and the measurement nearest to the median |
| `Search.MedianIsMiddle` | package/cake-autorate-rs/src/src/autotune.rs:2207-2220 | The interpolated 50th percentile is the middle value or the mean of the two middle ones |
| `SearchTheorems.BoundarySound` | package/cake-autorate-rs/src/src/autotune.rs:5095-5171 | Ending a search at its measured boundary always gives a verdict, Inconclusive exactly when no evidence and no capacity-limited group exists, and otherwise selects evidence |
| `SearchTheorems.AskIsBounded` | package/cake-autorate-rs/src/src/autotune.rs:2816-2895 | Every proposed rate revalidates: fewer observations than allowed, inside the limits, with fewer than three safe measurements before and, outside Variable Link, fewer than three measurements at all |
| `SearchTheorems.LoopStops` | package/cake-autorate-rs/src/src/autotune.rs:4589-4610 | Feeding results back always revalidates and stops within max_attempts measurements; outside Variable Link no rate is measured more than three times; on every profile a rate has at most three safe measurements, so a fourth measurement needs an unsafe one |
| `SearchExamples.FourthMeasurementIsAsked` | package/cake-autorate-rs/src/src/autotune.rs:4326-4350 | A concrete Variable Link history with three measurements of a rate, one of them lossy, for which the search asks a fourth time |
| `SearchExamples.FourMeasurementsInOneRun` | package/cake-autorate-rs/src/src/autotune.rs:4326-4350 | A whole closed-loop run, every request answered, in which one rate is measured four times |
| `SearchConvergence.BracketHolds` | package/cake-autorate-rs/src/src/autotune.rs:4611-4630 | On a threshold link highest-pass <= threshold < lowest-fail |
| `SearchConvergence.MidpointHalves` | package/cake-autorate-rs/src/src/autotune.rs:3972-3974 | The rounded midpoint of a bracket is above its lower end, leaves at most half of it above and half of it and 100 kbit/s below, and reaches the upper end only in a bracket below 200 kbit/s |
| `SearchConvergence.BisectAsksMidpoint` | package/cake-autorate-rs/src/src/autotune.rs:5007-5039 | For every valid input, a request to bisect the quality boundary asks exactly for the rounded midpoint of the highest passing and the lowest failing rate |
| `SearchConvergence.BisectionHalves` | package/cake-autorate-rs/src/src/autotune.rs:5007-5039 | Measuring that midpoint on a threshold link leaves a bracket of at most half the width and 100 kbit/s |
| `SearchConvergence.LoopHalvesBracket` | package/cake-autorate-rs/src/src/autotune.rs:5007-5039 | In a closed loop on a threshold link, k bisection requests in a row leave a bracket of at most (width - 200) / 2^k + 200 kbit/s |
| `SearchConvergence.BoundedVerdict` | package/cake-autorate-rs/src/src/autotune.rs:5007-5039 | A maximum-target-grade-bounded verdict selects a measurement at the highest passing rate, with a bracket around the threshold of at most the resolution or below 200 kbit/s |
| `SearchLength.BracketedVerdict` | package/cake-autorate-rs/src/src/autotune.rs:5007-5039 | On a threshold link with a pass and a fail measured, the verdict is the attempt limit exactly when attempts are spent, otherwise the next bisection exactly when the bracket can be bisected, and otherwise the bounded maximum |
| `SearchLength.LoopGoesOnBisecting` | package/cake-autorate-rs/src/src/autotune.rs:5007-5039 | In a closed loop on such a link every later request is a bisection, measured at its midpoint |
| `SearchLength.LoopEnds` | package/cake-autorate-rs/src/src/autotune.rs:5007-5039 | Once its first m measurements hold a pass and a fail, such a loop has at most j + 1 more, for any j with bracket width < 200 + 2^j kbit/s |
| `SearchLength.EndVerdict` | package/cake-autorate-rs/src/src/autotune.rs:5007-5039 | When such a loop asks for no more, it has found the bounded maximum or spent exactly max_attempts |
| `SearchEnding.ThresholdVerdict` | package/cake-autorate-rs/src/src/autotune.rs:4589-5079 | On a threshold link the answer to every history: attempt limit; half way down, or target unreachable, while nothing passed; the upper bound, or its confirmation, while nothing failed; and the bisection or the bounded maximum in between, each with its exact request |
| `SearchEnding.SearchEnds` | package/cake-autorate-rs/src/src/autotune.rs:4589-5079 | A closed loop on a threshold link whose limits are less than 200 + 2^j kbit/s apart takes at most 2j + 4 measurements, whatever it measured first |
| `Review.CandidateIffReviewable` | package/cake-autorate-rs/src/src/autotune.rs:3501-3615 | A rate is a review candidate exactly when it was measured, none of its measurements exceeds the loss limit, and one is safe, one is a reviewable censored point, or two reviewable ones repeat each other |
| `Review.NoCandidateIff` | package/cake-autorate-rs/src/src/autotune.rs:3617-3644 | There is no candidate exactly when no rate is reviewable in that sense |
| `SearchExamples.NoOptionIff` | package/cake-autorate-rs/src/src/autotune.rs:3617-3744 | A terminal verdict of any valid input has no review option exactly when none of its measured rates is reviewable |
| `SearchExamples.LossyRepeatHasNoOption` | package/cake-autorate-rs/src/src/autotune.rs:3501-3530 | A concrete valid input whose terminal verdict has no review option: a clean measurement and a lossy repeat of it |
| `ReviewBuilder.BuildReviewOptions` | package/cake-autorate-rs/src/src/autotune.rs:3617-3744 | Pushing the three named roles and then balanced alternatives, each rate once and at most three, gives the specified review set |
| `ReviewTheorems.ReviewSet` | package/cake-autorate-rs/src/src/autotune.rs:3617-3744 | At most three options of distinct rates, none dominated by any reviewable rate, the first one recommended, always including one of lowest worst-case delay and one of highest conservative throughput; empty exactly when nothing is reviewable |
| `ReviewTheorems.RolesMean` | package/cake-autorate-rs/src/src/autotune.rs:3653-3744 | Exactly the first option is recommended; a quality-first option has the lowest delay and a throughput-first one the highest throughput of all reviewable rates |
| `ReviewTheorems.FrontierCovers` | package/cake-autorate-rs/src/src/autotune.rs:3636-3652 | Every reviewable rate has one on the Pareto frontier with at least its throughput and at most its delay |
| `ReviewTheorems.AlignmentSettles` | package/cake-autorate-rs/src/src/autotune.rs:3752-3773 | With a non-empty review set alignment is idempotent, keeps the set, selects its first option and passes validate_review_alignment (2584-2627) |
| `ReviewTheorems.AutoApplyEvidence` | package/cake-autorate-rs/src/src/autotune.rs:3478-3498 | An auto-apply option has every measurement at its rate within the loss limit, and every safe one with both delays under the target and at or above the retention floor |
| `ReviewTheorems.AutoApplyOnEvidence` | package/cake-autorate-rs/src/src/autotune.rs:3478-3498 | And an option with a safe measurement, all of them with both delays under the target and at or above the retention floor, is marked for auto-apply |
| `Selection.MaxByIsLast` | package/cake-autorate-rs/src/src/autotune.rs:3653-3658 | `max_by` keeps the last of several equal maxima |
| `Selection.MinByIsFirst` | package/cake-autorate-rs/src/src/autotune.rs:3659-3668 | `min_by` keeps the first of several equal minima |
| `Corrections.FloorRateIsThreshold` | package/cake-autorate-rs/src/src/autotune.rs:1620-1627 | A proposal keeps the floor of observed-low exactly when it is at or above the floor rate |
| `Corrections.CorrectionSound` | package/cake-autorate-rs/src/src/autotune.rs:1584-1765 | Every Decrease or Increase stays in [minimum, maximum] and moves strictly the named way, an Increase within the rounded 120% step and rounded observed-low; it keeps the retention floor exactly when the floor rate does not exceed the global bound, in particular whenever the required floor is below it |
| `Corrections.CorrectionExact` | package/cake-autorate-rs/src/src/autotune.rs:1584-1765 | The action from the gates: a new measurement exactly if a realization gate failed; else with a failed latency or loss gate the lowest permitted lower rate, within one 5% step; else with a failed retention gate the highest permitted higher rate; a hold exactly if all passed; infeasible exactly if no rate is permitted on the named side |
| `Corrections.StepsAreNear` | package/cake-autorate-rs/src/src/autotune.rs:1720-1745 | The increase bounds are observed-low, 105% and 120% of the candidate up to 50 kbit/s |
| `Corrections.SaturatedFloorCanBeMissed` | package/cake-autorate-rs/src/src/autotune.rs:1783-1790 | A concrete direction whose required floor saturates at the global bound and whose Increase misses the retention floor |
| `OwnedRouteRules.RenderRoutePin` | package/cake-autorate-rs/src/src/owned_route_rules.rs:73-268 | The batch starts with the only exclusive creation, declares both sets, the five counters and the output and input chains before any rule, and these chains hold exactly the specified rules in order |
| `OwnedRouteRules.RenderGuard` | package/cake-autorate-rs/src/src/owned_route_rules.rs:270-349 | Refuses exactly an unsafe device name; otherwise extends a batch by the egress chain and then its rules, changes no other chain and keeps declarations before rules |
| `OwnedRouteRules.RenderTable` | package/cake-autorate-rs/src/src/owned_route_rules.rs:57-349 | Both together, exactly for safe device names: one exclusive creation, every object declared, every rule behind the objects and its chain, and all three chains exactly as specified |
| `OwnedLedger.OutputRefines` | package/cake-autorate-rs/src/src/owned_route_rules.rs:125-268 | For every table and packet the output chain is the sending half of the ledger: claim or release the tuple, charge a claimed one, refuse an unclaimed owner packet, touch nothing else |
| `OwnedLedger.InputRefines` | package/cake-autorate-rs/src/src/owned_route_rules.rs:236-263 | The input chain counts exactly the replies of claimed tuples |
| `OwnedLedger.EgressRefines` | package/cake-autorate-rs/src/src/owned_route_rules.rs:270-349 | The egress chain drops and counts exactly the owner packets that leave by another device and are not local DNS, and the late packets of claimed tuples that leave by another device than lo |
| `OwnedLedgerRuns.OwnerSendAccounted` | package/cake-autorate-rs/src/src/owned_route_rules.rs:73-268 | At the output hook an owner packet is charged once and in full, or dropped and counted as a fault by its length |
| `OwnedLedgerRuns.OwnerLeaveAccounted` | package/cake-autorate-rs/src/src/owned_route_rules.rs:270-349 | At the egress hook an owner packet passes exactly by the measured device or to the local resolver, and is otherwise dropped and counted |
| `OwnedLedgerRuns.ForeignSendUntouched` | package/cake-autorate-rs/src/src/owned_route_rules.rs:158-184 | A packet of another known socket passes the output hook unmarked, changes no counter and releases its tuple |
| `OwnedLedgerRuns.ForeignLeaveDropped` | package/cake-autorate-rs/src/src/owned_route_rules.rs:323-346 | At the egress hook it is dropped exactly when its tuple is claimed and it leaves by neither lo nor the device |
| `OwnedLedgerRuns.OrphanSendAccounted` | package/cake-autorate-rs/src/src/owned_route_rules.rs:125-268 | A packet without a socket passes the output hook, is charged exactly when its tuple is claimed, and neither claims nor releases one |
| `OwnedLedgerRuns.BytesAreConserved` | package/cake-autorate-rs/src/src/owned_route_rules.rs:73-268 | Over every interleaving of hook events, bytes charged and refused at the output hook equal the bytes the owner sent plus those of orphaned packets of its tuples |
| `OwnedLedgerRuns.FaultFreeRun` | package/cake-autorate-rs/src/src/owned_route_rules.rs:73-349 | If the three fault counters end at zero, then at every hook event of the run nothing was dropped, every owner packet was charged once and in full and left only by the measured device or as local DNS, and no foreign packet changed a counter |
| `OwnedLedgerRuns.ClaimedMeansOwned` | package/cake-autorate-rs/src/src/owned_route_rules.rs:158-184 | The last known socket to use a claimed tuple was the owner |
| `OwnedLedgerRuns.RunFlowsBounded` | package/cake-autorate-rs/src/src/owned_route_rules.rs:18-18 | The flow set never exceeds 4096 entries |
| `OwnedLedgerRuns.SplitHooks` | package/cake-autorate-rs/src/src/owned_route_rules.rs:323-346 | When other packets run between a foreign packet's two hooks, it is dropped exactly if its tuple is claimed by then and it leaves by neither lo nor the device; an owner packet of the same tuple ran in between |
| `OwnedLedgerRuns.ForeignPacketCanBeDropped` | package/cake-autorate-rs/src/src/owned_route_rules.rs:323-346 | Three concrete events after which a foreign packet is dropped and counted as an egress fault |
| `OwnedAttestation.AccountingFault` | package/cake-autorate-rs/src/src/owned_route_rules.rs:33-47 | No fault is reported exactly when all three fault counters are zero |
| `OwnedAttestation.AttestTable` | package/cake-autorate-rs/src/src/owned_route_rules.rs:471-511 | A snapshot yields a handle exactly when it shows that one table, with the exact family, name, comment and a nonzero handle |
| `OwnedAttestation.ReadCounters` | package/cake-autorate-rs/src/src/owned_route_rules.rs:376-399 | The five slots are filled exactly when each counter is shown once, owned and readable, and nothing else is |
| `OwnedAttestation.AttestOwnedCounters` | package/cake-autorate-rs/src/src/owned_route_rules.rs:360-414 | Accepted only with the exact generation, complete counters and no fault; a complete snapshot with a fault gives that fault |
| `OwnedAttestation.AttestedRun` | package/cake-autorate-rs/src/src/owned_route_rules.rs:360-414 | An accepted snapshot of a run means the run had no fault and tx is exactly what the owner and its orphaned packets sent |
| `ProbeLease.MoveKeepsInv` | package/cake-autorate-rs/src/src/probe_owner.rs:199-341 | Every step of an owner, including crashes, keeps the lease invariant |
| `ProbeLease.OutsideKeepsInv` | package/cake-autorate-rs/src/src/probe_owner.rs:378-437 | So does everything tasks and strangers do |
| `ProbeLease.LeaseSafety` | package/cake-autorate-rs/src/src/probe_owner.rs:199-341 | From boot, over every interleaving: no two owners share a group, an owner's receipt names its generation, a live owner's handle was given to its slot's table under its own comment, and a generation's table and processes exist only while the slot's receipt names it |
| `ProbeLease.AdmissionIsOwned` | package/cake-autorate-rs/src/src/permanent_probe_owner.rs:64-75 | A producer is admitted only by the live, held owner of its generation without an unverified stop, on its own receipt and table |
| `ProbeLease.ProcessIsOwned` | package/cake-autorate-rs/src/src/permanent_probe_owner.rs:229-234 | A process of a generation is started only for an admitted producer, or forked by another one of it |
| `ProbeLease.ReceiptChanges` | package/cake-autorate-rs/src/src/probe_owner.rs:249-341 | A receipt changes only by the owner of its slot: published from empty while no process has the group, or emptied after its generation's processes and table are gone |
| `ProbeLease.FreshOwnerPublishes` | package/cake-autorate-rs/src/src/probe_owner.rs:199-301 | From any state with a free, empty and unused slot a fresh owner publishes itself there, and nothing else changes |
| `ProbeLease.FreshOwnerGoesLive` | package/cake-autorate-rs/src/src/permanent_probe_owner.rs:201-227 | It then installs and attests its table and is live without producers |
| `ProbeLease.ProducerRuns` | package/cake-autorate-rs/src/src/permanent_probe_owner.rs:64-75 | A producer admitted, started, exited and confirmed stopped leaves the state as it was |
| `ProbeLease.OwnerRetires` | package/cake-autorate-rs/src/src/permanent_probe_owner.rs:262-298 | An owner without producers or processes, on its own table, retires: table and receipt go, nothing else |
| `ProbeLease.OnlyCrashDropsProducers` | package/cake-autorate-rs/src/src/permanent_probe_owner.rs:262-298 | Only a crash takes a live owner away from its producers |
| `ProbeLease.CrashLosesOnlyTheOwner` | package/cake-autorate-rs/src/src/probe_owner.rs:303-341 | A crash can come anywhere and loses nothing but the owner |
| `ProbeLease.OnlyOwnedTablesDeleted` | package/cake-autorate-rs/src/src/owned_route_rules.rs:516-544 | An owner deletes at most the table of the slot it holds, and only under the comment of the generation its receipt records, a retiring owner only the one whose handle it attested |
| `ProbeLease.RetirementIsQuiet` | package/cake-autorate-rs/src/src/permanent_probe_owner.rs:262-298 | Retirement succeeds only with no outstanding or unconfirmed producer, no process of the generation and its table gone, and then empties the receipt |
| `ProbeLease.UnverifiedStopIsSticky` | package/cake-autorate-rs/src/src/permanent_probe_owner.rs:35-75 | After an unverified stop, over every run: no producer of that generation is ever admitted again, and while its owner lives it never retires and its receipt stays exact |
| `ProbeLease.RecoveryIsSettled` | package/cake-autorate-rs/src/src/probe_owner.rs:249-272 | A stale receipt is cleared only after the recorded generation's processes and table are gone |
| `ProbeLease.UnreadableReceiptStays` | package/cake-autorate-rs/src/src/probe_owner.rs:249-259 | No owner ever rewrites a receipt that is not exact for its slot |
| `ProbeLease.AbandonedSlotIsRecovered` | package/cake-autorate-rs/src/src/probe_owner.rs:249-301 | A slot with an exact receipt, no lock, no task and no table but the recorded generation's is settled and taken over by a fresh owner |
| `ProbeLease.LateInstallFence` | package/cake-autorate-rs/src/src/probe_owner.rs:249-301 | A table creation that completes after its owner is gone leaves every table fenced exactly if the name is taken or the receipt still names its generation |
| `ProbeLease.LateInstallInvariant` | package/cake-autorate-rs/src/src/probe_owner.rs:249-301 | It keeps the whole lease invariant exactly if besides no owner has just confirmed that the name is free |
| `ProbeLease.LateInstallCanEscape` | package/cake-autorate-rs/src/src/probe_owner.rs:249-301 | From any state with an abandoned slot there is a run after which the old generation's late table is not fenced |
| `ProbeReceipt.ReceiptIsExact` | package/cake-autorate-rs/src/src/probe_owner.rs:172-177 | Text is a receipt for a slot and generation exactly when it is the published text of both |
| `ProbeReceipt.TornReceiptIsUnknown` | package/cake-autorate-rs/src/src/probe_owner.rs:279-284 | No strict prefix of a receipt is a receipt for any slot |
| `ProbeReceipt.OneSlotPerReceipt` | package/cake-autorate-rs/src/src/probe_owner.rs:172-177 | No text is a receipt for two slots |
| `ProbeReceipt.ReceiptFits` | package/cake-autorate-rs/src/src/probe_owner.rs:249-252 | Every receipt passes the 128-byte limit |
| `ProbeReceipt.FromAccountText` | package/cake-autorate-rs/src/src/probe_owner.rs:609-655 | Accepts exactly the databases within their size limit whose every line parses and that reserve 64 distinct, unpopulated, unaliased groups in their named slots, and returns them |
| `DnsName.ReadName` | package/cake-autorate-rs/src/src/routed_dns.rs:42-78 | The bounded walk returns the recursive expansion in at most 128 steps and 255 bytes, and the cursor behind the first pointer or root |
| `DnsName.NoOffsetTwice` | package/cake-autorate-rs/src/src/routed_dns.rs:42-78 | A successful walk never visits an offset twice |
| `DnsName.ExpansionIsWireName` | package/cake-autorate-rs/src/src/routed_dns.rs:42-78 | Every name read is a sequence of lower-case labels of 1 to 63 bytes and one root |
| `DnsName.SpelledNameReads` | package/cake-autorate-rs/src/src/routed_dns.rs:46-76 | Labels and a root read back as themselves exactly when there are more steps than labels, with the cursor behind them |
| `DnsName.PrintedNameAt` | package/cake-autorate-rs/src/src/routed_dns.rs:42-78 | A printed name of at most 127 labels and 255 bytes is read whole |
| `DnsName.PartsAreWellFormed` | package/cake-autorate-rs/src/src/routed_dns.rs:48-75 | Every label read is lower case and 1 to 63 bytes long, and every pointer goes backwards to offset 12 or later |
| `RoutedDns.Query` | package/cake-autorate-rs/src/src/routed_dns.rs:9-33 | Prints exactly the valid hosts, as header, lower-case labels, root, type and class |
| `RoutedDns.HostFits` | package/cake-autorate-rs/src/src/routed_dns.rs:9-33 | A printable host is a name of its length and two, at most 255 bytes and 127 labels |
| `RoutedDns.QueryNameRoundTrip` | package/cake-autorate-rs/src/src/routed_dns.rs:9-78 | The name of every printed query reads back as itself and ends four bytes before the packet |
| `DnsAnswer.Resolve` | package/cake-autorate-rs/src/src/routed_dns.rs:139-168 | Succeeds exactly with the sorted distinct addresses at the end of a conflict-free acyclic alias chain of at most eight hops, between 1 and 32 of them |
| `DnsAnswer.ReadRecords` | package/cake-autorate-rs/src/src/routed_dns.rs:101-134 | The record loop returns the records one after the other, or nothing if one is malformed |
| `DnsAnswer.Answer` | package/cake-autorate-rs/src/src/routed_dns.rs:80-169 | Returns exactly the addresses that an acceptable response resolves the question to, and otherwise an error |
| `DnsResponse.RecordReads` | package/cake-autorate-rs/src/src/routed_dns.rs:101-134 | A printed record reads in the answer section as the address or alias it carries, as nothing of note for any other type or class, and not at all with a wrong length; outside the answer section as nothing of note |
| `DnsResponse.FlagsAccepted` | package/cake-autorate-rs/src/src/routed_dns.rs:81-88 | Accepted are exactly responses with a standard opcode, no truncation, a clear reserved bit and no error |
| `DnsResponse.PrintedResponseReads` | package/cake-autorate-rs/src/src/routed_dns.rs:80-137 | Any printed records behind a query's question read back exactly, in order, when the response is within the limits, with good flags and no broken answer, and otherwise not at all |
| `DnsResponse.PrintedAnswer` | package/cake-autorate-rs/src/src/routed_dns.rs:80-169 | Its answer is exactly what those records resolve the question to |
| `DnsResponse.AliasedHostAnswers` | package/cake-autorate-rs/src/src/routed_dns.rs:80-169 | A path of distinct aliases from the host to a name with addresses is answered with those addresses, up to eight aliases and not beyond |
| `DnsAnswer.ResponseRoundTrip` | package/cake-autorate-rs/src/src/routed_dns.rs:80-169 | A response with pointer-compressed A records gives back its addresses for hosts of at most 126 labels and nothing for 127 |
| `QdiscCapability.Machine.Recover` | package/cake-autorate-rs/src/src/qdisc_capabilities.rs:249-296 | From any state and stopping anywhere, the machine stays valid, so all links are what the logged history gives; success means no receipt and no probe link; undisturbed it succeeds exactly when the receipt is settled, of another boot, or names a place in this namespace not taken by another link, and removes no other link |
| `QdiscCapability.Machine.Delete` | package/cake-autorate-rs/src/src/qdisc_capabilities.rs:500-512 | Check, command and look-back as three steps with strangers in between; every deletion logged is of the place whose link was checked to have the alias, index and namespace of the receipt; undisturbed it succeeds exactly for that link and removes nothing else |
| `QdiscCapability.Machine.DeleteByName` | package/cake-autorate-rs/src/src/qdisc_capabilities.rs:504-509 | The command and the look-back: success means no probe link is left; undisturbed it removes exactly the checked link |
| `QdiscCapability.RemovalOwnedIff` | package/cake-autorate-rs/src/src/qdisc_capabilities.rs:500-512 | The deleted link is the recorded one exactly when no stranger removed the link between check and command |
| `QdiscCapability.ReplacedLinkIsDeleted` | package/cake-autorate-rs/src/src/qdisc_capabilities.rs:500-512 | A concrete replacement between check and command that makes the deletion take a stranger's link |
| `QdiscCapability.VanishedIsAccounted` | package/cake-autorate-rs/src/src/qdisc_capabilities.rs:249-335 | Every link that vanished or changed at any point of a valid machine's history was removed by a stranger, by a reboot, or by a deletion one tick after a check that saw the receipt's link in the links of that moment |
| `QdiscCapability.Machine.Measure` | package/cake-autorate-rs/src/src/qdisc_capabilities.rs:310-323 | Keeps the announced link named by the receipt through creation, identification and the trial |
| `QdiscCapability.Machine.Probe` | package/cake-autorate-rs/src/src/qdisc_capabilities.rs:298-335 | Whatever fails and wherever it stops, receipt and result never coexist and the only probe link is the one the receipt names; success means both link and receipt are gone and the result is stored, for this boot and namespace; a crash is its last step; undisturbed it succeeds exactly when the old receipt can be settled and the new name is then free, and leaves all other links |
| `QdiscCapability.Machine.ProbeLinkIsUnique` | package/cake-autorate-rs/src/src/qdisc_capabilities.rs:298-335 | In every valid state there is at most one probe link, the receipt names it, and no result is stored beside it |
| `QdiscCapability.Machine.Cached` | package/cake-autorate-rs/src/src/qdisc_capabilities.rs:549-564 | True exactly with no pending cleanup and a positive, not future result for the current fingerprint, so only for a result of this boot and namespace (389-390) |
| `QdiscCapability.Machine.RebootRevokes` | package/cake-autorate-rs/src/src/qdisc_capabilities.rs:385-390 | After a reboot to a new boot no stored result authorizes, whatever recoveries, reboots and namespace changes follow, until the next probe |
| `QdiscCapability.Machine.Live` | package/cake-autorate-rs/src/src/qdisc_capabilities.rs:249-335 | Any history of probes, recoveries, reboots and namespace changes only extends the log of link events, the links are always what that log gives, and only a probe changes the stored result |
| `CandidateHeader.HeaderRoundTrip` | package/cake-autorate-rs/src/src/config_transfer.rs:74-120 | 192 bytes read as a record exactly when they are what that record writes |
| `CandidateTransfer.StoredBytes` | package/cake-autorate-rs/src/src/config_transfer.rs:74-120 | A stored file reads back as its record, and appending to the body appends to its bytes |
| `CandidateTransfer.Store.Scan` | package/cake-autorate-rs/src/src/config_transfer.rs:183-240 | Readable exactly when every torn header is recognized and old enough; removes only expired records and such headers, and a readable scan exactly those |
| `CandidateTransfer.Store.Begin` | package/cake-autorate-rs/src/src/config_transfer.rs:241-279 | Succeeds exactly for a valid request with a readable scan and either a matching record or fewer than four records, no record of the request and a complete header write; a repeated request gets its token back, a new one an empty file; only retired files disappear, no other file changes, and the token is bound to this request's record or to nothing |
| `CandidateTransfer.AnswerableMeans` | package/cake-autorate-rs/src/src/config_transfer.rs:241-279 | The condition of a begin in full: a live record of this request, length and digest, or none of this request, fewer than four, and a whole header |
| `CandidateTransfer.Lifetimes` | package/cake-autorate-rs/src/src/config_transfer.rs:118-120 | A record lives for 120 seconds from its creation and a torn header for 120 seconds from its stamp |
| `CandidateTransfer.Store.Load` | package/cake-autorate-rs/src/src/config_transfer.rs:280-295 | Succeeds exactly for a complete, live record of the caller's request |
| `CandidateTransfer.Store.Append` | package/cake-autorate-rs/src/src/config_transfer.rs:296-334 | Accepts exactly a chunk that reaches the stored bytes, repeats the overlap and fits; the files afterwards are the old ones with this body extended, also by a torn write, or without the caller's expired file |
| `CandidateTransfer.MergedPrefix` | package/cake-autorate-rs/src/src/config_transfer.rs:316-331 | Slices of one upload keep the file a prefix of it and never conflict |
| `CandidateTransfer.Store.Resend` | package/cake-autorate-rs/src/src/config_transfer.rs:296-334 | Replaying an upload from offset zero, each chunk at its own time before expiry, completes it however much was stored and changes no other file |
| `CandidateTransfer.Store.Finish` | package/cake-autorate-rs/src/src/config_transfer.rs:335-362 | Validates exactly a complete live file of the bound length and digest, and answers exactly if its file is then gone; a file that cannot be removed stays as it is; removes at most this token's file |
| `CandidateTransfer.Store.FinishTwice` | package/cake-autorate-rs/src/src/config_transfer.rs:347-348 | Any file that can be validated is validated twice by a finish that cannot remove it and a finish that can |
| `CandidateTransfer.ValidatedTwice` | package/cake-autorate-rs/src/src/config_transfer.rs:347-348 | A store made from nothing, by begin, append and two finishes, whose one token was validated twice |
| `CandidateTransfer.Store.Cancel` | package/cake-autorate-rs/src/src/config_transfer.rs:363-373 | Succeeds exactly when the file is gone or is the caller's live one, and then removes exactly this file |
| `CandidateTransfer.Store.Serve` | package/cake-autorate-rs/src/src/config_transfer.rs:183-373 | Any sequence of calls keeps at most four files of distinct requests; every new token is bound to the record of its begin and none is bound anew; stored bytes only grow under that record or go, and no file comes back; validations are never taken back, are of the bound length and digest, and repeat a token only after validations that were all stuck and for the same bytes, so a token is answered at most once; if all chunks for a token are slices of one upload, its file is always a prefix of it; an upload that no call names is unchanged while it is live at every begin |
| `AdaptiveCeiling.TargetBounds` | package/cake-autorate-rs/src/src/adaptive_ceiling.rs:453-479 | For any cap, a probe target is above safe, at most the rounded cap, and at most half way to the failed bound up to rounding |
| `AdaptiveCeiling.TargetAim` | package/cake-autorate-rs/src/src/adaptive_ceiling.rs:453-479 | It is the nearest whole rate to one step up, to half way to the failed bound, or to the cap, whichever comes first |
| `AdaptiveCeiling.InitialIsVerified` | package/cake-autorate-rs/src/src/adaptive_ceiling.rs:116-143 | The first ceiling is the verified rate when that is at least 1 and at most the configured maximum, and never above either or the cap |
| `AdaptiveCeiling.GainSuffices` | package/cake-autorate-rs/src/src/adaptive_ceiling.rs:252-268 | A gain suffices exactly if it reaches the percentage and 50 kbit/s, or half of the probed step and 1 kbit/s |
| `AdaptiveCeiling.ChangeTracks` | package/cake-autorate-rs/src/src/adaptive_ceiling.rs:525-533 | A reported change is the whole change of the ceiling, and what is not reported is within an epsilon |
| `AdaptiveCeiling.ObservedInv` | package/cake-autorate-rs/src/src/adaptive_ceiling.rs:145-294 | Every observation keeps initial-safe <= safe <= effective, within the cap or its rounding, a target exactly while probing and equal to effective, and the failed bound above both |
| `AdaptiveCeiling.ResolvedProbeShrinksGap` | package/cake-autorate-rs/src/src/adaptive_ceiling.rs:373-412 | A probe resolved against a live failed bound takes 0.5 kbit/s off the gap when promoted and leaves at most half of it and 0.5, also at least 0.5 less, when it fails |
| `AdaptiveCeiling.NarrowGapStopsProbing` | package/cake-autorate-rs/src/src/adaptive_ceiling.rs:453-479 | Probing goes on exactly while the gap exceeds the larger of 1000 kbit/s and 0.5% of safe |
| `AdaptiveCeiling.Direction.constructor` | package/cake-autorate-rs/src/src/adaptive_ceiling.rs:116-143 | The initial state satisfies the invariant |
| `AdaptiveCeiling.Direction.Observe` | package/cake-autorate-rs/src/src/adaptive_ceiling.rs:145-294 | The object follows the specified step, whose meaning the run lemmas state, keeps the invariant and reports the ceiling's change |
| `AdaptiveCeiling.Direction.HandleBufferbloat` | package/cake-autorate-rs/src/src/adaptive_ceiling.rs:373-412 | The same for confirmed bufferbloat |
| `AdaptiveCeiling.Direction.AbortProbe` | package/cake-autorate-rs/src/src/adaptive_ceiling.rs:414-425 | The same for an aborted probe |
| `AdaptiveCeiling.Direction.Pause` | package/cake-autorate-rs/src/src/adaptive_ceiling.rs:296-307 | The same for a pause |
| `AdaptiveCeiling.Direction.AbortProbeGap` | package/cake-autorate-rs/src/src/adaptive_ceiling.rs:309-318 | The same for a response gap |
| `AdaptiveCeiling.Direction.ResetToConfigured` | package/cake-autorate-rs/src/src/adaptive_ceiling.rs:320-335 | The same for a reset |
| `AdaptiveCeilingRuns.RunInv` | package/cake-autorate-rs/src/src/adaptive_ceiling.rs:145-335 | Every reachable state satisfies the invariant |
| `AdaptiveCeilingRuns.BloatIsRecorded` | package/cake-autorate-rs/src/src/adaptive_ceiling.rs:373-412 | Bufferbloat ends every probe; while probing it records a bound of at most the probed ceiling, now; otherwise it lowers a raised safe ceiling that the shaper was below, and in the cooldown it changes nothing |
| `AdaptiveCeilingRuns.FailedCeilingIsAvoided` | package/cake-autorate-rs/src/src/adaptive_ceiling.rs:373-479 | After bufferbloat while probing a ceiling, over every run without a reset and within the lifetime of the bound, every later ceiling is below it |
| `AdaptiveCeilingRuns.CleanLoadRaises` | package/cake-autorate-rs/src/src/adaptive_ceiling.rs:145-294 | Clean load at the ceiling, held for the hold time, at the target, and held for the probe duration with the required gain makes the target the safe ceiling |
| `AdaptiveCeilingRuns.CooldownRests` | package/cake-autorate-rs/src/src/adaptive_ceiling.rs:282-291 | In the cooldown nothing is probed or raised, and it ends exactly at a clean observation after its time |
| `AdaptiveCeilingRuns.StalledProbeIsAborted` | package/cake-autorate-rs/src/src/adaptive_ceiling.rs:219-247 | A probe without load beyond the grace, or ramping too long, is given up without a verdict, and a ramp is not given up before |
| `AdaptiveCeilingRuns.ResetForgets` | package/cake-autorate-rs/src/src/adaptive_ceiling.rs:296-335 | A reset forgets every raise and failed bound; a pause or a gap forgets neither |
| `AdaptiveCeilingRuns.CeilingWithinCapIff` | package/cake-autorate-rs/src/src/adaptive_ceiling.rs:453-479 | From any initial state the ceiling stays within the cap over every run exactly if the cap does not round up, or the initial safe rate is at the cap or within an epsilon of its rounding |
| `AdaptiveCeilingRuns.FractionalCapIsExceeded` | package/cake-autorate-rs/src/src/adaptive_ceiling.rs:472-477 | With a cap of 10000.6 and a verified 10000 kbit/s the first probe aims at 10001, and a run exceeds the cap |
| `AdaptiveCeilingRuns.RiseHasEvidence` | package/cake-autorate-rs/src/src/adaptive_ceiling.rs:145-294 | Behind every rise: only observations without bufferbloat since qualification, the shaper at 98% of the new ceiling, the hold time and probe duration kept, and the best throughput since the probe opened above the baseline by the required gain |
| `AdaptiveCeilingRuns.RisesAreApart` | package/cake-autorate-rs/src/src/adaptive_ceiling.rs:145-294 | With one policy and ordered time, two rises are at least hold time plus probe duration apart |
| `AdaptiveCeilingRuns.ProbesAreFinite` | package/cake-autorate-rs/src/src/adaptive_ceiling.rs:373-479 | While a failed bound is live and safe is not lowered, any run resolves fewer than 2 * (gap - 1000) + 1 probes, and the gap shrinks by 0.5 kbit/s for each |
| `BoundedLog.EffectiveLimit` | package/cake-autorate-rs/src/src/logging.rs:70-76 | Between 1 and the hard limit, and within a configured limit |
| `BoundedLog.BoundedRecord` | package/cake-autorate-rs/src/src/logging.rs:78-89 | The loop returns the specified record |
| `BoundedLog.BoundedIsLongest` | package/cake-autorate-rs/src/src/logging.rs:78-89 | A record and its line feed fit the limit; it is the line, or its longest whole-character prefix that leaves room for the marker |
| `BoundedLog.BoundaryMeans` | package/cake-autorate-rs/src/src/logging.rs:84-87 | A record is cut before a byte exactly if that is not a UTF-8 continuation byte |
| `BoundedLog.MarkerFits` | package/cake-autorate-rs/src/src/logging.rs:83-84 | The marker is left out exactly when there is no room for it |
| `BoundedLog.LogFile.Compact` | package/cake-autorate-rs/src/src/logging.rs:132-175 | Each oversized file becomes its compaction, the active one with its buffer, and the other stays untouched; both are within the limit afterwards |
| `BoundedLog.KeptTailIsWhole` | package/cake-autorate-rs/src/src/logging.rs:145-156 | A compacted file is the marker and the end of the file from behind the first line feed in the room left, so no record is cut, or the marker alone if there is none |
| `BoundedLog.LogFile.Rotate` | package/cake-autorate-rs/src/src/logging.rs:347-380 | The active file and its buffer become the previous file |
| `BoundedLog.LogFile.WriteLine` | package/cake-autorate-rs/src/src/logging.rs:284-338 | Under any limit both files end within it, the active file and its buffer end with the bounded record and its line feed, also after a compaction, and the record is the latest |
| `BoundedLog.WriteAll` | package/cake-autorate-rs/src/src/logging.rs:284-380 | From an empty start and under one limit, previous, active and buffer are a contiguous run of the bounded records ending with the last one, each file within the limit |
| `TrafficWindow.PeakCoversAverage` | package/cake-autorate-rs/src/src/history_traffic.rs:29-71 | The highest rate between neighbours is at least the time-weighted average |
| `TrafficWindow.PeakIsHighest` | package/cake-autorate-rs/src/src/history_traffic.rs:29-51 | The peak is the rate between some two neighbours, and none is higher |
| `TrafficWindow.SummaryMeans` | package/cake-autorate-rs/src/src/history_traffic.rs:53-71 | Averages are the received and sent bits over the whole time of the window, in kilobits |
| `TrafficWindow.Window.Observe` | package/cake-autorate-rs/src/src/history_traffic.rs:29-51 | Ignores stale times, starts over when a counter falls, and otherwise extends the window |
| `TrafficWindow.Window.Finish` | package/cake-autorate-rs/src/src/history_traffic.rs:53-71 | Summarizes exactly the observations since the last finish or reset, peak at least average both ways, and the bytes of the windows add up to the counter difference since the last reset |

## Left out

- JSON rendering and parsing, warning texts and enum strings: formatting only; snapshots and receipts are modelled behind their parsers.
- Report-only search fields: knee confidence, plateau numbers, noise and no-effect flags, repeat counts and the direction label.
- The helpers that produce an observation's delay from samples: observations are inputs.
- The debug assertion at `package/cake-autorate-rs/src/src/autotune.rs:3572`: its two filters differ in the 200 ms check on the corroborating peer.
- The two-direction combination of corrections and the proposal setters `constrain_direction` and `revise_direction_base`: field-wise minima and maxima.
- Floating-point rounding: `f64` is modelled by real numbers.
- Counter overflow at 64 bits, and the older `:flow-v1` table format.
- ProbeLease.RetirementIsQuiet: sockets that a worker thread keeps after restoring its group are not in the process inventory; only producer tokens and child processes are covered.
- ProbeLease.LateInstallFence: a late table creation is a step considered at any reachable state, not an action of the runs, because the invariant then holds only under the stated condition.
- ProbeLease.MoveKeepsInv: leases, producers and receipts are values of a state machine, not objects, because the theorems are about interleavings; sharing of the authority between producer tokens appears as a set of tokens.
- The order in which an owner tries the slots, and `run_owned_command`: the state machine lets an owner try any free slot.
- File ownership, mode, inode and symlink checks, directory preparation, procfs and namespace attestation, advisory-lock system calls and command spawning: assumed correct.
- The order of checks inside one step of the name reader: a part's bounds are checked before the length of the name, in the other order than the source; both orders reject the same packets.
- TCP framing and socket handling around the DNS codec.
- The record format, temporary files and ownership checks of the capability store; `Files::write` and `Files::remove` are atomic durable steps.
- SHA-256, random numbers and hex decoding: an uninterpreted digest, fresh values and decoded chunks.
- CandidateTransfer.Store.Finish: what the candidate validator computes and the receipt it returns are not modelled, only that it runs and on which bytes.
- The directory scan limit of 64 entries and `cancel_request`.
- Transition reasons of the adaptive ceiling and the accessor methods.
- BoundedLog.LogFile.WriteLine: I/O faults, a missing active file after a failed rotation, and legacy archive cleanup.
- `config_candidate.rs`, `config_validation.rs`, `sqm_config.rs`, `config_fields.rs`, `rate_limits.rs`, `reflector_defaults.rs`: flat range checks and tables.
- `pinger_backend.rs`, `pinger_binding.rs`, `pinger_recovery.rs`, `latency_baseline.rs`, `json_wire.rs` and the main controller.
