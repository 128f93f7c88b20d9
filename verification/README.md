# Speculation Fabric: a verified model

Speculation Fabric drives speculative decoding: a proposer drafts tokens, a verifier compares them with what the target
model would have produced, and only accepted tokens become authoritative. This project models its four layers in Dafny
and proves what each layer is for: which tokens become authoritative in every interleaving of the engine's blocks, exactly
when they are only verified ones, and that bytes and archives mean exactly one thing. `dafny verify dfyconfig.toml`
checks the whole project.

| layer | modules |
|---|---|
| synthetic model, CPU executors, device kernels | `Synthetic`, `Production`, `KnownAnswers`, `Executors`, `Kernels` |
| the engine | `Policy`, `Selection`, `Lifecycle`, `Engine`, `Fabric`, `Branches`, `Ledger`, `EngineRuns`, `EngineGuarantees`, `AuthorityGate`, `Serializability`, `CpuCycles`, `CpuRuns`, `LiteralRuns`, `Losers`, `Backlog`, `Replies` |
| the distributed cycle | `Endian`, `Wire`, `Socket`, `Worker`, `Coordinator`, `CoordinatorRuns`, `DistributedCycle`, `Verdicts` |
| persistence | `LinearRegister`, `Crc`, `CrcRemainder`, `CrcNumbers`, `Archive`, `ArchiveGuarantees` |
| both binary formats | `Layouts`, `FormatErrors` |

How the layers are modelled:

- Code that changes things step by step is a class or a method with loops, each proved equal to a function of its inputs or
  of the old state; the properties are lemmas about those functions. `Fabric.SpeculationFabric` is the engine,
  `Coordinator.Process` the coordinator, `Archive.Writer` and `Archive.Reader` the archive cursors, `Socket.Pipe` a byte
  stream that splits sends and receives as it likes.
- The engine's locked blocks are atomic steps (`Engine`). `EngineRuns` lets any actions happen between two blocks of a
  cycle: other cycles, submissions, cancellations, completions, retries and rollbacks. Executors answer anything their
  contract allows: a candidate of the planned depth and an accepted count no larger than it.
- A kernel is one block of 16 threads. A schedule steps any thread that has not arrived at the barrier; the inner fold is
  stepped word by word. Nothing is assumed about the schedule or the initial memory.
- The word arithmetic of the synthetic model is a parameter; `Production` spells out the shipped one. No law of the
  executors depends on its bits; `KnownAnswers` pins them.
- Generations, epochs and attempts are naturals. Ratios and depths of the adaptive policy are exact reals, rounded half
  away from zero, with the two integer casts after the rounding written out.

Where the code and its documentation disagree, the model follows the code:

- "A rejected suffix is never authoritative" (docs/architecture.md:38) fails: `accepted_prefix` counts every match, also
  after the first mismatch, while its contract calls it a leading prefix, and the engine commits that many tokens. The
  commit block appends only verified tokens exactly when the winner's `accepted_prefix` equals its
  `first_rejection_index` (`CpuCycles.AppendsOnlyVerifiedIff`). For the shipped proposer that holds for every model and
  base exactly when the depth exceeds the alignment by at most one or the branch's shift is invisible
  (`Executors.CounterIsAlwaysPrefixIff`). For some candidate it fails at every base and every length above one
  (`CpuCycles.RejectedTokenIsCommitted`). `CpuCycles.Shipped` is the literal counter, `CpuCycles.Promised` the contract's
  acceptance, and theorems about runs name which one they need.
- "A duplicate or stale verification commits nothing" and "A completion from an earlier attempt never mutates the current
  attempt" (docs/architecture.md:39-41) fail: the engine declares an authority check and never calls it.
  `AuthorityGate.GateMattersExactly` says when that matters for one commit, `LiteralRuns.GateNeverMattersIff` for a whole
  run, and `AuthorityGate.OlderAttemptCommits` is a run on which it does. Theorems with a `gate` parameter hold both ways;
  those that need the check name `Guarded`, and `LiteralRuns` carries them over to the engine as it is wherever the check
  would never have refused a live request.
- "A verification result never applies to the wrong proposal generation" (docs/architecture.md:40) fails in the
  coordinator. A verification result carries no proposal generation, and every submission restarts the others, so the
  answer about any branch of any submission of any request becomes the vote for whichever branch is being asked, exactly
  when the epoch was not rolled in between (`Verdicts.VerdictIsCountedIff`, over runs
  `Verdicts.VerdictLastsUntilTheEpochRolls`). A driver is safe from that, whatever the replies, exactly when it asks one
  branch at a time and rolls the epoch before it asks again (`Verdicts.NoneGoesAstrayIff`); otherwise there are replies
  with which the verdict is recorded for other tokens (`Verdicts.UnsafeDriver`). A proposal result is taken only for its own
  branch, by a cycle of the same epoch and proposer (`Verdicts.ProposalIsTakenIff`).
- "Losing branches cannot later commit" and "The committed branch becomes uniquely authoritative"
  (docs/architecture.md:42-43) fail: a branch retired by one cycle can win the next, which commits its tokens and leaves no
  branch active (`Losers.LoserCommits`). Over every run, losing branches stay out exactly when the engine runs one branch or
  never plans a cycle (`Losers.LosersStayOutIff`). They also stay out with `Promised`, or `Shipped` at a depth of at most
  aligned + 1, because branch 1 then wins every cycle (`CpuRuns.BranchOneAlwaysWins`). `Ledger.CommittedBranches` says exactly
  when the winner stays active.
- "Authoritative token count never decreases" and "Proposal and verification generations are monotonic"
  (docs/architecture.md:35 and 44) hold in the coordinator within a submission (`CoordinatorRuns.DriveKeepsAuthority`,
  `Coordinator.Poll`) and not across them: submitting again clears the tokens and restarts every generation
  (`CoordinatorRuns.ResubmissionRestarts`), so late results of the first submission pass against the second
  (`CoordinatorRuns.LateResultPassesAfterResubmission`).
- `run_cycle` never applies the events that start proposal and verification, so none of its later events apply and the
  reported phase is always `Ready` (`Ledger.ReportedPhaseIsReady`).
- A null request id defeats the duplicate check (`EngineGuarantees.DuplicatesAreCaughtIffNotNull`); runs submit non-null ids.
- New losing branches are counted twice (`Branches.CommitRetiresLosers`).
- Archives with trailing bytes are accepted although the format document says they are rejected
  (`ArchiveGuarantees.AcceptsExactly`, `ArchiveGuarantees.TrailingBytesAreAccepted`), and so are archives whose checksum was
  cut off, exactly when what is left ends with a checksum of its own (`ArchiveGuarantees.CutIntoChecksumIff`). Every archive
  that ends in a token has a sibling, different in that token alone, of which this is so
  (`ArchiveGuarantees.TokenIsReadAsChecksum`).
- Phases called terminal still take `EnterTerminal` (`Lifecycle.AbsorbingIffTerminal`). A cycle whose verification
  is reserved cannot be cancelled, superseded or expired, unlike one in any other phase before the verdict
  (`Lifecycle.TargetExactly`).
- The encoder does not bound the message type from above (`Wire.EncodedTypeSurvivesIffDeclared`).

## Model

| member | source | states |
|---|---|---|
| Synthetic.MakeModel | src/core/cpu_proposer.cpp:16-26 | the loop yields the target model whose weight (i, j) is draw 17i+j and whose bias i is draw 17i+16 |
| Synthetic.ModelSpellsDraws | src/core/cpu_proposer.cpp:16-26 | each row of the model and then its bias spell the next 17 draws from the shared seed |
| Synthetic.BuildTarget | src/cuda/cuda_executor.cu:36-44 | the device's flat arrays hold the same model the CPU builds |
| Synthetic.SeedState | include/speculation_fabric/core/cpu_proposer.hpp:49-54 | the state becomes the first 16 draws from the seed |
| Synthetic.SeedingIsAWindow | include/speculation_fabric/core/cpu_proposer.hpp:49-54 | the state starts with the seed's own draw, and seeding from the generator one draw on gives the same state one word on |
| Synthetic.Step | include/speculation_fabric/core/cpu_proposer.hpp:57-67 | the in-place step gives every row's fold over the old state, not over words already replaced |
| Synthetic.RowLocality | include/speculation_fabric/core/cpu_proposer.hpp:57-67 | word t of the next state depends on nothing of the model but row t and bias t, whatever the word arithmetic |
| Synthetic.StepIsMatrixProduct | include/speculation_fabric/core/cpu_proposer.hpp:57-67 | with sums for exclusive ors and factor one, word t of the next state is bias t plus the product of row t with the state, modulo 2^32 |
| Synthetic.StepIsPolynomial | include/speculation_fabric/core/cpu_proposer.hpp:60-64 | with sums for exclusive ors and any two factors: word t is bias and scaled token times the 16th power of the second factor, plus the row against the state with column j times its (15-j)-th power |
| Synthetic.TokenReads | include/speculation_fabric/core/cpu_proposer.hpp:70-75 | the token takes state words 0, 7 and 13, the index and the previous token, each in its own place, and no other state word |
| KnownAnswers.ShippedArithmetic | include/speculation_fabric/core/cpu_proposer.hpp:36-75 | each function of the shipped arithmetic gives its known answer, every argument in its own place |
| KnownAnswers.BaseAnswer | src/core/cpu_proposer.cpp:77-82 | proposer and verifier seed the path of one base alike, with the known answer for five different numbers |
| Executors.DraftTokens | src/core/cpu_proposer.cpp:92-106 | the loop yields the draft recurrence that feeds back its own, possibly shifted, token |
| Executors.DraftIffTrace | src/core/cpu_proposer.cpp:92-106 | a sequence is the draft iff it is the tokens of a run of the recurrence that feeds back the expected token before the alignment and the one shifted by 1 + branch from there on |
| Executors.TargetIffTrace | src/core/cpu_verifier.cpp:83-103 | a sequence is the target path iff it is the tokens of a run that feeds back every expected token |
| Executors.Propose | src/core/cpu_proposer.cpp:53-122 | failure outcomes for depth 0, over 256 and over budget, else the draft for the base and a state one generation on |
| Executors.ProposalByDepth | src/core/cpu_proposer.cpp:55-72 | the outcome by depth and budget alone, as numbers; a success has that many tokens and the base's direct successor |
| Executors.ScanCandidate | src/core/cpu_verifier.cpp:83-103 | flags against the target path that feeds back the expected token, the count of all matches, and the first mismatch |
| Executors.Verify | src/core/cpu_verifier.cpp:45-124 | the three failures, else the scan's counts, their classification and the advanced generations |
| Executors.OutcomeByPositions | src/core/cpu_verifier.cpp:105-111 | for every input, off the positions alone: a full accept iff every token is the expected one, a reject iff none is, a partial accept iff some and not all; a failure iff the identity is refused |
| Executors.AuthorityMovesByMatches | src/core/cpu_verifier.cpp:113-118 | generation and state advance by the number of matching positions, and the first rejection is the least other one |
| Executors.ProposalIsRejectedAtItsBoundary | src/core/cpu_verifier.cpp:90-111 | verifying a proposal on its own base accepts everything before min(aligned, depth), rejects first there unless the branch's shift is a multiple of the vocabulary, and is a full accept iff aligned >= depth or the shift is invisible |
| Executors.AlignedFlags | src/core/cpu_proposer.cpp:97-106 | the first mismatch of draft against target path, for every seed, alignment, branch and length |
| Executors.BranchesPartAtTheBoundary | src/core/cpu_proposer.cpp:99-102 | two branches agree before the boundary and at it iff they are congruent modulo 4096 |
| Executors.DraftsEqualIff | src/core/cpu_proposer.cpp:97-106 | whole drafts of two branches are equal iff they end before the boundary or the branches are congruent |
| Executors.CounterAgainstPrefix | src/core/cpu_verifier.cpp:94-98 | the literal counter is at least the leading prefix, equal to it iff nothing matches after the first mismatch, and full iff the prefix is |
| Executors.CounterIsAlwaysPrefixIff | src/core/cpu_proposer.cpp:99-102 | for the shipped proposer the counter is a leading prefix for every model and base iff the depth exceeds the alignment by at most one or the branch's shift is a multiple of the vocabulary |
| Executors.CounterCoversRejectedToken | src/core/cpu_verifier.cpp:94-111 | at every base and length above one some candidate is rejected at its first token while the counter reads all but one |
| Kernels.EveryScheduleDrafts | src/cuda/cuda_executor.cu:58-92 | from any memory, every schedule of the 16 threads can go on until step 34+323*depth and then has left the CPU's draft |
| Kernels.EveryScheduleChecks | src/cuda/cuda_executor.cu:95-135 | every schedule of the verifier kernel ends with the CPU's flags, counter and first rejection, for every candidate and length |
| Kernels.RunKeeps | src/cuda/cuda_executor.cu:72-91 | the per-phase relation between parallel memory and sequential recurrence survives every schedule |
| Kernels.StepCountsDown | src/cuda/cuda_executor.cu:70-90 | every step of any thread and every barrier release brings the launch exactly one step closer to its end |
| Kernels.NeverStuck | src/cuda/cuda_executor.cu:70-90 | no barrier deadlocks: some step is possible exactly until the launch is finished |
| Kernels.RaceFree | src/cuda/cuda_executor.cu:72-91 | between two barriers no thread reads or writes a word another thread writes |
| Kernels.WritesOnly | src/cuda/cuda_executor.cu:72-91 | a step changes nothing outside its write footprint |
| Kernels.ReadsOnly | src/cuda/cuda_executor.cu:72-91 | a step's effect depends on nothing outside its read footprint |
| Kernels.StepsCommute | src/cuda/cuda_executor.cu:72-91 | neighbouring steps of different threads can be swapped |
| Kernels.DeviceProposesAsCpu | src/cuda/cuda_executor.cu:162-248 | the device proposer reports the CPU's result for its own fixed branch and no budget |
| Kernels.DeviceVerifiesAsCpu | src/cuda/cuda_executor.cu:259-365 | the device verifier reports the CPU's result for an accepted candidate identity |
| Kernels.DeviceOutcomeByPositions | src/cuda/cuda_executor.cu:344-360 | the device's outcome, after any schedule, read off the positions in the same way |
| Kernels.DeviceVerifierAgreesIff | src/cuda/cuda_executor.cu:259-267 | on the same input device and CPU verifier agree iff the candidate is empty or its tokenizer and vocabulary are accepted |
| Kernels.DeviceProposerAgreesIff | src/cuda/cuda_executor.cu:162-174 | on the same input device and CPU proposer agree iff the depth is refused by both, or within budget with congruent branches or no token past the boundary |
| Policy.AdaptiveDepth.Record | include/speculation_fabric/core/policy.hpp:51-54 | pushes the ratio and drops one from the front when the window is exceeded |
| Policy.AdaptiveDepth.AverageRatio | src/core/policy.cpp:48-53 | the loop computes the mean, zero for no history |
| Policy.AdaptiveDepth.ChooseDepth | src/core/policy.cpp:12-46 | the staged scaling yields the clamped rounded product, the maximum itself when disabled or without history, within [1, max_depth] unless that is 0 |
| Policy.DepthAtKnots | src/core/policy.cpp:22-28 | averages of 0, 0.5 and 0.8 or more get the rounded 30, 60 and 100 percent of the maximum, and at least one |
| Policy.EarnedIsPiecewiseLinear | src/core/policy.cpp:22-30 | the scaled depth is a straight line up to 0.5, from there to 0.8, and the maximum beyond |
| Policy.EarnedIsLipschitz | src/core/policy.cpp:22-30 | it moves by at most 4/3 of the maximum per unit of the average, and never against it |
| Policy.HeadroomScalesInProportion | src/core/policy.cpp:31-38 | a headroom of 128 a slot or more takes nothing away, a smaller one scales in proportion |
| Policy.SaturationHalves | src/core/policy.cpp:40-41 | a saturation takes half its share away: nothing at 0 or below, half at 1 or above |
| Policy.AverageOfParts | src/core/policy.cpp:48-53 | the average of two histories weighs each by its length, and of one ratio is that ratio |
| Policy.HistoryIsTheWindow | include/speculation_fabric/core/policy.hpp:51-56 | with a fixed window the history is exactly the last `window` ratios recorded |
| Policy.DepthForgets | src/core/policy.cpp:12-46 | equal last ratios give equal depths whatever came before |
| Policy.AverageBounds | src/core/policy.cpp:48-53 | averages stay within any bounds around zero that hold for the ratios |
| Policy.DepthIsMonotone | src/core/policy.cpp:19-45 | the depth is in [1, max_depth], never falls as average or headroom rises, never rises with saturation, for every average whose scaled depth survives the cast to 32 bits |
| Policy.WrappedAverageGetsMaximum | src/core/policy.cpp:43-45 | below that the cast wraps: a far lower average gets the maximal depth, more than the average zero gets |
| Policy.HistoriesOrderDepths | src/core/policy.cpp:12-53 | pointwise better histories never get a smaller depth |
| Selection.SelectWinner | src/core/fabric.cpp:602-610 | the scan returns the recursive winner |
| Selection.WinnerIsUnbeaten | src/core/fabric.cpp:602-610 | no ballot has more accepted tokens, or as many and a lower branch id |
| Selection.FirstOfTheBest | src/core/fabric.cpp:602-610 | with ascending branch ids the winner is the first of the best |
| Selection.OrderDoesNotMatter | tools/sf_coordinator.cpp:149-154 | any two orders of the same distinct branches elect the same one |
| Lifecycle.TransitionTarget | src/core/lifecycle.cpp:154-162 | the first-match loop over the table |
| Lifecycle.TargetIffRow | src/core/lifecycle.cpp:35-119 | the search finds a target iff that very row is in the table: no row hides another |
| Lifecycle.TargetExactly | src/core/lifecycle.cpp:35-119 | the whole table both ways, event by event: the phases in which it is accepted and its one destination |
| Lifecycle.SpeculativeStateMachine.Apply | include/speculation_fabric/core/lifecycle.hpp:108-130 | moves along a declared transition when the guard holds, else reports which of the two failed and stays |
| Lifecycle.EveryRun | src/core/lifecycle.cpp:35-119 | at most 13(r+1) transitions with r retries, at most one commit, and Committed only after the canonical twelve events since Ready |
| Lifecycle.AbsorbingIffTerminal | src/core/lifecycle.cpp:140-152 | only Terminal refuses every event; the other terminal phases take EnterTerminal and nothing else |
| Fabric.SpeculationFabric.Submit | src/core/fabric.cpp:212-236 | the block is the submit step: whole new state and reply |
| Fabric.SpeculationFabric.Cancel | src/core/fabric.cpp:238-260 | the block is the cancel step, idempotent, refused when terminal, retiring every branch |
| Fabric.SpeculationFabric.Complete | src/core/fabric.cpp:262-273 | the block is the complete step |
| Fabric.SpeculationFabric.Retry | src/core/fabric.cpp:413-435 | the block is the retry step, its limit checked before its state |
| Fabric.SpeculationFabric.Rollback | src/core/fabric.cpp:382-411 | the block is the rollback step with its counts of rejected tokens and retired branches |
| Fabric.SpeculationFabric.PrepareCycle | src/core/fabric.cpp:447-516 | the block is the prepare step with each of its early outcomes in order |
| Fabric.SpeculationFabric.CheckAuthority | src/core/fabric.cpp:158-194 | the declared gate, its order of checks and its counters |
| Fabric.SpeculationFabric.CommitCycle | src/core/fabric.cpp:585-783 | the block is the commit step: winner, pushed tokens, generations, proposal, branches, counters, history and outcome |
| Fabric.SpeculationFabric.RunCycle | src/core/fabric.cpp:438-783 | without interleaving, a run_cycle with the CPU executors is the whole cycle: prepare, and when that plans, propose, verify and commit |
| Replies.CancelReplies | src/core/fabric.cpp:238-260 | cancelling succeeds iff the request ends up cancelled, repeats without effect, leaves no branch active |
| Replies.CompleteReplies | src/core/fabric.cpp:262-273 | completing succeeds for every known request, cancelled ones too |
| Replies.RetryReplies | src/core/fabric.cpp:413-435 | for a sound request: refused past the attempt limit, then when finished; else the next attempt, all authority kept |
| Replies.RollbackReports | src/core/fabric.cpp:382-411 | for a sound request the rejected tokens are those of the proposals after which the base did not move, the restored point is the authority, and no branch stays active |
| Replies.PlannedDepths | src/core/fabric.cpp:46-57 | the planned depth: without adaptation the maximum or the interactive cap, with it the maximum before any history and else what the average earns, in either latency class |
| Replies.PrepareReplies | src/core/fabric.cpp:447-516 | exactly when each of the seven outcomes is answered, in terms of products of the counters, and what else changes |
| Replies.CommitRefusals | src/core/fabric.cpp:585-600 | a commit is refused exactly for an absent or finished request, with which error, and only counted |
| Replies.GateReplies | src/core/fabric.cpp:158-194 | exactly when the gate gives each of its answers for a sound request, and which counter each raises |
| Replies.HistoryIsShort | include/speculation_fabric/core/policy.hpp:51-56 | over every run the history holds min(32, cycles) ratios |
| Replies.RecordedAsAsked | src/core/fabric.cpp:524-636 | a commit that finds its request where the captures found it records the proposal and branches its executors were asked for |
| Fabric.RetireLosers | src/core/fabric.cpp:651-698 | the nested loops record and retire the branches in turn |
| Branches.CommitRetiresLosers | src/core/fabric.cpp:651-698 | after a commit the branches are numbered, every loser is retired, the winner is active iff this was the first cycle or it was active, and losers are counted twice on the first cycle only |
| Ledger.CommittedSound | src/core/fabric.cpp:619-761 | a commit keeps committed = prefix + replay of the proposals, the three generations, the numbering, one active branch at most |
| Ledger.CommitReports | src/core/fabric.cpp:700-772 | the reply against the ledger: AllRejected iff nothing was appended of a non-empty candidate, FullAccepted iff all of it, partial iff in between; the counts, numbers, restored point and recorded ratio |
| Ledger.EachProposal | src/core/fabric.cpp:619-632 | the i-th proposal has id and generation i, and its base is the number of tokens replayed before it |
| Ledger.ReportedPhaseIsReady | src/core/fabric.cpp:645-757 | whatever the verdict, none of the commit block's events applies and the reported phase is Ready |
| Ledger.CommittedBranches | src/core/fabric.cpp:651-698 | which branches a commit leaves active and how many it reports as retired |
| EngineRuns.NextEvolves | src/core/fabric.cpp:212-783 | every action of every interleaving keeps every request and every flight sound and moves requests only forward |
| EngineRuns.NextBalances | src/core/fabric.cpp:722-772 | every action keeps every counter equal to its sum over all requests, the verdicts kind by kind |
| EngineGuarantees.EveryReachableRequest | src/core/fabric.cpp:585-783 | in every reachable system: tokens, generations, numbering, active branches, attempts, compatibility and phase of every request |
| EngineGuarantees.EveryRunFromTheEmptyEngine | src/core/fabric.cpp:205-783 | the same for every request after every run of an engine that starts empty |
| EngineGuarantees.EveryReachableProposal | src/core/fabric.cpp:619-632 | every recorded base is the number of tokens accepted before it, and those tokens are still committed |
| EngineGuarantees.CountersAddUp | src/core/fabric.cpp:722-772 | over every run, read off the ledger: full accepts = cycles committed whole, full rejects = cycles that gave nothing, partial accepts = those in between, each by the next base; proposed = accepted + rejected = tokens offered; accepted = sum of committed lengths; rollbacks, retries, cancellations and admissions likewise |
| EngineGuarantees.RunAdvances | docs/architecture.md:34-36 | along every run the committed tokens, proposals, generations and attempts only grow |
| EngineGuarantees.FinishedIsFrozen | src/core/fabric.cpp:592-600 | a cancelled or completed request never changes tokens, generation, attempt or proposals again, whatever is still in flight |
| EngineGuarantees.OutstandingBound | src/core/fabric.cpp:484-498 | with limit M and at most C cycles in flight, at most M-1+C proposals and that many times max_depth tokens |
| EngineGuarantees.DuplicatesAreCaughtIffNotNull | src/core/fabric.cpp:212-236 | a resubmission is refused iff its id is not null; a null one resets tokens beside old proposals |
| AuthorityGate.GateMattersExactly | src/core/fabric.cpp:592-600 | the block with and without the gate leave the same requests iff the request is finished or unmoved since prepare |
| AuthorityGate.GuardedCommit | src/core/fabric.cpp:158-194 | behind the gate a cycle of an older attempt or base commits nothing, any other one commits as before |
| AuthorityGate.LiteralCommit | src/core/fabric.cpp:592-758 | without it the block appends the winner's accepted tokens to whatever is committed by then |
| AuthorityGate.OlderAttemptCommits | src/core/fabric.cpp:413-435 | for every speculating configuration and request a run in which a cycle of attempt 1 commits on attempt 2, and commits nothing behind the gate |
| Serializability.CurrentAnswersAreFresh | src/core/fabric.cpp:524-583 | if the request is unmoved at commit, every capture of the flight saw what an atomic cycle would see |
| Serializability.ProposeTracks | src/core/fabric.cpp:526-546 | what a proposer is told is the request's authority at some point between the prepare block and now |
| Serializability.VerifyTracks | src/core/fabric.cpp:557-577 | and so is what a verifier is told |
| Serializability.GuardedRunsAreSerializable | src/core/fabric.cpp:438-783 | behind the gate every concurrent run leaves requests, counters of work done and history as running its successful commits one after another: as whole run_cycles when the policy ignores history, backlog and ratio, and as cycles from their captures on under any policy |
| Serializability.LandingIsWholeCycleIff | src/core/fabric.cpp:447-516 | a current flight's commit is a whole run_cycle iff the prepare block would plan the same again just before it |
| Serializability.PlanRepeats | src/core/fabric.cpp:484-503 | it would under a policy that ignores history, backlog and ratio |
| Backlog.WholeCyclesNeedAForgetfulPolicy | src/core/fabric.cpp:85-88 | with an outstanding limit of one a guarded run records two proposals where its serial counterpart records one, for every such configuration, request and model |
| LiteralRuns.GateNeverMattersIff | src/core/fabric.cpp:592-600 | over every run, the engine as it is has the requests of the guarded engine after every action iff every landing finds its request finished or unmoved |
| LiteralRuns.CurrentRunsAreSerializable | src/core/fabric.cpp:438-783 | such a run of the engine as it is equals its successful commits run one after another |
| LiteralRuns.CurrentRunsTellTheStory | src/core/fabric.cpp:438-783 | and with faithful CPU executors gains exactly the target paths of its completed cycles' bases |
| LiteralRuns.CurrentRunsKeepLosersOut | docs/architecture.md:42 | and no branch that lost a cycle commits later in it |
| Losers.LoserCommits | src/core/fabric.cpp:651-698 | of any two commits of a request won by different branches, the second appends the tokens of a branch the first retired and leaves no branch active |
| Losers.LoserCommitsInTheEnd | src/core/fabric.cpp:438-783 | for every speculating configuration of two or more branches, any outstanding limit and any request, a run in which branch 1 wins first and branch 2 commits, with the gate and without |
| Losers.LosersStayOutIff | docs/architecture.md:42 | over every run from the empty engine, no branch that lost a cycle commits later iff there is one branch or no cycle is ever planned |
| CpuCycles.ShippedAreDeterministic | src/core/cpu_proposer.cpp:77-106 | the shipped executors meet the hypotheses of serializability |
| CpuCycles.CycleAppendsTargetPath | src/core/fabric.cpp:700-758 | with the shipped executors every cycle appends a block that starts with min(aligned, depth) target tokens of its base |
| CpuCycles.AppendsOnlyVerifiedIff | src/core/fabric.cpp:616-736 | for every live request and all candidates, the appended tokens all carry the verifier's flag iff the winner's counter equals its first rejection |
| CpuCycles.ShippedCycleIsPromised | src/core/fabric.cpp:524-783 | at a depth of at most aligned + 1 a cycle with the literal counter is the cycle with the promised acceptance |
| CpuCycles.PromisedCycleAppendsExactly | include/speculation_fabric/core/verification.hpp:58-61 | with the contract's acceptance a cycle appends exactly the first min(aligned, depth) target tokens of its base and branch 1 wins |
| CpuCycles.FaithfulCycleAppendsExactly | src/core/fabric.cpp:700-758 | and so does a cycle with the literal counter at a depth of at most aligned + 1 |
| CpuCycles.RejectedTokenIsCommitted | src/core/fabric.cpp:616-736 | with the literal counter, at every base and length above one, the commit block appends a rejected token for some candidate |
| CpuRuns.RunsTellTheStory | src/core/fabric.cpp:523-758 | over every serial run with `Promised`, or `Shipped` at a depth of at most aligned + 1, a request gains exactly the target paths of its completed cycles' bases one after another, each proposal from branch 1 |
| CpuRuns.ConcurrentRunsTellTheStory | src/core/fabric.cpp:438-783 | the same, with the same executors and a fixed depth, over every concurrent run behind the gate |
| CpuRuns.BranchOneAlwaysWins | docs/architecture.md:42 | with the same executors, over every concurrent run behind the gate, branch 1 wins every cycle of every request, so no loser ever commits |
| CpuRuns.EquallyManyCyclesSameTokens | src/core/fabric.cpp:438-783 | two such runs in which a request completes equally many cycles give it identical tokens |
| CpuRuns.ConcurrentRunsKeepPace | src/core/fabric.cpp:523-758 | the length is that of the start plus min(aligned, depth) a completed cycle, for the same executors |
| CpuRuns.ProductionRunsTellTheStory | src/core/cpu_proposer.cpp:28-37 | the same for the word arithmetic that ships and its literal counter |
| Wire.Encode | src/core/wire.cpp:19-41 | the byte layout of an encodable message, or which limit it breaks |
| Wire.Decode | src/core/wire.cpp:43-112 | the cursor loop is the decoding function with all its errors |
| Wire.DecodesExactlyTheEncodings | src/core/wire.cpp:19-112 | decode gives m iff m is a valid message of types 1..11 and the payload is its encoding |
| Wire.EncodedTypeSurvivesIffDeclared | src/core/wire.cpp:80-83 | an encoded message decodes iff its type is declared |
| Wire.ExtractsExactlyTheFirstFrame | src/core/wire.cpp:114-153 | extract_frame yields a payload iff the stream starts with its frame and its length is in range |
| Wire.EncodedIsFramable | src/core/wire.cpp:24-28 | every encoded payload is non-empty and below the frame limit |
| Layouts.MessageLayout | docs/protocol.md:16-25 | every field of a payload at its byte position, each byte as a digit to the base 256 |
| Layouts.MessageLimits | src/core/wire.cpp:19-41 | every limit as a number: version 1, 64 fields, 1 MiB of body, types to 11, frames to 16 MiB |
| FormatErrors.LengthErrors | src/core/wire.cpp:43-112 | truncated iff below 20 bytes or a proper start of some valid message, malformed iff some valid message is a proper start of it |
| FormatErrors.HeaderErrors | src/core/wire.cpp:67-90 | each other error iff its own bytes of the header are wrong and those before them right |
| FormatErrors.FrameErrors | src/core/wire.cpp:129-153 | truncated iff below 4 bytes or a proper start of some frame; empty and oversized by the length word |
| Socket.SendAll | tools/sockutil.h:52-60 | the loop delivers all bytes in order however the socket splits them |
| Socket.RecvExact | tools/sockutil.h:62-70 | the loop takes exactly the next n bytes however they arrive |
| Socket.RecvFrame | tools/sockutil.h:79-87 | the next frame's payload, intact |
| Socket.Converse | tools/sockutil.h:72-87 | any encodable messages, sends and receives interleaved at will, arrive in order and intact |
| Socket.ChunkingIsInvisible | tools/sockutil.h:62-70 | the state of a reader does not depend on how the bytes were cut |
| Socket.AnyChunkingReassembles | tools/sockutil.h:72-87 | any chunking of the frames of any messages reassembles to exactly their payloads |
| Worker.ServeProposal | tools/sf_worker.cpp:52-94 | the reply echoes the envelope and carries the executor's outcome and tokens, or zeros |
| Worker.OutcomeCodeByDepth | tools/sf_worker.cpp:85-87 | the outcome code is 0 for a depth of 1..256, else 2 |
| Worker.ServeVerification | tools/sf_worker.cpp:95-133 | the reply carries the verdict code, the literal counter and the first rejection |
| Worker.VerdictCodeByPositions | tools/sf_worker.cpp:123-131 | the verdict code read off the candidate: 3 refused, 0 all expected, 2 none, 1 some |
| Coordinator.Process.DriveCycle | tools/sf_coordinator.cpp:85-163 | the loop's request, result and sent payloads are those of the cycle function |
| Coordinator.Process.Ask | tools/sf_coordinator.cpp:97-147 | one branch: what is sent, each check in order, and its vote |
| Coordinator.Process.Submit | tools/sf_coordinator.cpp:255-278 | a submission resets the request, drives one cycle and answers with its outcome |
| Coordinator.Poll | tools/sf_coordinator.cpp:96-148 | every dispatch raises the proposal generation, and all n votes come back or a failure |
| CoordinatorRuns.DriveKeepsAuthority | tools/sf_coordinator.cpp:85-163 | a failing cycle leaves tokens and generations alone, a passing one moves them together; the proposal generation strictly grows |
| CoordinatorRuns.EveryReachableRequestIsSound | tools/sf_coordinator.cpp:211-321 | in every reachable state authGen = authState.generation = stateGen = number of committed tokens |
| CoordinatorRuns.ReplaysChangeNothing | tools/sf_coordinator.cpp:238-306 | replayed results and probes change no request and no peer |
| CoordinatorRuns.SentAreDispatches | tools/sf_coordinator.cpp:96-131 | everything a cycle sends is a dispatch of a branch it asked, and every branch asked was dispatched |
| CoordinatorRuns.ReplayPassesIff | tools/sf_coordinator.cpp:238-254 | over any driver events, a replayed result echoing any dispatch of any submission passes iff it has the request's epoch, the present proposer and the last branch asked, and nothing was committed; otherwise it is rejected for the first of these that fails |
| CoordinatorRuns.EachProbeHasItsReason | tools/sf_coordinator.cpp:285-306 | each probe is refused for its own reason, the previous boot only once the proposer came back under another one |
| CoordinatorRuns.PeersAreTheLatest | tools/sf_coordinator.cpp:171-193 | over any events the boots checked against are those of the latest connections, the proposer's latest two, and the epoch counts its rolls |
| CoordinatorRuns.ProposalBecomes | tools/sf_coordinator.cpp:108-121 | what a proposer's reply becomes, each iff: lost, garbled when it encodes no message, stale when a mark differs, refused, or its tokens |
| CoordinatorRuns.VerificationBecomes | tools/sf_coordinator.cpp:133-147 | likewise a verifier's, with the three marks it carries, and its vote |
| CoordinatorRuns.RepeatedAnswerFailsTheCycle | tools/sf_coordinator.cpp:112-117 | a proposal result echoing an earlier branch fails the cycle as stale, which commits nothing |
| CoordinatorRuns.ResubmissionRestarts | tools/sf_coordinator.cpp:260-267 | a repeated submission leads to the very same request |
| CoordinatorRuns.LateResultPassesAfterResubmission | tools/sf_coordinator.cpp:238-267 | from every state, id and depth: when two identical submissions lose their only reply, a late result of the first passes every check against the second |
| DistributedCycle.DispatchesEncode | src/core/wire.cpp:24-28 | the proposal dispatch always encodes, the verification dispatch iff the depth is at most 61 |
| DistributedCycle.HonestBranchVotes | tools/sf_worker.cpp:52-133 | over bytes, one honest branch encodes everything, passes every check and votes as direct calls do |
| DistributedCycle.HonestCycle | tools/sf_coordinator.cpp:85-163 | with honest workers, depth 1..61 and any branches, the cycle commits what direct propose and verify calls on the base yield for the best branch |
| DistributedCycle.HonestSubmission | tools/sf_coordinator.cpp:255-278 | a submission to honest workers, from any state, commits accepted tokens of one branch's draft on the base its id determines, and the reply counts them |
| DistributedCycle.ProposalMessages | tools/distmsg.h:39-55 | dispatch and reply of a proposal field by field in terms of the request, the envelope brought back |
| DistributedCycle.VerificationMessages | tools/distmsg.h:57-71 | and of a verification |
| DistributedCycle.RepeatedReplyCommitsNothing | tools/sf_coordinator.cpp:112-117 | otherwise honest workers whose proposer answers a branch with its reply to an earlier one fail the cycle, and nothing is committed |
| DistributedCycle.OrderIsIrrelevant | tools/sf_coordinator.cpp:149-154 | the same vote wins whatever order the branches are compared in |
| Verdicts.VerdictIsCountedIff | tools/sf_coordinator.cpp:133-147 | a result echoing any verification dispatch of any submission becomes the vote for the branch being asked iff the epochs agree, else the cycle fails and commits nothing |
| Verdicts.ProposalIsTakenIff | tools/sf_coordinator.cpp:108-121 | a result echoing any proposal dispatch is taken for the branch being asked iff epochs, proposer boots and branches agree, else the cycle fails as stale and commits nothing |
| Verdicts.VerdictLastsUntilTheEpochRolls | tools/sf_coordinator.cpp:133-285 | over every run, the answer about one submission is the vote in the same or a later one iff no epoch roll came between them |
| Verdicts.SafeDriver | tools/sf_coordinator.cpp:85-285 | a driver that asks one branch an epoch never has a verdict counted that answers another dispatch, whatever the replies |
| Verdicts.UnsafeDriver | tools/sf_coordinator.cpp:85-285 | any other driver that reaches the verifier twice in an epoch has replies with which the first answer is counted for the second question, and for other tokens if it drafts any |
| Verdicts.NoneGoesAstrayIff | docs/architecture.md:40 | so no verdict ever goes astray, whatever the replies, iff the driver asks one question an epoch |
| Crc.Crc32 | src/core/persistence.cpp:20-30 | the byte and bit loops compute the checksum function, which the next rows pin |
| CrcRemainder.RegisterIsRemainder | src/core/persistence.cpp:20-30 | for every byte string a word is the register iff it is the remainder of the message polynomial, all-ones start included, by x^32+x^26+x^23+x^22+x^16+x^12+x^11+x^10+x^8+x^7+x^5+x^4+x^2+x+1 |
| CrcRemainder.RemainderIsUnique | src/core/persistence.cpp:20-30 | a polynomial over GF(2) has at most one remainder below the degree of a divisor |
| CrcNumbers.StepIsTurn | src/core/persistence.cpp:25-26 | one step of the register is the shift and exclusive or with 0xEDB88320 on 32-bit machine words |
| CrcNumbers.CheckValue | src/core/persistence.cpp:20-30 | the standard check value: "123456789" gives 0xCBF43926 |
| Crc.SealedIffResidue | src/core/persistence.cpp:109-118 | a trailer is the stored checksum iff the register over payload and trailer ends in one fixed residue |
| Crc.BitBurstDetected | src/core/persistence.cpp:20-30 | byte strings of any length that differ only within 32 consecutive bits leave different registers |
| LinearRegister.BurstDetected | src/core/persistence.cpp:23-27 | the same for every register whose word algebra is lawful: an injective linear step, an undoable shift, and bits that enter and fit |
| Archive.SerializeArchive | src/core/persistence.cpp:76-99 | the writer's bytes are the payload layout followed by its checksum |
| Layouts.ArchiveLayout | docs/persistence_format.md:9-23 | every field of every request at its byte position, and the checksum last, each byte as a digit to the base 256 |
| Archive.DeserializeArchive | src/core/persistence.cpp:101-180 | the cursor loops are the decoding function with its errors in order |
| ArchiveGuarantees.AcceptsExactly | src/core/persistence.cpp:101-180 | exactly which blobs decode to an archive: those starting with its payload whose checksum holds |
| FormatErrors.BlobErrors | src/core/persistence.cpp:101-180 | which error any other blob gets, each iff its own bytes are wrong and those before them right |
| ArchiveGuarantees.RoundTrip | src/core/persistence.cpp:76-180 | deserialize(serialize(a)) = a iff the version is 1 and there are at most 1000000 requests of at most 1000000 tokens |
| ArchiveGuarantees.RewriteIsIdentity | src/core/persistence.cpp:76-180 | rewriting an accepted blob gives the same blob iff its parse leaves exactly four bytes unread |
| ArchiveGuarantees.TrailingBytesAreAccepted | src/core/persistence.cpp:178-179 | any bytes between payload and checksum are accepted and ignored |
| ArchiveGuarantees.PrefixFree | src/core/persistence.cpp:76-93 | no archive's bytes are the start of another's |
| ArchiveGuarantees.TruncationRejected | src/core/persistence.cpp:101-176 | cutting more than the checksum off a written archive is always an error |
| ArchiveGuarantees.CutIntoChecksumIff | src/core/persistence.cpp:101-180 | cutting up to the four checksum bytes off a written archive is accepted iff what is left ends with its own checksum |
| ArchiveGuarantees.TokenIsReadAsChecksum | src/core/persistence.cpp:101-180 | every archive ending in a token has a sibling, different in that token alone, that is accepted without its checksum |
| ArchiveGuarantees.BitBurstRejected | src/core/persistence.cpp:109-118 | any change within 32 consecutive bits of a blob whose checksum holds is corrupt |
| ArchiveGuarantees.ByteBurstRejected | src/core/persistence.cpp:109-118 | any change within four consecutive bytes of a written archive, payload or checksum, is corrupt |

## Left out

- Sockets beyond a byte stream, accept and select loops, Winsock setup, the file store, clocks, printing, the command line, examples and benchmarks: input and output.
- Device allocation, copies and error codes: foreign calls. Only the kernels and the host's seeding are modelled, with a fold step, an emit step and the end of the seeding atomic; race freedom is what makes their grain irrelevant.
- Reservations inside the engine: nothing ever adds one, so every claim about them is empty, and memory headroom is never zero.
- Events, snapshots, explanations, rationale strings, error names and JSON text: bookkeeping that nothing reads back.
- The branches of `evaluate_compatibility`: one predicate on the two models of a request.
- Tenant budgets, weights, `roll_epoch` of the engine, id wrappers and the FNV hash: not on any modelled path.
- Executor errors: an executor that returns an error ends its cycle; in the runs that is an abandoned flight.
- Reading a missing candidate, `value()` of a failed encoding and fields a reply does not have are undefined in the code. The engine therefore requires a maximal depth of 1..256, the coordinator at least one branch and replies with the fields it reads, a success only at a depth of at most 61.
- DistributedCycle.HonestCycle: requires the request's numbers to fit 64 bits, because generations are naturals here and fields of 64 bits on the wire.
- Policy.AdaptiveDepth.ChooseDepth: exact reals instead of binary floating point; when it scales, a maximal depth of 1..2^31-1, because outside it the clamp's bounds are crossed, which is undefined.
- Policy.DepthIsMonotone: exact reals; `Policy.WrappedAverageGetsMaximum` shows why averages that wrap the cast are excluded.
- Serializability.GuardedRunsAreSerializable: compares requests but for their lifecycle phase, and counters but for those of bypasses and refused results, which serial runs do not have; whole serial cycles read the clock their prepare block read.
- CpuCycles.PromisedCycleAppendsExactly: requires fewer than 4096 branches, because branch index 4095 has an invisible shift and is accepted in full.
- Verdicts.NoneGoesAstrayIff: plans short enough for the epoch to fit its 64 bits, because epochs are naturals here and wrap in the code; likewise the other theorems that compare epochs.
