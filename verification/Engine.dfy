/**
 * The locked blocks of the speculation engine as functions of its state: each block is one atomic step over a map of
 * requests. `Fabric` proves the imperative blocks equal to these, `EngineRuns` proves what every interleaving keeps.
 */
module Engine {
  import opened Words
  import opened Executors
  import opened Policy
  import opened Selection
  import Lifecycle

  // ---------------------------------------------------------------------------
  // State
  // ---------------------------------------------------------------------------

  datatype Request = Request(
    id: nat, sequence: nat, prefix: seq<Token>, draft: ModelIdentity, target: ModelIdentity,
    maxAttempts: nat, deadline: Option<nat>)

  datatype Branch = Branch(id: nat, attempt: nat, cycle: nat, baseGeneration: nat, retired: bool)

  datatype Proposal = Proposal(
    id: nat, generation: nat, epoch: nat, attempt: nat, branch: nat, candidate: seq<Token>,
    baseState: StateRef, baseStateGeneration: nat, committed: bool)

  datatype RequestState = RequestState(
    req: Request, attempt: nat, epoch: nat, authGen: nat, authState: StateRef, authStateGen: nat,
    committed: seq<Token>, branches: seq<Branch>, proposals: seq<Proposal>, phase: Lifecycle.Phase,
    cancelled: bool, terminal: bool, completedCycles: nat, retryCount: nat)

  datatype Stats = Stats(
    eligible: nat, cyclesStarted: nat, bypasses: nat, proposalsProduced: nat, rejectedStale: nat, verificationsRun: nat,
    tokensProposed: nat, tokensAccepted: nat, tokensRejected: nat,
    fullAccepts: nat, partialAccepts: nat, fullRejects: nat, rollbacks: nat, retries: nat, cancels: nat,
    staleByEpoch: nat, staleByAttempt: nat, staleByGeneration: nat)

  datatype State = State(requests: map<nat, RequestState>, stats: Stats, history: seq<real>)

  /**
   * What stays fixed while an engine lives: its policy, its epoch, whether executors are registered, the
   * compatibility predicate, the state id of a sequence and the deterministic seed of a request and attempt.
   */
  datatype Config = Config(
    policy: ProposalPolicy, epoch: nat, executors: bool,
    compatible: (ModelIdentity, ModelIdentity) -> bool, stateId: nat -> nat, seed: (nat, nat) -> nat)
  {
    predicate Valid() {
      1 <= policy.maxDepth <= MAX_DEPTH
    }

    function BranchCount(): (n: u32)
      ensures n >= 1
    {
      if policy.maxBranches < 1 then 1 else policy.maxBranches
    }
  }

  const NO_STATS := Stats(0, 0, 0, 0, 0, 0, 0, 0, 0, 0, 0, 0, 0, 0, 0, 0, 0, 0)

  const START := State(map[], NO_STATS, [])

  const NO_MODEL := ModelIdentity(0, 0, 0)

  /** The entry a lookup creates for an id not seen before. */
  const BLANK := RequestState(
    Request(0, 0, [], NO_MODEL, NO_MODEL, 3, None), 0, 0, 0, StateRef(0, 0), 0, [], [], [], Lifecycle.Ready,
    false, false, 0, 0)

  datatype EngineError =
    | AlreadyExists | NotFound | AlreadyTerminal | RetryLimit | InvalidState
    | AfterTerminal | AfterCancellation | StaleEpoch | StaleAttempt | WrongBase | StaleProposalGeneration

  /** A step's new state and its reply. */
  datatype Reply<T> = Reply(state: State, value: Result<T, EngineError>)

  function Moved(p: Lifecycle.Phase, e: Lifecycle.Event): Lifecycle.Phase {
    match Lifecycle.Target(p, e)
    case Some(next) => next
    case None => p
  }

  // ---------------------------------------------------------------------------
  // Control steps
  // ---------------------------------------------------------------------------

  function Admitted(cfg: Config, entry: RequestState, req: Request): RequestState {
    entry.(req := req, attempt := 1, epoch := cfg.epoch, authGen := 0,
           authState := StateRef(cfg.stateId(req.sequence), 0), authStateGen := 0, committed := req.prefix,
           terminal := false, cancelled := false, completedCycles := 0, phase := Lifecycle.Ready)
  }

  /** The duplicate check asks whether the stored request has a non-null id. */
  function Submit(cfg: Config, s: State, req: Request): Reply<()> {
    var entry := if req.id in s.requests then s.requests[req.id] else BLANK;
    if entry.req.id != 0 then Reply(s, Err(AlreadyExists))
    else Reply(s.(requests := s.requests[req.id := Admitted(cfg, entry, req)],
                  stats := s.stats.(eligible := s.stats.eligible + 1)), Ok(()))
  }

  function AllRetired(branches: seq<Branch>): (r: seq<Branch>)
    ensures |r| == |branches|
  {
    seq(|branches|, i requires 0 <= i < |branches| => branches[i].(retired := true))
  }

  function Cancel(s: State, id: nat): Reply<()> {
    if id !in s.requests then Reply(s, Err(NotFound))
    else
      var rs := s.requests[id];
      if rs.cancelled then Reply(s, Ok(()))
      else if rs.terminal then Reply(s, Err(AlreadyTerminal))
      else
        var after := rs.(phase := Moved(rs.phase, Lifecycle.Cancel), branches := AllRetired(rs.branches),
            cancelled := true);
        Reply(s.(requests := s.requests[id := after], stats := s.stats.(cancels := s.stats.cancels + 1)), Ok(()))
  }

  function Complete(s: State, id: nat): Reply<()> {
    if id !in s.requests then Reply(s, Err(NotFound))
    else
      var rs := s.requests[id];
      var after := rs.(terminal := true, phase := Moved(rs.phase, Lifecycle.EnterTerminal));
      Reply(s.(requests := s.requests[id := after]), Ok(()))
  }

  /** A retry takes a new attempt and keeps everything authoritative. */
  function Retry(s: State, id: nat): Reply<nat> {
    if id !in s.requests then Reply(s, Err(NotFound))
    else
      var rs := s.requests[id];
      if rs.req.maxAttempts != 0 && rs.retryCount >= rs.req.maxAttempts then Reply(s, Err(RetryLimit))
      else if rs.terminal || rs.cancelled then Reply(s, Err(InvalidState))
      else
        var after := rs.(attempt := rs.attempt + 1, retryCount := rs.retryCount + 1, phase := Lifecycle.Ready);
        Reply(s.(requests := s.requests[id := after], stats := s.stats.(retries := s.stats.retries + 1)),
            Ok(after.attempt))
  }

  datatype RollbackReport = RollbackReport(
    rejectedTokens: nat, acceptedPrefix: nat, restoredGeneration: nat, restoredState: StateRef,
    restoredStateGeneration: nat, retiredBranches: nat)

  /** Tokens of the recorded proposals none of which was committed. */
  function UncommittedTokens(proposals: seq<Proposal>): nat {
    if |proposals| == 0 then 0
    else
      var last := proposals[|proposals| - 1];
      UncommittedTokens(proposals[..|proposals| - 1]) + (if last.committed then 0 else |last.candidate|)
  }

  function ActiveCount(branches: seq<Branch>): (n: nat)
    ensures n <= |branches|
  {
    if |branches| == 0 then 0
    else ActiveCount(branches[..|branches| - 1]) + (if branches[|branches| - 1].retired then 0 else 1)
  }

  /** A rollback by hand retires the active branches and reports the authoritative point. */
  function Rollback(s: State, id: nat): Reply<RollbackReport> {
    if id !in s.requests then Reply(s, Err(NotFound))
    else
      var rs := s.requests[id];
      var report := RollbackReport(UncommittedTokens(rs.proposals), |rs.committed|, rs.authGen, rs.authState,
                                   rs.authStateGen, ActiveCount(rs.branches));
      Reply(s.(requests := s.requests[id := rs.(branches := AllRetired(rs.branches))],
               stats := s.stats.(rollbacks := s.stats.rollbacks + 1)), Ok(report))
  }

  // ---------------------------------------------------------------------------
  // A cycle: prepare, capture, capture, commit
  // ---------------------------------------------------------------------------

  datatype Preparation =
    | Superseded | Cancelled | Expired | Incompatible | Bypassed | NoExecutor | Planned(depth: u32, branches: u32)

  /** The planned depth; adaptive planning overrides the interactive cap. */
  function PlannedDepth(policy: ProposalPolicy, history: seq<real>): (d: u32)
    requires 1 <= policy.maxDepth <= MAX_DEPTH
    ensures 1 <= d <= policy.maxDepth
  {
    var fixed := if policy.latency == Interactive && policy.maxDepth > 2 then 2 else policy.maxDepth;
    var planned := if policy.adaptiveDepthEnabled then DepthSpec(policy, history, 0, 0.0) else fixed;
    if planned < 1 then 1 else planned
  }

  function AcceptanceRatio(stats: Stats): real {
    if stats.tokensProposed == 0 then 1.0 else (stats.tokensAccepted as real) / (stats.tokensProposed as real)
  }

  predicate Backpressure(policy: ProposalPolicy, outstanding: nat, ratio: real) {
    || !policy.speculatingEnabled
    || (outstanding >= policy.maxOutstanding && policy.maxOutstanding != 0)
    || (policy.minAcceptanceRatio > 0.0 && ratio < policy.minAcceptanceRatio)
  }

  function Dispatched(p: Lifecycle.Phase): Lifecycle.Phase {
    Moved(Moved(Moved(p, Lifecycle.PlanProposal), Lifecycle.ReserveProposal), Lifecycle.DispatchProposal)
  }

  function Late(rs: RequestState, now: nat): bool {
    rs.req.deadline.Some? && now > rs.req.deadline.value
  }

  function Prepare(cfg: Config, s: State, id: nat, now: nat): Reply<Preparation>
    requires cfg.Valid()
  {
    if id !in s.requests then Reply(s, Err(NotFound))
    else
      var rs := s.requests[id];
      if rs.terminal then Reply(s, Ok(Superseded))
      else if rs.cancelled then Reply(s, Ok(Cancelled))
      else if Late(rs, now) then Reply(s, Ok(Expired))
      else
        var renewed := if Lifecycle.IsTerminal(rs.phase) then rs.(phase := Lifecycle.Ready) else rs;
        var reset := s.(requests := s.requests[id := renewed]);
        if !cfg.compatible(rs.req.draft, rs.req.target) then Reply(reset, Ok(Incompatible))
        else if Backpressure(cfg.policy, |rs.proposals|, AcceptanceRatio(s.stats)) then
          Reply(reset.(stats := s.stats.(bypasses := s.stats.bypasses + 1)), Ok(Bypassed))
        else if !cfg.executors then Reply(reset, Ok(NoExecutor))
        else
          Reply(s.(requests := s.requests[id := renewed.(phase := Dispatched(renewed.phase))]),
                Ok(Planned(PlannedDepth(cfg.policy, s.history), cfg.BranchCount())))
  }

  /** What the proposer of branch index b is told: the authority as it stands now. */
  function ProposalCapture(cfg: Config, rs: RequestState, depth: u32, b: u32): ProposalInput {
    ProposalInput(
      rs.req.id, rs.req.sequence, rs.attempt, b + 1, rs.completedCycles + 1, rs.epoch,
      rs.authState, rs.authGen, depth, b, cfg.BranchCount(), cfg.seed(rs.req.id, rs.attempt), rs.req.draft, 0)
  }

  /** What the verifier of branch index b is told, again as the authority stands now. */
  function VerificationCapture(rs: RequestState, b: nat, candidate: seq<Token>): VerificationInput {
    VerificationInput(
      rs.req.id, rs.req.sequence, rs.attempt, b + 1, rs.epoch, candidate, rs.req.draft.tokenizer, 4096,
      rs.req.draft, rs.req.target, rs.authState, rs.authGen, rs.authStateGen)
  }

  /** The declared authority gate of the engine, with the counters it bumps. */
  function CheckAuthority(s: State, rs: RequestState, epoch: nat, attempt: nat, baseGen: nat, propGen: nat): Reply<()> {
    if rs.terminal then Reply(s, Err(AfterTerminal))
    else if rs.cancelled then Reply(s, Err(AfterCancellation))
    else if epoch != 0 && epoch < rs.epoch then
      Reply(s.(stats := s.stats.(staleByEpoch := s.stats.staleByEpoch + 1)), Err(StaleEpoch))
    else if attempt != rs.attempt then
      Reply(s.(stats := s.stats.(staleByAttempt := s.stats.staleByAttempt + 1)), Err(StaleAttempt))
    else if baseGen != rs.authGen then
      Reply(s.(stats := s.stats.(staleByGeneration := s.stats.staleByGeneration + 1)), Err(WrongBase))
    else if propGen != 0 && (forall p :: p in rs.proposals ==> p.generation != propGen) then
      Reply(s.(stats := s.stats.(staleByGeneration := s.stats.staleByGeneration + 1)), Err(StaleProposalGeneration))
    else Reply(s, Ok(()))
  }

  // --- committing -------------------------------------------------------------

  datatype CycleKind = FullAccepted | PartiallyAccepted | AllRejected

  datatype CycleOutcome = CycleOutcome(
    kind: CycleKind, phase: Lifecycle.Phase, proposal: nat, branch: nat, depth: nat, proposedTokens: nat,
    acceptedTokens: nat, rejectedTokens: nat, generation: nat, rollback: RollbackReport)

  /** One ballot a branch, in dispatch order; branch ids start at 1. */
  function Ballots(accepted: seq<nat>): (b: seq<Ballot>)
    ensures |b| == |accepted|
    ensures forall i :: 0 <= i < |b| ==> b[i] == Ballot(accepted[i], i + 1)
  {
    seq(|accepted|, i requires 0 <= i < |accepted| => Ballot(accepted[i], i + 1))
  }

  /** What the executors owe: a candidate a branch, possibly empty, and no more accepted than was proposed. */
  predicate Answered(candidates: seq<seq<Token>>, accepted: seq<nat>) {
    && |candidates| == |accepted| > 0
    && forall i :: 0 <= i < |candidates| ==> accepted[i] <= |candidates[i]|
  }

  /** The position of the first branch with an id. */
  function FindBranch(branches: seq<Branch>, id: nat): (r: Option<nat>)
    ensures r.Some? ==> r.value < |branches| && branches[r.value].id == id
    ensures r.None? ==> forall i :: 0 <= i < |branches| ==> branches[i].id != id
  {
    if |branches| == 0 then None
    else if branches[0].id == id then Some(0)
    else match FindBranch(branches[1..], id) case Some(i) => Some(i + 1) case None => None
  }

  datatype Retirement = Retirement(branches: seq<Branch>, losers: nat)

  /**
   * Records one proposed branch. A loser is counted when it is first recorded and again when it is retired,
   * so a new loser counts twice.
   */
  function RetireOne(r: Retirement, template: Branch, id: nat, keep: nat): Retirement {
    var found := FindBranch(r.branches, id);
    var recorded :=
      if found.Some? then r
      else Retirement(r.branches + [template.(id := id, retired := id != keep)],
          r.losers + if id != keep then 1 else 0);
    if id == keep then recorded
    else
      var at := FindBranch(recorded.branches, id);
      if at.None? then recorded
      else Retirement(recorded.branches[at.value := recorded.branches[at.value].(retired := true)], recorded.losers + 1)
  }

  /** Branches 1..n recorded in turn. */
  function RetireOthers(branches: seq<Branch>, template: Branch, n: nat, keep: nat): Retirement {
    if n == 0 then Retirement(branches, 0)
    else RetireOne(RetireOthers(branches, template, n - 1, keep), template, n, keep)
  }

  function KindOf(accepted: nat, length: nat): CycleKind {
    if accepted == length then FullAccepted else if accepted > 0 then PartiallyAccepted else AllRejected
  }

  /**
   * The request after the winning candidate's accepted tokens are appended and the cycle is closed. The generation of
   * the state is copied on every full or partial accept, and an empty candidate is a full one.
   */
  function Committed(rs: RequestState, n: nat, w: nat, candidate: seq<Token>, k: nat): RequestState
    requires k <= |candidate|
  {
    var proposal := Proposal(
      |rs.proposals| + 1, rs.completedCycles + 1, rs.epoch, rs.attempt, w + 1, candidate,
      rs.authState, rs.authStateGen, k > 0);
    var state := StateRef(rs.authState.id, rs.authState.generation + k);
    var template := Branch(0, rs.attempt, rs.completedCycles + 1, rs.authGen + k, false);
    rs.(committed := rs.committed + candidate[..k], authGen := rs.authGen + k, authState := state,
        authStateGen := if k > 0 || |candidate| == 0 then state.generation else rs.authStateGen,
        proposals := rs.proposals + [proposal],
        branches := RetireOthers(rs.branches, template, n, w + 1).branches,
        phase := Lifecycle.Ready, completedCycles := rs.completedCycles + 1)
  }

  function VerdictEvent(kind: CycleKind): Lifecycle.Event {
    match kind
    case FullAccepted => Lifecycle.AcceptFull
    case PartiallyAccepted => Lifecycle.AcceptPartial
    case AllRejected => Lifecycle.RejectAll
  }

  function ClosingEvent(kind: CycleKind): Lifecycle.Event {
    if kind == AllRejected then Lifecycle.Rollback else Lifecycle.Commit
  }

  /** The phase after the verification events and the verdict are applied, in the order the block applies them. */
  function BeforeClosing(p: Lifecycle.Phase, kind: CycleKind): Lifecycle.Phase {
    var planned := Moved(Moved(p, Lifecycle.ProposalFinished), Lifecycle.PlanVerification);
    var dispatched := Moved(Moved(planned, Lifecycle.ReserveVerification), Lifecycle.DispatchVerification);
    Moved(Moved(dispatched, Lifecycle.VerificationFinished), VerdictEvent(kind))
  }

  /** The reported phase: that of the closing event when it applies, else the default. */
  function ReportedPhase(p: Lifecycle.Phase, kind: CycleKind): Lifecycle.Phase {
    match Lifecycle.Target(BeforeClosing(p, kind), ClosingEvent(kind))
    case Some(next) => next
    case None => Lifecycle.Ready
  }

  function Counted(stats: Stats, kind: CycleKind, length: nat, k: nat): Stats
    requires k <= length
  {
    stats.(fullAccepts := stats.fullAccepts + if kind == FullAccepted then 1 else 0,
           partialAccepts := stats.partialAccepts + if kind == PartiallyAccepted then 1 else 0,
           fullRejects := stats.fullRejects + if kind == AllRejected then 1 else 0,
           rollbacks := stats.rollbacks + if kind == FullAccepted then 0 else 1,
           tokensProposed := stats.tokensProposed + length,
           tokensAccepted := stats.tokensAccepted + k,
           tokensRejected := stats.tokensRejected + (length - k),
           cyclesStarted := stats.cyclesStarted + 1,
           proposalsProduced := stats.proposalsProduced + 1,
           verificationsRun := stats.verificationsRun + 1)
  }

  function RatioOf(accepted: nat, length: nat): real {
    if length == 0 then 0.0 else (accepted as real) / (length as real)
  }

  const WINDOW := 32

  function Outcome(rs: RequestState, after: RequestState, n: nat, w: nat, depth: nat, length: nat, k: nat): CycleOutcome
    requires k <= length
  {
    var template := Branch(0, rs.attempt, rs.completedCycles + 1, rs.authGen + k, false);
    var report := RollbackReport(length - k, k, after.authGen, after.authState, after.authStateGen,
                                 RetireOthers(rs.branches, template, n, w + 1).losers);
    CycleOutcome(KindOf(k, length), ReportedPhase(rs.phase, KindOf(k, length)), |rs.proposals| + 1, w + 1, depth, length,
                 k, length - k, after.authGen, report)
  }

  /** The commit block: a cycle of a finished request is stale, any other one commits its winner. */
  function Commit(s: State, id: nat, depth: nat, candidates: seq<seq<Token>>, accepted: seq<nat>): Reply<CycleOutcome>
    requires Answered(candidates, accepted)
  {
    if id !in s.requests then Reply(s, Err(NotFound))
    else
      var rs := s.requests[id];
      if rs.terminal || rs.cancelled then
        Reply(s.(stats := s.stats.(rejectedStale := s.stats.rejectedStale + 1)),
              Err(if rs.terminal then AfterTerminal else AfterCancellation))
      else
        var w := Winner(Ballots(accepted));
        var k, length := accepted[w], |candidates[w]|;
        var after := Committed(rs, |candidates|, w, candidates[w], k);
        Reply(State(s.requests[id := after], Counted(s.stats, KindOf(k, length), length, k),
                    Pushed(WINDOW, s.history, RatioOf(k, length))),
              Ok(Outcome(rs, after, |candidates|, w, depth, length, k)))
  }
}
