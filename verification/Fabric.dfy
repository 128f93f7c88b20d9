/**
 * The speculation engine itself: the fields its blocks update in place and the blocks, each proved equal to its step
 * in `Engine`. One method is one stretch under the lock.
 */
module Fabric {
  import opened Words
  import opened Executors
  import opened Policy
  import opened Selection
  import opened Engine
  import Lifecycle
  import CpuCycles
  import Serializability
  import Synthetic

  class SpeculationFabric {
    const cfg: Config
    const adaptive: AdaptiveDepth
    var requests: map<nat, RequestState>
    var stats: Stats

    ghost predicate Valid()
      reads adaptive
    {
      cfg.Valid() && adaptive.window == WINDOW
    }

    ghost function View(): State
      reads this, adaptive
    {
      State(requests, stats, adaptive.history)
    }

    constructor (cfg: Config)
      requires cfg.Valid()
      ensures Valid() && fresh(adaptive) && this.cfg == cfg && View() == START
    {
      this.cfg := cfg;
      adaptive := new AdaptiveDepth();
      requests := map[];
      stats := NO_STATS;
    }

    method Submit(req: Request) returns (r: Result<(), EngineError>)
      modifies this
      ensures View() == Engine.Submit(cfg, old(View()), req).state && r == Engine.Submit(cfg, old(View()), req).value
    {
      var rs := BLANK;
      if req.id in requests {
        rs := requests[req.id];
      }
      if rs.req.id != 0 {
        return Err(AlreadyExists);
      }
      rs := rs.(req := req, attempt := 1, epoch := cfg.epoch, authGen := 0);
      rs := rs.(authState := StateRef(cfg.stateId(req.sequence), 0), authStateGen := 0, committed := req.prefix);
      rs := rs.(terminal := false, cancelled := false, completedCycles := 0, phase := Lifecycle.Ready);
      requests := requests[req.id := rs];
      stats := stats.(eligible := stats.eligible + 1);
      r := Ok(());
    }

    method Cancel(id: nat) returns (r: Result<(), EngineError>)
      modifies this
      ensures View() == Engine.Cancel(old(View()), id).state && r == Engine.Cancel(old(View()), id).value
    {
      if id !in requests {
        return Err(NotFound);
      }
      var rs := requests[id];
      if rs.cancelled {
        return Ok(());
      }
      if rs.terminal {
        return Err(AlreadyTerminal);
      }
      var phase, _ := Apply(rs.phase, Lifecycle.Cancel);
      var branches, _ := RetireAll(rs.branches);
      requests := requests[id := rs.(phase := phase, branches := branches, cancelled := true)];
      stats := stats.(cancels := stats.cancels + 1);
      r := Ok(());
    }

    method Complete(id: nat) returns (r: Result<(), EngineError>)
      modifies this
      ensures View() == Engine.Complete(old(View()), id).state && r == Engine.Complete(old(View()), id).value
    {
      if id !in requests {
        return Err(NotFound);
      }
      var rs := requests[id].(terminal := true);
      var phase, _ := Apply(rs.phase, Lifecycle.EnterTerminal);
      requests := requests[id := rs.(phase := phase)];
      r := Ok(());
    }

    method Retry(id: nat) returns (r: Result<nat, EngineError>)
      modifies this
      ensures View() == Engine.Retry(old(View()), id).state && r == Engine.Retry(old(View()), id).value
    {
      if id !in requests {
        return Err(NotFound);
      }
      var rs := requests[id];
      if rs.req.maxAttempts != 0 && rs.retryCount >= rs.req.maxAttempts {
        return Err(RetryLimit);
      }
      if rs.terminal || rs.cancelled {
        return Err(InvalidState);
      }
      rs := rs.(attempt := rs.attempt + 1);
      rs := rs.(retryCount := rs.retryCount + 1);
      rs := rs.(phase := Lifecycle.Ready);
      requests := requests[id := rs];
      stats := stats.(retries := stats.retries + 1);
      r := Ok(rs.attempt);
    }

    method Rollback(id: nat) returns (r: Result<RollbackReport, EngineError>)
      modifies this
      ensures View() == Engine.Rollback(old(View()), id).state && r == Engine.Rollback(old(View()), id).value
    {
      if id !in requests {
        return Err(NotFound);
      }
      var rs := requests[id];
      var rejected := 0;
      for i := 0 to |rs.proposals|
        invariant rejected == UncommittedTokens(rs.proposals[..i])
      {
        assert rs.proposals[..i + 1][..i] == rs.proposals[..i];
        if !rs.proposals[i].committed {
          rejected := rejected + |rs.proposals[i].candidate|;
        }
      }
      assert rs.proposals[..|rs.proposals|] == rs.proposals;
      var branches, retired := RetireAll(rs.branches);
      requests := requests[id := rs.(branches := branches)];
      stats := stats.(rollbacks := stats.rollbacks + 1);
      r := Ok(RollbackReport(rejected, |rs.committed|, rs.authGen, rs.authState, rs.authStateGen, retired));
    }

    /** First block of a cycle: decide whether to speculate, and how deep. */
    method PrepareCycle(id: nat, now: nat) returns (r: Result<Preparation, EngineError>)
      requires Valid()
      modifies this
      ensures Valid() && View() == Engine.Prepare(cfg, old(View()), id, now).state
      ensures r == Engine.Prepare(cfg, old(View()), id, now).value
    {
      hide Dispatched, Backpressure, AcceptanceRatio, PlannedDepth, Lifecycle.IsTerminal;
      if id !in requests {
        return Err(NotFound);
      }
      var rs := requests[id];
      if rs.terminal {
        return Ok(Superseded);
      }
      if rs.cancelled {
        return Ok(Cancelled);
      }
      if rs.req.deadline.Some? && now > rs.req.deadline.value {
        return Ok(Expired);
      }
      if Lifecycle.IsTerminal(rs.phase) {
        rs := rs.(phase := Lifecycle.Ready);
      }
      requests := requests[id := rs];
      if !cfg.compatible(rs.req.draft, rs.req.target) {
        return Ok(Incompatible);
      }
      if Backpressure(cfg.policy, |rs.proposals|, AcceptanceRatio(stats)) {
        stats := stats.(bypasses := stats.bypasses + 1);
        return Ok(Bypassed);
      }
      var depth := PlanDepth();
      var branches: u32 := if cfg.policy.maxBranches < 1 then 1 else cfg.policy.maxBranches;
      if !cfg.executors {
        return Ok(NoExecutor);
      }
      var phase := ApplyDispatch(rs.phase);
      requests := requests[id := rs.(phase := phase)];
      r := Ok(Planned(depth, branches));
    }

    method PlanDepth() returns (depth: u32)
      requires Valid()
      ensures depth == PlannedDepth(cfg.policy, adaptive.history)
    {
      depth := cfg.policy.maxDepth;
      if cfg.policy.latency == Interactive {
        depth := if cfg.policy.maxDepth > 2 then 2 else cfg.policy.maxDepth;
      }
      if cfg.policy.adaptiveDepthEnabled {
        depth := adaptive.ChooseDepth(cfg.policy, 0, 0.0);
      }
      depth := Max(1, depth);
    }

    /** Block before the proposer of one branch runs. */
    method CaptureProposal(id: nat, depth: u32, b: u32) returns (input: ProposalInput)
      requires id in requests
      ensures input == ProposalCapture(cfg, requests[id], depth, b)
    {
      var rs := requests[id];
      input := ProposalInput(
        rs.req.id, rs.req.sequence, rs.attempt, b + 1, rs.completedCycles + 1, rs.epoch,
        rs.authState, rs.authGen, depth, b, cfg.BranchCount(), cfg.seed(rs.req.id, rs.attempt), rs.req.draft, 0);
    }

    /** Block before the verifier of one branch runs. */
    method CaptureVerification(id: nat, b: nat, candidate: seq<Token>) returns (input: VerificationInput)
      requires id in requests
      ensures input == VerificationCapture(requests[id], b, candidate)
    {
      var rs := requests[id];
      input := VerificationInput(
        rs.req.id, rs.req.sequence, rs.attempt, b + 1, rs.epoch, candidate, rs.req.draft.tokenizer, 4096,
        rs.req.draft, rs.req.target, rs.authState, rs.authGen, rs.authStateGen);
    }

    /** The authority gate the engine declares; no block of a cycle calls it. */
    method CheckAuthority(id: nat, epoch: nat, attempt: nat, baseGen: nat, propGen: nat)
      returns (r: Result<(), EngineError>)
      requires id in requests
      modifies this
      ensures var checked := Engine.CheckAuthority(old(View()), old(requests[id]), epoch, attempt, baseGen, propGen);
              View() == checked.state && r == checked.value
    {
      var rs := requests[id];
      if rs.terminal {
        return Err(AfterTerminal);
      }
      if rs.cancelled {
        return Err(AfterCancellation);
      }
      if epoch != 0 && epoch < rs.epoch {
        stats := stats.(staleByEpoch := stats.staleByEpoch + 1);
        return Err(StaleEpoch);
      }
      if attempt != rs.attempt {
        stats := stats.(staleByAttempt := stats.staleByAttempt + 1);
        return Err(StaleAttempt);
      }
      if baseGen != rs.authGen {
        stats := stats.(staleByGeneration := stats.staleByGeneration + 1);
        return Err(WrongBase);
      }
      if propGen != 0 {
        for i := 0 to |rs.proposals|
          invariant forall j :: 0 <= j < i ==> rs.proposals[j].generation != propGen
        {
          if rs.proposals[i].generation == propGen {
            return Ok(());
          }
        }
        stats := stats.(staleByGeneration := stats.staleByGeneration + 1);
        return Err(StaleProposalGeneration);
      }
      r := Ok(());
    }

    /** Last block of a cycle: refuse a finished request, else choose the winner and commit its accepted tokens. */
    method CommitCycle(id: nat, depth: nat, candidates: seq<seq<Token>>, accepted: seq<nat>)
      returns (r: Result<CycleOutcome, EngineError>)
      requires Valid() && Answered(candidates, accepted)
      modifies this, adaptive
      ensures Valid() && View() == Engine.Commit(old(View()), id, depth, candidates, accepted).state
      ensures r == Engine.Commit(old(View()), id, depth, candidates, accepted).value
    {
      hide Committed, Outcome, Counted, RatioOf, Pushed, Winner, KindOf;
      if id !in requests {
        return Err(NotFound);
      }
      var rs := requests[id];
      if rs.terminal || rs.cancelled {
        stats := stats.(rejectedStale := stats.rejectedStale + 1);
        return Err(if rs.terminal then AfterTerminal else AfterCancellation);
      }
      var w := SelectWinner(Ballots(accepted));
      var k, length := accepted[w], |candidates[w]|;
      var after, outcome := CloseCycle(rs, depth, |candidates|, w, candidates[w], k);
      requests := requests[id := after];
      stats := CountCycle(stats, length, k);
      adaptive.Record(RatioOf(k, length));
      r := Ok(outcome);
    }

    /** A whole cycle with the CPU executors, when nothing else happens between its blocks. */
    method RunCycle(a: Synthetic.Arithmetic, aligned: u32, id: nat, now: nat)
      returns (plan: Result<Preparation, EngineError>, r: Option<Result<CycleOutcome, EngineError>>)
      requires Valid()
      modifies this, adaptive
      ensures r.Some? <==> plan.Ok? && plan.value.Planned?
      ensures Valid() && plan == Engine.Prepare(cfg, old(View()), id, now).value
      ensures View() == Serializability.WholeCycle(cfg, CpuCycles.Shipped(a, aligned), old(View()), id, now)
    {
      hide Engine.Prepare, Engine.Commit, CpuCycles.Shipped;
      r := None;
      plan := PrepareCycle(id, now);
      if plan.Err? || !plan.value.Planned? {
        return;
      }
      PlanIsGood(cfg, old(View()), id, now);
      var depth := plan.value.depth;
      var drafts := ProposeAll(a, aligned, id, depth);
      var verdicts := VerifyAll(a, aligned, id, drafts);
      CpuCycles.ShippedAnswer(cfg, a, aligned, requests[id], depth);
      var outcome := CommitCycle(id, depth, drafts, verdicts);
      r := Some(outcome);
    }

    method ProposeAll(a: Synthetic.Arithmetic, aligned: u32, id: nat, depth: u32) returns (drafts: seq<seq<Token>>)
      requires id in requests && 1 <= depth <= MAX_DEPTH
      ensures drafts == Serializability.Drafts(cfg, CpuCycles.Shipped(a, aligned), requests[id], depth)
    {
      hide Candidate, ProposeSpec;
      drafts := [];
      for b := 0 to cfg.BranchCount()
        invariant drafts == Serializability.Drafts(cfg, CpuCycles.Shipped(a, aligned), requests[id], depth)[..b]
      {
        var input := CaptureProposal(id, depth, b);
        var proposed := Propose(a, aligned, input);
        CpuCycles.ProposedCandidate(a, aligned, input);
        drafts := drafts + [proposed.candidate.value];
      }
    }

    method VerifyAll(a: Synthetic.Arithmetic, aligned: u32, id: nat, drafts: seq<seq<Token>>)
      returns (verdicts: seq<nat>)
      requires id in requests
      ensures verdicts == Serializability.Verdicts(cfg, CpuCycles.Shipped(a, aligned), requests[id], drafts)
    {
      hide VerifySpec;
      verdicts := [];
      for b := 0 to |drafts|
        invariant verdicts == Serializability.Verdicts(cfg, CpuCycles.Shipped(a, aligned), requests[id], drafts)[..b]
      {
        var input := CaptureVerification(id, b, drafts[b]);
        var verdict := Verify(a, input);
        verdicts := verdicts + [verdict.acceptedPrefix];
      }
    }
  }

  lemma PlanIsGood(cfg: Config, s: State, id: nat, now: nat)
    requires cfg.Valid()
    ensures var reply := Engine.Prepare(cfg, s, id, now);
            reply.value.Ok? && reply.value.value.Planned? ==>
              id in reply.state.requests && 1 <= reply.value.value.depth <= MAX_DEPTH
  {
    hide Dispatched, Backpressure, AcceptanceRatio, PlannedDepth, Lifecycle.IsTerminal;
  }

  // ---------------------------------------------------------------------------
  // The loops inside the blocks
  // ---------------------------------------------------------------------------

  /** Applies an event when the table declares it, and says whether it did. */
  method Apply(phase: Lifecycle.Phase, event: Lifecycle.Event) returns (next: Lifecycle.Phase, applied: bool)
    ensures next == Moved(phase, event) && applied == Lifecycle.Target(phase, event).Some?
    ensures applied ==> Lifecycle.Target(phase, event) == Some(next)
  {
    hide Lifecycle.Target;
    var target := Lifecycle.TransitionTarget(phase, event);
    next, applied := if target.Some? then target.value else phase, target.Some?;
  }

  /** Retires every branch and counts those that were active. */
  method RetireAll(branches: seq<Branch>) returns (r: seq<Branch>, retired: nat)
    ensures r == AllRetired(branches) && retired == ActiveCount(branches)
  {
    r, retired := branches, 0;
    for i := 0 to |branches|
      invariant |r| == |branches| && r[..i] == AllRetired(branches)[..i] && r[i..] == branches[i..]
      invariant retired == ActiveCount(branches[..i])
    {
      assert branches[..i + 1][..i] == branches[..i];
      assert r[i] == branches[i];
      if !r[i].retired {
        r := r[i := r[i].(retired := true)];
        retired := retired + 1;
      }
      assert r[..i + 1] == r[..i] + [r[i]];
    }
    assert branches[..|branches|] == branches;
  }

  /** The accepted tokens pushed one by one. */
  method PushTokens(committed: seq<Token>, candidate: seq<Token>, k: nat) returns (r: seq<Token>)
    requires k <= |candidate|
    ensures r == committed + candidate[..k]
  {
    r := committed;
    for i := 0 to k
      invariant r == committed + candidate[..i]
    {
      r := r + [candidate[i]];
    }
  }

  /** Looks a branch up by scanning the list. */
  method SearchBranch(branches: seq<Branch>, id: nat) returns (r: Option<nat>)
    ensures r == FindBranch(branches, id)
  {
    assert branches[0..] == branches;
    for i := 0 to |branches|
      invariant FindBranch(branches, id) ==
                match FindBranch(branches[i..], id) { case Some(at) => Some(at + i) case None => None }
    {
      assert branches[i..][1..] == branches[i + 1..];
      if branches[i].id == id {
        return Some(i);
      }
    }
    r := None;
  }

  /** Records every proposed branch; the winner stays as it is, all others are retired. */
  method RetireLosers(branches: seq<Branch>, template: Branch, n: nat, keep: nat) returns (r: seq<Branch>, losers: nat)
    ensures Retirement(r, losers) == RetireOthers(branches, template, n, keep)
  {
    hide RetireOne;
    r, losers := branches, 0;
    for i := 0 to n
      invariant Retirement(r, losers) == RetireOthers(branches, template, i, keep)
    {
      r, losers := RecordBranch(r, losers, template, i + 1, keep);
    }
  }

  /** Records one proposed branch, and retires it when it lost. */
  method RecordBranch(branches: seq<Branch>, count: nat, template: Branch, id: nat, keep: nat)
    returns (r: seq<Branch>, losers: nat)
    ensures Retirement(r, losers) == RetireOne(Retirement(branches, count), template, id, keep)
  {
    hide FindBranch;
    r, losers := branches, count;
    var found := SearchBranch(r, id);
    if found.None? {
      r := r + [template.(id := id, retired := id != keep)];
      if id != keep {
        losers := losers + 1;
      }
    }
    if id != keep {
      var at := SearchBranch(r, id);
      if at.Some? {
        if !r[at.value].retired {
          r := r[at.value := r[at.value].(retired := true)];
        }
        losers := losers + 1;
      }
    }
  }

  /** The request's own part of the commit block, for a chosen winner. */
  method CloseCycle(rs: RequestState, depth: nat, n: nat, w: nat, candidate: seq<Token>, k: nat)
    returns (after: RequestState, outcome: CycleOutcome)
    requires k <= |candidate|
    ensures after == Committed(rs, n, w, candidate, k)
    ensures outcome == Outcome(rs, after, n, w, depth, |candidate|, k)
  {
    hide RetireOthers, Lifecycle.Target;
    var length := |candidate|;
    var proposal := Proposal(
      |rs.proposals| + 1, rs.completedCycles + 1, rs.epoch, rs.attempt, w + 1, candidate,
      rs.authState, rs.authStateGen, k > 0);
    after := rs;
    var kind := AllRejected;
    if k == length {
      kind := FullAccepted;
      var tokens := PushTokens(after.committed, candidate, k);
      after := after.(committed := tokens, authGen := after.authGen + k,
                      authState := after.authState.(generation := after.authState.generation + k));
      after := after.(authStateGen := after.authState.generation);
    } else if k > 0 {
      kind := PartiallyAccepted;
      var tokens := PushTokens(after.committed, candidate, k);
      after := after.(committed := tokens, authGen := after.authGen + k,
                      authState := after.authState.(generation := after.authState.generation + k));
      after := after.(authStateGen := after.authState.generation);
    }
    after := after.(proposals := after.proposals + [proposal]);
    var reported := ApplyClosing(rs.phase, kind);
    var branches, losers := RetireLosers(
      after.branches, Branch(0, after.attempt, after.completedCycles + 1, after.authGen, false), n, w + 1);
    var report := RollbackReport(length - k, k, after.authGen, after.authState, after.authStateGen, losers);
    after := after.(branches := branches, phase := Lifecycle.Ready, completedCycles := after.completedCycles + 1);
    outcome := CycleOutcome(kind, reported, |rs.proposals| + 1, w + 1, depth, length, k, length - k, after.authGen,
        report);
  }

  /** The events of the prepare block. */
  method ApplyDispatch(start: Lifecycle.Phase) returns (phase: Lifecycle.Phase)
    ensures phase == Dispatched(start)
  {
    hide Lifecycle.Target;
    var applied;
    phase, applied := Apply(start, Lifecycle.PlanProposal);
    phase, applied := Apply(phase, Lifecycle.ReserveProposal);
    phase, applied := Apply(phase, Lifecycle.DispatchProposal);
  }

  /** The events of the commit block; the reported phase is set only by a closing event that applies. */
  method ApplyClosing(start: Lifecycle.Phase, kind: CycleKind) returns (reported: Lifecycle.Phase)
    ensures reported == ReportedPhase(start, kind)
  {
    hide Lifecycle.Target;
    var phase, applied := Apply(start, Lifecycle.ProposalFinished);
    phase, applied := Apply(phase, Lifecycle.PlanVerification);
    phase, applied := Apply(phase, Lifecycle.ReserveVerification);
    phase, applied := Apply(phase, Lifecycle.DispatchVerification);
    phase, applied := Apply(phase, Lifecycle.VerificationFinished);
    phase, applied := Apply(phase, VerdictEvent(kind));
    phase, applied := Apply(phase, ClosingEvent(kind));
    reported := if applied then phase else Lifecycle.Ready;
  }

  /** The counters of one committed cycle. */
  method CountCycle(stats: Stats, length: nat, k: nat) returns (r: Stats)
    requires k <= length
    ensures r == Counted(stats, KindOf(k, length), length, k)
  {
    r := stats;
    if k == length {
      r := r.(fullAccepts := r.fullAccepts + 1);
    } else if k > 0 {
      r := r.(partialAccepts := r.partialAccepts + 1);
      r := r.(rollbacks := r.rollbacks + 1);
    } else {
      r := r.(fullRejects := r.fullRejects + 1);
      r := r.(rollbacks := r.rollbacks + 1);
    }
    r := r.(tokensProposed := r.tokensProposed + length);
    r := r.(tokensAccepted := r.tokensAccepted + k);
    r := r.(tokensRejected := r.tokensRejected + (length - k));
    r := r.(cyclesStarted := r.cyclesStarted + 1);
    r := r.(proposalsProduced := r.proposalsProduced + 1);
    r := r.(verificationsRun := r.verificationsRun + 1);
  }
}
