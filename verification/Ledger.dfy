/**
 * One request as a ledger: its committed tokens are its prefix followed by the accepted prefixes of its recorded
 * proposals, recovered from nothing but the base generations the proposals carry.
 */
module Ledger {
  import opened Words
  import opened Executors
  import opened Engine
  import opened Branches
  import Lifecycle
  import Selection

  /**
   * The recorded proposals chain up to a generation: the i-th one has id and generation i, starts from the state the
   * ones before it left behind, holds between one token and the maximal depth, and was accepted up to where the next
   * starts.
   */
  predicate Chain(proposals: seq<Proposal>, stateId: nat, maxDepth: nat, gen: nat)
    decreases |proposals|
  {
    if |proposals| == 0 then gen == 0
    else
      var n := |proposals|;
      var p := proposals[n - 1];
      && p.id == n && p.generation == n && p.branch >= 1
      && p.baseState == StateRef(stateId, p.baseStateGeneration)
      && 1 <= |p.candidate| <= maxDepth
      && p.baseStateGeneration <= gen <= p.baseStateGeneration + |p.candidate|
      && (p.committed <==> p.baseStateGeneration < gen)
      && Chain(proposals[..n - 1], stateId, maxDepth, p.baseStateGeneration)
  }

  /** The accepted prefixes of the proposals, in order. */
  function Replay(proposals: seq<Proposal>, stateId: nat, maxDepth: nat, gen: nat): (tokens: seq<Token>)
    requires Chain(proposals, stateId, maxDepth, gen)
    ensures |tokens| == gen
    decreases |proposals|
  {
    if |proposals| == 0 then []
    else
      var n := |proposals|;
      var p := proposals[n - 1];
      Replay(proposals[..n - 1], stateId, maxDepth, p.baseStateGeneration)
      + p.candidate[..gen - p.baseStateGeneration]
  }

  /** How many proposals were committed whole, in part, and not at all. */
  datatype Settlement = Settlement(whole: nat, part: nat, none: nat)

  /**
   * Read off the chain alone: a proposal gave the tokens between its base and the next one's. An empty candidate
   * counts as whole.
   */
  function Settle(proposals: seq<Proposal>, gen: int): Settlement
    decreases |proposals|
  {
    if |proposals| == 0 then Settlement(0, 0, 0)
    else
      var n := |proposals|;
      var p := proposals[n - 1];
      var before := Settle(proposals[..n - 1], p.baseStateGeneration);
      var given := gen - p.baseStateGeneration;
      if given == |p.candidate| then before.(whole := before.whole + 1)
      else if given == 0 then before.(none := before.none + 1)
      else before.(part := before.part + 1)
  }

  predicate PhaseSound(rs: RequestState) {
    if rs.cancelled then rs.phase == Lifecycle.CancelRequested
    else rs.phase == Lifecycle.Ready || rs.phase == Lifecycle.ProposalDispatched
  }

  predicate BranchesSound(cfg: Config, rs: RequestState) {
    && (if rs.proposals == [] then rs.branches == [] else Numbered(rs.branches, cfg.BranchCount()))
    && ActiveCount(rs.branches) <= 1
    && (rs.cancelled ==> ActiveCount(rs.branches) == 0)
    && (forall i :: 0 <= i < |rs.proposals| ==> 1 <= rs.proposals[i].branch <= cfg.BranchCount())
  }

  /** The generations agree and count the tokens committed so far, which are the replayed ones. */
  predicate TokensSound(cfg: Config, rs: RequestState) {
    && rs.authGen == rs.authState.generation == rs.authStateGen == |rs.committed| - |rs.req.prefix|
    && Chain(rs.proposals, rs.authState.id, cfg.policy.maxDepth, rs.authGen)
    && rs.committed == rs.req.prefix + Replay(rs.proposals, rs.authState.id, cfg.policy.maxDepth, rs.authGen)
  }

  predicate CountersSound(cfg: Config, rs: RequestState) {
    && rs.completedCycles == |rs.proposals|
    && rs.attempt == 1 + rs.retryCount
    && (rs.req.maxAttempts != 0 ==> rs.retryCount <= rs.req.maxAttempts)
    && rs.epoch == cfg.epoch
    && rs.authState.id == cfg.stateId(rs.req.sequence)
    && (rs.proposals != [] ==> cfg.compatible(rs.req.draft, rs.req.target))
  }

  predicate RequestSound(cfg: Config, rs: RequestState) {
    PhaseSound(rs) && BranchesSound(cfg, rs) && TokensSound(cfg, rs) && CountersSound(cfg, rs)
  }

  // ---------------------------------------------------------------------------
  // What the ledger says of each proposal
  // ---------------------------------------------------------------------------

  /** The i-th proposal, counted from zero: its numbers, and the tokens accepted before it as its base. */
  lemma {:induction false} EachProposal(proposals: seq<Proposal>, stateId: nat, maxDepth: nat, gen: nat, i: nat)
    requires Chain(proposals, stateId, maxDepth, gen) && i < |proposals|
    ensures var p := proposals[i];
            && p.id == i + 1 && p.generation == i + 1
            && Chain(proposals[..i], stateId, maxDepth, p.baseStateGeneration)
            && p.baseStateGeneration == |Replay(proposals[..i], stateId, maxDepth, p.baseStateGeneration)| <= gen
            && Replay(proposals[..i], stateId, maxDepth, p.baseStateGeneration)
               <= Replay(proposals, stateId, maxDepth, gen)
    decreases |proposals|
  {
    var n := |proposals|;
    if i < n - 1 {
      EachProposal(proposals[..n - 1], stateId, maxDepth, proposals[n - 1].baseStateGeneration, i);
      assert proposals[..n - 1][..i] == proposals[..i];
    }
  }

  /** Each proposal adds at most the maximal depth. */
  lemma {:induction false} ReplayIsShort(proposals: seq<Proposal>, stateId: nat, maxDepth: nat, gen: nat)
    requires Chain(proposals, stateId, maxDepth, gen)
    ensures gen <= |proposals| * maxDepth
    decreases |proposals|
  {
    if |proposals| > 0 {
      var n := |proposals|;
      ReplayIsShort(proposals[..n - 1], stateId, maxDepth, proposals[n - 1].baseStateGeneration);
      assert n * maxDepth == (n - 1) * maxDepth + maxDepth;
    }
  }

  // ---------------------------------------------------------------------------
  // Phases
  // ---------------------------------------------------------------------------

  /** The events the engine applies, from the only phases its requests are ever in. */
  lemma EnginePhases(p: Lifecycle.Phase)
    requires p == Lifecycle.Ready || p == Lifecycle.ProposalDispatched
    ensures Dispatched(p) == Lifecycle.ProposalDispatched
    ensures Moved(p, Lifecycle.Cancel) == Lifecycle.CancelRequested
    ensures Moved(p, Lifecycle.EnterTerminal) == p
    ensures !Lifecycle.IsTerminal(p)
  {
    hide Lifecycle.Target, Lifecycle.TABLE;
    Lifecycle.EarlyCancel(p);
    Undeclared(p, Lifecycle.EnterTerminal);
    Steps(Lifecycle.Ready, Lifecycle.PlanProposal);
    Steps(Lifecycle.ProposalPlanned, Lifecycle.ReserveProposal);
    Steps(Lifecycle.ProposalReserved, Lifecycle.DispatchProposal);
    Undeclared(Lifecycle.ProposalDispatched, Lifecycle.PlanProposal);
    Undeclared(Lifecycle.ProposalDispatched, Lifecycle.ReserveProposal);
    Undeclared(Lifecycle.ProposalDispatched, Lifecycle.DispatchProposal);
  }

  lemma Steps(p: Lifecycle.Phase, e: Lifecycle.Event)
    requires !p.Terminal? && e == Lifecycle.SomeExit(p)
    ensures Moved(p, e) == Lifecycle.Destination(p, e)
  {
    hide Lifecycle.Target, Lifecycle.TABLE;
    Lifecycle.ExitIsDeclared(p);
    Lifecycle.Declared(p, e);
  }

  /** An event whose row would break the law of the table is not declared. */
  lemma Undeclared(p: Lifecycle.Phase, e: Lifecycle.Event)
    requires !Lifecycle.RowLaw(Lifecycle.Transition(p, e, Lifecycle.Destination(p, e)))
    ensures Lifecycle.Target(p, e) == None && Moved(p, e) == p
  {
    hide Lifecycle.Target, Lifecycle.TABLE;
    if Lifecycle.Target(p, e).Some? {
      Lifecycle.Declared(p, e);
    }
  }

  lemma CancelledPhase()
    ensures Moved(Lifecycle.CancelRequested, Lifecycle.EnterTerminal) == Lifecycle.CancelRequested
  {
    Undeclared(Lifecycle.CancelRequested, Lifecycle.EnterTerminal);
  }

  /** The events of the commit block are all undeclared in the phases it can find. */
  lemma Ignored(p: Lifecycle.Phase, e: Lifecycle.Event)
    requires p == Lifecycle.Ready || p == Lifecycle.ProposalDispatched
    requires e in [Lifecycle.ProposalFinished, Lifecycle.PlanVerification, Lifecycle.ReserveVerification,
                   Lifecycle.DispatchVerification, Lifecycle.VerificationFinished, Lifecycle.AcceptFull,
                   Lifecycle.AcceptPartial, Lifecycle.RejectAll, Lifecycle.Commit, Lifecycle.Rollback]
    ensures Lifecycle.Target(p, e) == None && Moved(p, e) == p
  {
    hide Lifecycle.Target, Lifecycle.TABLE;
    Undeclared(p, e);
  }

  /**
   * The commit block never applies the events that start the proposal and the verification, so none of its own ever
   * applies either: whatever the verdict, the reported phase is the default.
   */
  lemma ReportedPhaseIsReady(rs: RequestState, kind: CycleKind)
    requires PhaseSound(rs) && !rs.cancelled
    ensures ReportedPhase(rs.phase, kind) == Lifecycle.Ready
  {
    hide Lifecycle.Target, Moved;
    Ignored(rs.phase, Lifecycle.ProposalFinished);
    Ignored(rs.phase, Lifecycle.PlanVerification);
    Ignored(rs.phase, Lifecycle.ReserveVerification);
    Ignored(rs.phase, Lifecycle.DispatchVerification);
    Ignored(rs.phase, Lifecycle.VerificationFinished);
    Ignored(rs.phase, VerdictEvent(kind));
    Ignored(rs.phase, ClosingEvent(kind));
  }

  // ---------------------------------------------------------------------------
  // What a cycle reports
  // ---------------------------------------------------------------------------

  /**
   * The commit block's reply against the ledger it leaves, for every live request: the verdict by the tokens appended,
   * the counts, the proposal's numbers and the restored point; and the ratio it records is accepted over proposed.
   */
  lemma CommitReports(s: State, id: nat, depth: nat, candidates: seq<seq<Token>>, accepted: seq<nat>)
    requires id in s.requests && !s.requests[id].cancelled && !s.requests[id].terminal
    requires s.requests[id].authGen == s.requests[id].authState.generation == s.requests[id].authStateGen
    requires Answered(candidates, accepted)
    ensures var reply := Engine.Commit(s, id, depth, candidates, accepted);
            && reply.value.Ok? && id in reply.state.requests
            && var before, after, o := s.requests[id], reply.state.requests[id], reply.value.value;
               && |after.proposals| == |before.proposals| + 1
               && var p := after.proposals[|before.proposals|];
                  && (o.kind == FullAccepted <==> after.committed == before.committed + p.candidate)
                  && (o.kind == AllRejected <==> after.committed == before.committed && p.candidate != [])
                  && (o.kind == PartiallyAccepted
                      <==> |before.committed| < |after.committed| < |before.committed| + |p.candidate|)
                  && o.acceptedTokens == |after.committed| - |before.committed|
                  && o.acceptedTokens + o.rejectedTokens == o.proposedTokens == |p.candidate|
                  && o.proposal == p.id && o.branch == p.branch && o.depth == depth
                  && o.generation == after.authGen == before.authGen + o.acceptedTokens
                  && o.rollback.rejectedTokens == o.rejectedTokens && o.rollback.acceptedPrefix == o.acceptedTokens
                  && o.rollback.restoredGeneration == after.authGen && o.rollback.restoredState == after.authState
                  && o.rollback.restoredStateGeneration == after.authStateGen
                  && |reply.state.history| > 0
                  && reply.state.history[|reply.state.history| - 1] * (|p.candidate| as real)
                     == (o.acceptedTokens as real)
  {
    hide RetireOthers, Lifecycle.Target, Moved, ReportedPhase, Selection.Winner;
    var w := Selection.Winner(Ballots(accepted));
    RatioTimesLength(accepted[w], |candidates[w]|);
    var before, k := s.requests[id].committed, accepted[w];
    AppendedWhole(before, candidates[w], k);
  }

  lemma RatioTimesLength(k: nat, length: nat)
    requires k <= length
    ensures RatioOf(k, length) * (length as real) == k as real
  {
    if length > 0 {
      WholeQuotient(k as real, length as real);
    }
  }

  lemma WholeQuotient(x: real, n: real)
    requires n > 0.0
    ensures x / n * n == x
  {
  }

  lemma AppendedWhole(before: seq<Token>, candidate: seq<Token>, k: nat)
    requires k <= |candidate|
    ensures |before + candidate[..k]| == |before| + k
    ensures k == |candidate| <==> before + candidate[..k] == before + candidate
    ensures k == 0 <==> before + candidate[..k] == before
  {
    if k == |candidate| {
      assert candidate[..k] == candidate;
    } else {
      assert |before + candidate[..k]| < |before + candidate|;
    }
  }

  // ---------------------------------------------------------------------------
  // Every block keeps the ledger
  // ---------------------------------------------------------------------------

  lemma AdmittedSound(cfg: Config, req: Request)
    ensures RequestSound(cfg, Admitted(cfg, BLANK, req))
  {
  }

  lemma CancelledSound(cfg: Config, rs: RequestState)
    requires RequestSound(cfg, rs) && !rs.cancelled
    ensures RequestSound(cfg, rs.(phase := Moved(rs.phase, Lifecycle.Cancel), branches := AllRetired(rs.branches),
        cancelled := true))
  {
    hide Moved, ActiveCount, Chain, Replay;
    EnginePhases(rs.phase);
    AllRetiredCount(rs.branches);
  }

  lemma CompletedSound(cfg: Config, rs: RequestState)
    requires RequestSound(cfg, rs)
    ensures RequestSound(cfg, rs.(terminal := true, phase := Moved(rs.phase, Lifecycle.EnterTerminal)))
  {
    hide Moved, ActiveCount, Chain, Replay;
    if rs.cancelled {
      CancelledPhase();
    } else {
      EnginePhases(rs.phase);
    }
  }

  lemma RetriedSound(cfg: Config, rs: RequestState)
    requires RequestSound(cfg, rs) && !rs.cancelled
    requires !(rs.req.maxAttempts != 0 && rs.retryCount >= rs.req.maxAttempts)
    ensures RequestSound(cfg, rs.(attempt := rs.attempt + 1, retryCount := rs.retryCount + 1, phase := Lifecycle.Ready))
  {
    hide ActiveCount, Chain, Replay;
  }

  lemma RolledBackSound(cfg: Config, rs: RequestState)
    requires RequestSound(cfg, rs)
    ensures RequestSound(cfg, rs.(branches := AllRetired(rs.branches)))
  {
    hide ActiveCount, Chain, Replay;
    AllRetiredCount(rs.branches);
  }

  lemma DispatchedSound(cfg: Config, rs: RequestState)
    requires RequestSound(cfg, rs) && !rs.cancelled
    ensures !Lifecycle.IsTerminal(rs.phase)
    ensures RequestSound(cfg, rs.(phase := Dispatched(rs.phase)))
  {
    hide Dispatched, ActiveCount, Chain, Replay;
    EnginePhases(rs.phase);
  }

  /** Appending a proposal that was accepted up to k extends the chain and the replay. */
  lemma ChainGrows(proposals: seq<Proposal>, p: Proposal, stateId: nat, maxDepth: nat, gen: nat, k: nat)
    requires Chain(proposals, stateId, maxDepth, gen)
    requires p.id == p.generation == |proposals| + 1 && p.branch >= 1
    requires p.baseState == StateRef(stateId, gen) && p.baseStateGeneration == gen
    requires 1 <= |p.candidate| <= maxDepth && k <= |p.candidate| && (p.committed <==> k > 0)
    ensures Chain(proposals + [p], stateId, maxDepth, gen + k)
    ensures Replay(proposals + [p], stateId, maxDepth, gen + k)
            == Replay(proposals, stateId, maxDepth, gen) + p.candidate[..k]
  {
    assert (proposals + [p])[..|proposals|] == proposals;
  }

  lemma CommittedSound(cfg: Config, rs: RequestState, w: nat, candidate: seq<Token>, k: nat)
    requires RequestSound(cfg, rs) && !rs.cancelled && cfg.compatible(rs.req.draft, rs.req.target)
    requires w < cfg.BranchCount() && 1 <= |candidate| <= cfg.policy.maxDepth && k <= |candidate|
    ensures RequestSound(cfg, Committed(rs, cfg.BranchCount(), w, candidate, k))
  {
    hide ActiveCount, Chain, Replay, RetireOthers;
    var n := cfg.BranchCount();
    var after := Committed(rs, n, w, candidate, k);
    var p := after.proposals[|rs.proposals|];
    ChainGrows(rs.proposals, p, rs.authState.id, cfg.policy.maxDepth, rs.authGen, k);
    CommitRetiresLosers(rs.branches, Branch(0, rs.attempt, rs.completedCycles + 1, rs.authGen + k, false), n, w + 1);
    var before := Replay(rs.proposals, rs.authState.id, cfg.policy.maxDepth, rs.authGen);
    assert after.committed == rs.req.prefix + (before + candidate[..k]);
  }

  /** What a commit does to the branches, in terms of the request. */
  lemma CommittedBranches(cfg: Config, rs: RequestState, w: nat, candidate: seq<Token>, k: nat, depth: nat)
    requires RequestSound(cfg, rs) && w < cfg.BranchCount() && k <= |candidate|
    ensures var n := cfg.BranchCount();
            var after := Committed(rs, n, w, candidate, k);
            && Numbered(after.branches, n)
            && (forall i :: 0 <= i < n && i != w ==> after.branches[i].retired)
            && (!after.branches[w].retired <==> rs.proposals == [] || !rs.branches[w].retired)
            && Outcome(rs, after, n, w, depth, |candidate|, k).rollback.retiredBranches
               == (if rs.proposals == [] then 2 * (n - 1) else n - 1)
  {
    hide ActiveCount, Chain, Replay, RetireOthers, ReportedPhase;
    CommitRetiresLosers(
      rs.branches, Branch(0, rs.attempt, rs.completedCycles + 1, rs.authGen + k, false), cfg.BranchCount(), w + 1);
  }
}
