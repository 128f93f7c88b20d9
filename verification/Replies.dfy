/** What the engine's blocks answer, and exactly when. */
module Replies {
  import opened Words
  import opened Executors
  import opened Policy
  import opened Engine
  import opened Ledger
  import opened EngineRuns
  import Branches
  import Lifecycle

  // ---------------------------------------------------------------------------
  // Control blocks
  // ---------------------------------------------------------------------------

  /** Cancelling works once for a request that is not completed, repeats without effect, and retires every branch. */
  lemma CancelReplies(s: State, id: nat)
    ensures var r := Engine.Cancel(s, id);
            && (r.value == Err(NotFound) <==> id !in s.requests)
            && (r.value == Err(AlreadyTerminal) <==>
                  id in s.requests && s.requests[id].terminal && !s.requests[id].cancelled)
            && (r.value.Ok? <==> id in r.state.requests && r.state.requests[id].cancelled)
            && (r.value.Ok? ==> Engine.Cancel(r.state, id) == Reply(r.state, Ok(())))
            && (r.value.Ok? && r.state != s ==> ActiveCount(r.state.requests[id].branches) == 0)
            && (r.value.Err? ==> r.state == s)
  {
    hide Moved, ActiveCount;
    if id in s.requests {
      Branches.AllRetiredCount(s.requests[id].branches);
    }
  }

  /**
   * Completing works for every known request, cancelled ones too, and repeats without effect on anything but the
   * phase.
   */
  lemma CompleteReplies(s: State, id: nat)
    ensures var r := Engine.Complete(s, id);
            && (r.value.Ok? <==> id in s.requests) && (r.value.Err? ==> r == Reply(s, Err(NotFound)))
            && (r.value.Ok? ==>
                  && id in r.state.requests && r.state.requests[id].terminal && r.state.stats == s.stats
                  && r.state.requests[id].cancelled == s.requests[id].cancelled)
  {
    hide Moved;
  }

  /**
   * A retry of a sound request: the attempt limit speaks first, then whether it is finished; otherwise the reply is
   * the next attempt, and tokens, generations, proposals and branches stay.
   */
  lemma RetryReplies(cfg: Config, s: State, id: nat)
    requires id in s.requests ==> RequestSound(cfg, s.requests[id])
    ensures var r := Engine.Retry(s, id);
            && (r.value == Err(NotFound) <==> id !in s.requests)
            && (id in s.requests ==>
                  var rs, limit := s.requests[id], s.requests[id].req.maxAttempts;
                  && (r.value == Err(RetryLimit) <==> limit != 0 && rs.attempt > limit)
                  && (r.value == Err(InvalidState) <==>
                        (limit == 0 || rs.attempt <= limit) && (rs.terminal || rs.cancelled))
                  && (r.value.Ok? ==>
                        && r.value.value == rs.attempt + 1 && id in r.state.requests
                        && r.state.requests[id]
                           == rs.(attempt := rs.attempt + 1, retryCount := rs.attempt, phase := Lifecycle.Ready)))
            && (r.value.Err? ==> r.state == s)
  {
    hide PhaseSound, BranchesSound, TokensSound;
  }

  /** The tokens of the proposals that gave none, read off the bases alone. */
  function InVain(proposals: seq<Proposal>, gen: int): nat
    decreases |proposals|
  {
    if |proposals| == 0 then 0
    else
      var p := proposals[|proposals| - 1];
      InVain(proposals[..|proposals| - 1], p.baseStateGeneration)
      + if gen == p.baseStateGeneration then |p.candidate| else 0
  }

  lemma {:induction false} UncommittedAreInVain(proposals: seq<Proposal>, stateId: nat, maxDepth: nat, gen: nat)
    requires Chain(proposals, stateId, maxDepth, gen)
    ensures UncommittedTokens(proposals) == InVain(proposals, gen)
    decreases |proposals|
  {
    if |proposals| > 0 {
      UncommittedAreInVain(proposals[..|proposals| - 1], stateId, maxDepth,
                           proposals[|proposals| - 1].baseStateGeneration);
    }
  }

  /** A rollback by hand reports the authoritative point and what was proposed in vain, and takes back nothing. */
  lemma RollbackReports(cfg: Config, s: State, id: nat)
    requires id in s.requests && RequestSound(cfg, s.requests[id])
    ensures var rs, r := s.requests[id], Engine.Rollback(s, id);
            && r.value.Ok? && id in r.state.requests
            && r.state.requests[id].committed == rs.committed && r.state.requests[id].authGen == rs.authGen
            && ActiveCount(r.state.requests[id].branches) == 0
            && var o := r.value.value;
               && o.acceptedPrefix == |rs.committed| && o.restoredState == rs.authState
               && o.restoredGeneration == o.restoredStateGeneration == |rs.committed| - |rs.req.prefix|
               && o.retiredBranches == ActiveCount(rs.branches) <= 1
               && o.rejectedTokens == InVain(rs.proposals, rs.authGen)
  {
    hide PhaseSound, CountersSound, Chain, Replay, ActiveCount, InVain, UncommittedTokens;
    var rs := s.requests[id];
    UncommittedAreInVain(rs.proposals, rs.authState.id, cfg.policy.maxDepth, rs.authGen);
    Branches.AllRetiredCount(rs.branches);
  }

  // ---------------------------------------------------------------------------
  // Planning
  // ---------------------------------------------------------------------------

  /** The depth that is planned: the interactive cap holds only without adaptation. */
  lemma PlannedDepths(policy: ProposalPolicy, history: seq<real>)
    requires 1 <= policy.maxDepth <= MAX_DEPTH
    ensures var d := PlannedDepth(policy, history);
            && (!policy.adaptiveDepthEnabled && policy.latency != Interactive ==> d == policy.maxDepth)
            && (!policy.adaptiveDepthEnabled && policy.latency == Interactive ==> d == Min(2, policy.maxDepth))
            && (policy.adaptiveDepthEnabled && history == [] ==> d == policy.maxDepth)
            && (policy.adaptiveDepthEnabled && history != [] ==>
                  d == Min(policy.maxDepth, Max(1, Signed32(Round(Earned(policy.maxDepth, Average(history)))))))
  {
    hide Round, Signed32, Average, ScaledDepth;
  }

  predicate Finished(rs: RequestState, now: nat) {
    rs.terminal || rs.cancelled || (rs.req.deadline.Some? && rs.req.deadline.value < now)
  }

  /** What stops speculation, without a quotient: the ratio of an engine that has proposed nothing is one. */
  predicate Stopped(policy: ProposalPolicy, outstanding: nat, stats: Stats) {
    || !policy.speculatingEnabled
    || 0 < policy.maxOutstanding <= outstanding
    || (policy.minAcceptanceRatio > 0.0
        && (if stats.tokensProposed == 0 then policy.minAcceptanceRatio > 1.0
            else (stats.tokensAccepted as real) < policy.minAcceptanceRatio * (stats.tokensProposed as real)))
  }

  lemma StoppedIsBackpressure(policy: ProposalPolicy, outstanding: nat, stats: Stats)
    ensures Backpressure(policy, outstanding, AcceptanceRatio(stats)) <==> Stopped(policy, outstanding, stats)
  {
    if stats.tokensProposed != 0 {
      BelowIff(stats.tokensAccepted as real, stats.tokensProposed as real, policy.minAcceptanceRatio);
    }
  }

  lemma BelowIff(x: real, n: real, bound: real)
    requires n > 0.0
    ensures x / n < bound <==> x < bound * n
  {
    var q := x / n;
    assert q * n == x;
    if q < bound {
      assert (bound - q) * n > 0.0;
    } else {
      assert (q - bound) * n >= 0.0;
    }
  }

  /** The prepare block's outcome for every request and policy, and all it leaves changed besides a phase. */
  lemma PrepareReplies(cfg: Config, s: State, id: nat, now: nat)
    requires cfg.Valid()
    ensures var r := Engine.Prepare(cfg, s, id, now);
            && (r.value == Err(NotFound) <==> id !in s.requests)
            && (id in s.requests ==>
                  var rs := s.requests[id];
                  var fit := cfg.compatible(rs.req.draft, rs.req.target);
                  var stopped := Stopped(cfg.policy, |rs.proposals|, s.stats);
                  && r.value.Ok?
                  && (r.value.value == Superseded <==> rs.terminal)
                  && (r.value.value == Cancelled <==> rs.cancelled && !rs.terminal)
                  && (r.value.value == Expired <==> Finished(rs, now) && !rs.cancelled && !rs.terminal)
                  && (r.value.value == Incompatible <==> !Finished(rs, now) && !fit)
                  && (r.value.value == Bypassed <==> !Finished(rs, now) && fit && stopped)
                  && (r.value.value == NoExecutor <==> !Finished(rs, now) && fit && !stopped && !cfg.executors)
                  && (r.value.value.Planned? <==> !Finished(rs, now) && fit && !stopped && cfg.executors)
                  && (r.value.value.Planned? ==>
                        && r.value.value.depth == PlannedDepth(cfg.policy, s.history)
                        && r.value.value.branches == Max(1, cfg.policy.maxBranches))
                  && r.state.stats == s.stats.(
                       bypasses := s.stats.bypasses + if r.value.value == Bypassed then 1 else 0))
            && r.state.requests.Keys == s.requests.Keys && r.state.history == s.history
            && forall other :: other in s.requests && other != id ==> r.state.requests[other] == s.requests[other]
  {
    hide PlannedDepth, AcceptanceRatio, Backpressure, Stopped, Dispatched, Lifecycle.IsTerminal;
    if id in s.requests {
      StoppedIsBackpressure(cfg.policy, |s.requests[id].proposals|, s.stats);
    }
  }

  // ---------------------------------------------------------------------------
  // Late commits
  // ---------------------------------------------------------------------------

  /**
   * A commit is refused exactly for an absent or finished request, and a refusal leaves one more late answer counted.
   */
  lemma CommitRefusals(s: State, id: nat, depth: nat, candidates: seq<seq<Token>>, accepted: seq<nat>)
    requires Answered(candidates, accepted)
    ensures var r := Engine.Commit(s, id, depth, candidates, accepted);
            && (r.value == Err(NotFound) <==> id !in s.requests)
            && (r.value == Err(AfterTerminal) <==> id in s.requests && s.requests[id].terminal)
            && (r.value == Err(AfterCancellation)
                <==> id in s.requests && s.requests[id].cancelled && !s.requests[id].terminal)
            && (r.value.Ok? <==> id in s.requests && !s.requests[id].terminal && !s.requests[id].cancelled)
            && (r.value.Err? ==>
                  && r.state.requests == s.requests && r.state.history == s.history
                  && r.state.stats == s.stats.(
                       rejectedStale := s.stats.rejectedStale + if id in s.requests then 1 else 0))
  {
    hide Selection.Winner;
  }

  // ---------------------------------------------------------------------------
  // The declared gate
  // ---------------------------------------------------------------------------

  lemma GenerationsAreNumbers(cfg: Config, rs: RequestState, g: nat)
    requires RequestSound(cfg, rs)
    ensures (exists p :: p in rs.proposals && p.generation == g) <==> 1 <= g <= |rs.proposals|
  {
    hide PhaseSound, BranchesSound, CountersSound, Replay;
    forall i | 0 <= i < |rs.proposals|
      ensures rs.proposals[i].generation == i + 1
    {
      EachProposal(rs.proposals, rs.authState.id, cfg.policy.maxDepth, rs.authGen, i);
    }
    if 1 <= g <= |rs.proposals| {
      assert rs.proposals[g - 1] in rs.proposals;
    }
  }

  /** The gate's answer for a sound request, in the order it asks, and the counter each refusal raises. */
  lemma GateReplies(cfg: Config, s: State, rs: RequestState, epoch: nat, attempt: nat, baseGen: nat, propGen: nat)
    requires RequestSound(cfg, rs)
    ensures var r := Engine.CheckAuthority(s, rs, epoch, attempt, baseGen, propGen);
            var live, timely := !rs.terminal && !rs.cancelled, epoch == 0 || epoch >= cfg.epoch;
            && (r.value == Err(AfterTerminal) <==> rs.terminal)
            && (r.value == Err(AfterCancellation) <==> rs.cancelled && !rs.terminal)
            && (r.value == Err(StaleEpoch) <==> live && !timely)
            && (r.value == Err(StaleAttempt) <==> live && timely && attempt != rs.attempt)
            && (r.value == Err(WrongBase) <==> live && timely && attempt == rs.attempt && baseGen != rs.authGen)
            && (r.value == Err(StaleProposalGeneration) <==>
                  live && timely && attempt == rs.attempt && baseGen == rs.authGen && propGen > |rs.proposals|)
            && (r.value == Ok(()) <==>
                  live && timely && attempt == rs.attempt && baseGen == rs.authGen && propGen <= |rs.proposals|)
            && r.state == s.(stats := s.stats.(
                 staleByEpoch := s.stats.staleByEpoch + (if r.value == Err(StaleEpoch) then 1 else 0),
                 staleByAttempt := s.stats.staleByAttempt + (if r.value == Err(StaleAttempt) then 1 else 0),
                 staleByGeneration := s.stats.staleByGeneration
                   + (if r.value == Err(WrongBase) || r.value == Err(StaleProposalGeneration) then 1 else 0)))
  {
    hide PhaseSound, BranchesSound, TokensSound;
    if propGen != 0 {
      GenerationsAreNumbers(cfg, rs, propGen);
    }
  }

  // ---------------------------------------------------------------------------
  // The history
  // ---------------------------------------------------------------------------

  /** The engine keeps at most 32 ratios, one for each of its latest cycles. */
  predicate Remembers(s: State) {
    |s.history| == Min(32, s.stats.cyclesStarted)
  }

  lemma NextRemembers(cfg: Config, gate: Gate, y: System, a: Action)
    requires cfg.Valid() && RequestsSound(cfg, y.state) && FlightsSound(cfg, y) && Remembers(y.state)
    ensures Remembers(Next(cfg, gate, y, a).state)
  {
    hide RequestSound, Moved, AllRetired, UncommittedTokens, ActiveCount, Engine.Prepare, Committed, Outcome,
         RatioOf, KindOf, Admitted, Ballots;
    if Allowed(cfg, y, a) && a.Prepare? && a.id in y.state.requests {
      PrepareStats(cfg, y.state, a.id, a.now);
      PrepareEvolves(cfg, y.state, a.id, a.now);
    }
  }

  lemma {:induction false} HistoryIsShort(cfg: Config, gate: Gate, y: System, actions: seq<Action>)
    requires cfg.Valid() && Sound(cfg, y) && Remembers(y.state)
    ensures Remembers(Run(cfg, gate, y, actions).state)
    decreases |actions|
  {
    hide RequestsSound, FlightsSound, BooksBalance, Next, Remembers;
    if |actions| > 0 {
      NextRemembers(cfg, gate, y, actions[0]);
      NextEvolves(cfg, gate, y, actions[0]);
      NextBalances(cfg, gate, y, actions[0]);
      HistoryIsShort(cfg, gate, Next(cfg, gate, y, actions[0]), actions[1..]);
    }
  }

  // ---------------------------------------------------------------------------
  // What is asked for is what is recorded
  // ---------------------------------------------------------------------------

  /**
   * A commit that finds its request where the captures found it records the proposal its winner was asked for: its
   * envelope is the proposer's and the verifier's input, and the branches of a first cycle carry the same attempt and
   * cycle.
   */
  lemma RecordedAsAsked(cfg: Config, rs: RequestState, depth: u32, w: nat, candidate: seq<Token>, k: nat)
    requires RequestSound(cfg, rs) && w < cfg.BranchCount() && k <= |candidate|
    ensures var n := cfg.BranchCount();
            var after := Committed(rs, n, w, candidate, k);
            var asked, checked := ProposalCapture(cfg, rs, depth, w), VerificationCapture(rs, w, candidate);
            && |after.proposals| == |rs.proposals| + 1
            && var p := after.proposals[|rs.proposals|];
               && p.epoch == asked.epoch == checked.epoch == cfg.epoch
               && p.attempt == asked.attempt == checked.attempt
               && p.branch == asked.branch == checked.branch == asked.branchIndex + 1
               && p.generation == asked.cycle == |rs.proposals| + 1
               && p.baseState == asked.baseState == checked.baseState
               && p.baseStateGeneration == asked.baseGeneration == checked.baseGeneration == checked.baseStateGeneration
               && p.candidate == checked.candidate == candidate
               && asked.request == checked.request == rs.req.id && asked.sequence == checked.sequence == rs.req.sequence
               && asked.depth == depth && asked.branchCount == n && asked.computeBudget == 0
               && asked.seed == cfg.seed(rs.req.id, rs.attempt)
               && asked.proposer == checked.proposer == rs.req.draft && checked.verifier == rs.req.target
               && checked.tokenizer == rs.req.draft.tokenizer && checked.vocabSize == 4096
               && (rs.proposals == [] ==>
                     && |after.branches| == n
                     && forall i :: 0 <= i < n ==>
                          after.branches[i] == Branch(i + 1, p.attempt, p.generation, after.authGen, i != w))
  {
    hide PhaseSound, Chain, Replay, ActiveCount, RetireOthers;
    if rs.proposals == [] {
      Branches.FirstCycle(
        Branch(0, rs.attempt, rs.completedCycles + 1, rs.authGen + k, false), cfg.BranchCount(), w + 1);
    }
  }
}
