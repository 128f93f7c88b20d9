/** Cycles with the shipped CPU executors: what each one appends, and exactly when that is only verified tokens. */
module CpuCycles {
  import opened Words
  import Synthetic
  import opened Executors
  import opened Policy
  import opened Engine
  import opened Serializability
  import opened EngineRuns
  import Selection

  /** The shipped executors; the verifier's answer is its literal counter. */
  function Shipped(a: Synthetic.Arithmetic, aligned: u32): Pair {
    Pair((input: ProposalInput) => Candidate(a, aligned, input),
         (input: VerificationInput) => VerifySpec(a, input).acceptedPrefix)
  }

  /** The same with the acceptance the contract promises: the leading prefix. */
  function Promised(a: Synthetic.Arithmetic, aligned: u32): Pair {
    Pair((input: ProposalInput) => Candidate(a, aligned, input),
         (input: VerificationInput) => VerifySpec(a, input).firstRejection)
  }

  /** What the engine takes for the accepted length: the verifier's counter, or the leading prefix. */
  datatype Acceptance = Counter | LeadingPrefix

  function Cpu(a: Synthetic.Arithmetic, aligned: u32, acceptance: Acceptance): Pair {
    if acceptance == Counter then Shipped(a, aligned) else Promised(a, aligned)
  }

  /** Both are functions of what they are told and ignore the cycle number, so guarded runs with them serialize. */
  lemma ShippedAreDeterministic(a: Synthetic.Arithmetic, aligned: u32)
    ensures Deterministic(Shipped(a, aligned)) && Deterministic(Promised(a, aligned))
  {
    hide Source.Draft, Source.TargetPath, Matches;
  }

  /** The path the verifier expects from a request's present base. */
  function BaseOf(a: Synthetic.Arithmetic, rs: RequestState, depth: u32): Source {
    SourceOf(a, rs.authState, rs.authGen, rs.req.draft, depth)
  }

  /** One branch of a cycle: its draft starts with the target path and is accepted at least that far. */
  lemma BranchAnswers(cfg: Config, a: Synthetic.Arithmetic, aligned: u32, rs: RequestState, depth: u32, b: nat)
    requires 1 <= depth <= MAX_DEPTH && rs.req.draft.tokenizer != 0 && b < cfg.BranchCount()
    ensures var m := Min(aligned, depth);
            var candidate := Drafts(cfg, Shipped(a, aligned), rs, depth)[b];
            var verdict := VerifySpec(a, VerificationCapture(rs, b, candidate));
            && |candidate| == depth && candidate[..m] == BaseOf(a, rs, depth).TargetPath(m)
            && m <= verdict.firstRejection <= verdict.acceptedPrefix <= depth
            && (verdict.firstRejection == m <==> aligned >= depth || (b + 1) % Synthetic.VOCAB != 0)
  {
    hide Source.Draft, Source.TargetPath, Matches, ProposeSpec, VerifySpec;
    var input := ProposalCapture(cfg, rs, depth, b);
    var candidate := Candidate(a, aligned, input);
    var v := VerificationCapture(rs, b, candidate);
    ProposedCandidate(a, aligned, input);
    ProposalIsRejectedAtItsBoundary(a, aligned, input, v);
    var m := Min(aligned, depth);
    PathsExtend(BaseOf(a, rs, depth), aligned, b, m, depth);
    DraftIsAligned(BaseOf(a, rs, depth), aligned, b, m);
  }

  lemma ProposedCandidate(a: Synthetic.Arithmetic, aligned: u32, input: ProposalInput)
    requires 1 <= input.depth <= MAX_DEPTH && input.computeBudget == 0
    ensures ProposeSpec(a, aligned, input).candidate == Some(Candidate(a, aligned, input))
  {
    hide Candidate;
  }

  /** The tokens a cycle appends. */
  function Appended(before: RequestState, after: RequestState): seq<Token>
    requires |before.committed| <= |after.committed|
  {
    after.committed[|before.committed|..]
  }

  /** The shipped executors keep the engine's contract. */
  lemma ShippedAnswer(cfg: Config, a: Synthetic.Arithmetic, aligned: u32, rs: RequestState, depth: u32)
    requires 1 <= depth <= MAX_DEPTH
    ensures var drafts := Drafts(cfg, Shipped(a, aligned), rs, depth);
            Answered(drafts, Verdicts(cfg, Shipped(a, aligned), rs, drafts))
  {
    hide Candidate, VerifySpec;
    var drafts := Drafts(cfg, Shipped(a, aligned), rs, depth);
    forall b: nat | b < |drafts|
      ensures Verdicts(cfg, Shipped(a, aligned), rs, drafts)[b] <= |drafts[b]| == depth
    {
      assert drafts[b] == Candidate(a, aligned, ProposalCapture(cfg, rs, depth, b));
      VerdictIsBounded(a, VerificationCapture(rs, b, drafts[b]));
    }
  }

  lemma VerdictIsBounded(a: Synthetic.Arithmetic, v: VerificationInput)
    ensures VerifySpec(a, v).acceptedPrefix <= |v.candidate|
  {
    hide Source.TargetPath, Matches;
  }

  /**
   * A cycle with the shipped executors appends a block of at most `depth` tokens that starts with the first
   * min(aligned, depth) tokens of the target path for its base.
   */
  lemma CycleAppendsTargetPath(cfg: Config, a: Synthetic.Arithmetic, aligned: u32, s: State, id: nat, depth: u32)
    requires id in s.requests && !s.requests[id].cancelled && !s.requests[id].terminal
    requires 1 <= depth <= MAX_DEPTH && s.requests[id].req.draft.tokenizer != 0
    ensures var m := Min(aligned, depth);
            var rs, after := s.requests[id], AtomicCycle(cfg, Shipped(a, aligned), s, id, depth);
            && id in after.requests && rs.committed <= after.requests[id].committed
            && after.requests[id].completedCycles == rs.completedCycles + 1
            && var block := Appended(rs, after.requests[id]);
               m <= |block| <= depth && block[..m] == BaseOf(a, rs, depth).TargetPath(m)
  {
    hide VerifySpec, Source.Draft, Source.TargetPath, Candidate, AtomicCycle, Selection.Winner;
    var x := Shipped(a, aligned);
    var rs := s.requests[id];
    var drafts := Drafts(cfg, x, rs, depth);
    var verdicts := Verdicts(cfg, x, rs, drafts);
    forall b: nat | b < |drafts|
      ensures Min(aligned, depth) <= verdicts[b] <= |drafts[b]| == depth
      ensures drafts[b][..Min(aligned, depth)] == BaseOf(a, rs, depth).TargetPath(Min(aligned, depth))
    {
      BranchAnswers(cfg, a, aligned, rs, depth, b);
    }
    CycleCommits(cfg, x, s, id, depth);
    var w := Selection.Winner(Ballots(verdicts));
    var m := Min(aligned, depth);
    assert drafts[w][..verdicts[w]][..m] == drafts[w][..m];
    var after := AtomicCycle(cfg, x, s, id, depth);
    assert Appended(rs, after.requests[id]) == drafts[w][..verdicts[w]];
  }

  lemma AllEqualFirstWins(accepted: seq<nat>, m: nat)
    requires |accepted| > 0 && forall i :: 0 <= i < |accepted| ==> accepted[i] == m
    ensures Selection.Winner(Ballots(accepted)) == 0
  {
    hide Selection.Winner;
    Selection.FirstOfTheBest(Ballots(accepted), 0);
  }

  /** One cycle that appended these tokens and nothing else, with branch 1 as its winner. */
  predicate AppendedExactly(before: RequestState, after: RequestState, block: seq<Token>) {
    && after.req == before.req && after.completedCycles == before.completedCycles + 1
    && after.committed == before.committed + block
    && after.authGen == before.authGen + |block|
    && after.authState == StateRef(before.authState.id, before.authState.generation + |block|)
    && |after.proposals| == |before.proposals| + 1 && before.proposals <= after.proposals
    && after.proposals[|before.proposals|].branch == 1
    && after.cancelled == before.cancelled && after.terminal == before.terminal
  }

  /**
   * With the acceptance the contract promises, and fewer branches than the vocabulary has tokens, a cycle appends
   * exactly those tokens and nothing else, and branch 1 wins.
   */
  lemma PromisedCycleAppendsExactly(cfg: Config, a: Synthetic.Arithmetic, aligned: u32, s: State, id: nat, depth: u32)
    requires id in s.requests && !s.requests[id].cancelled && !s.requests[id].terminal
    requires 1 <= depth <= MAX_DEPTH && s.requests[id].req.draft.tokenizer != 0 && cfg.BranchCount() < Synthetic.VOCAB
    ensures var m := Min(aligned, depth);
            var rs, after := s.requests[id], AtomicCycle(cfg, Promised(a, aligned), s, id, depth);
            id in after.requests && AppendedExactly(rs, after.requests[id], BaseOf(a, rs, depth).TargetPath(m))
  {
    hide VerifySpec, Source.Draft, Source.TargetPath, Candidate, AtomicCycle, Selection.Winner, Min;
    var x := Promised(a, aligned);
    var rs := s.requests[id];
    var drafts := Drafts(cfg, x, rs, depth);
    assert drafts == Drafts(cfg, Shipped(a, aligned), rs, depth);
    var verdicts := Verdicts(cfg, x, rs, drafts);
    forall b: nat | b < |drafts|
      ensures Min(aligned, depth) == verdicts[b] <= |drafts[b]| == depth
      ensures drafts[b][..Min(aligned, depth)] == BaseOf(a, rs, depth).TargetPath(Min(aligned, depth))
    {
      BranchAnswers(cfg, a, aligned, rs, depth, b);
      SmallBranch(b);
    }
    CycleCommits(cfg, x, s, id, depth);
    AllEqualFirstWins(verdicts, Min(aligned, depth));
  }

  lemma SmallBranch(b: nat)
    requires b + 1 < Synthetic.VOCAB
    ensures (b + 1) % Synthetic.VOCAB != 0
  {
  }

  // ---------------------------------------------------------------------------
  // The literal counter
  // ---------------------------------------------------------------------------

  /**
   * With the literal counter the engine commits rejected tokens: for every live request, from every base and at every
   * length, there is a candidate whose first token the verifier rejects and the commit block appends.
   */
  lemma RejectedTokenIsCommitted(a: Synthetic.Arithmetic, s: State, id: nat, n: nat)
    requires id in s.requests && !s.requests[id].cancelled && !s.requests[id].terminal
    requires 2 <= n <= MAX_DEPTH && s.requests[id].req.draft.tokenizer != 0
    ensures var rs := s.requests[id];
            var candidate := WrongThenRight(BaseOf(a, rs, n), n);
            var verdict := VerifySpec(a, VerificationCapture(rs, 0, candidate));
            && !verdict.perPosition[0] && verdict.firstRejection == 0
            && Answered([candidate], [verdict.acceptedPrefix])
            && var after := Engine.Commit(s, id, n, [candidate], [verdict.acceptedPrefix]).state;
               id in after.requests && after.requests[id].committed == rs.committed + candidate[..n - 1]
  {
    hide VerifySpec, Source.TargetPath, WrongThenRight, Selection.Winner, RetireOthers, Outcome, Counted, Pushed,
        RatioOf, KindOf;
    var rs := s.requests[id];
    var candidate := WrongThenRight(BaseOf(a, rs, n), n);
    CounterCoversRejectedToken(a, VerificationCapture(rs, 0, candidate), n);
    AllEqualFirstWins([n - 1], n - 1);
  }

  /** The verifier's results for the candidates of a cycle. */
  function Results(a: Synthetic.Arithmetic, rs: RequestState, candidates: seq<seq<Token>>): (r: seq<AcceptanceResult>)
    ensures |r| == |candidates|
  {
    seq(|candidates|, b requires 0 <= b < |candidates| => VerifySpec(a, VerificationCapture(rs, b, candidates[b])))
  }

  function Counters(results: seq<AcceptanceResult>): (r: seq<nat>)
    ensures |r| == |results|
  {
    seq<nat>(|results|, b requires 0 <= b < |results| => results[b].acceptedPrefix)
  }

  /** Every accepted position carries the verifier's flag. */
  predicate OnlyVerified(result: AcceptanceResult) {
    forall i :: 0 <= i < result.acceptedPrefix ==> i < |result.perPosition| && result.perPosition[i]
  }

  lemma OnlyVerifiedIff(a: Synthetic.Arithmetic, v: VerificationInput)
    ensures OnlyVerified(VerifySpec(a, v)) <==> VerifySpec(a, v).acceptedPrefix == VerifySpec(a, v).firstRejection
    ensures VerifySpec(a, v).acceptedPrefix <= |v.candidate|
  {
    hide Source.TargetPath, Matches, Count, FirstClear;
    CountedAreFlaggedIffPrefix(Flags(a, v));
  }

  /**
   * Exactly when the commit block appends only tokens the verifier accepted, whatever was proposed: when the winner's
   * counter is its first rejection. Both fields are in the winner's result before the block appends anything.
   */
  lemma AppendsOnlyVerifiedIff(a: Synthetic.Arithmetic, s: State, id: nat, depth: nat, candidates: seq<seq<Token>>)
    requires id in s.requests && !s.requests[id].cancelled && !s.requests[id].terminal && |candidates| > 0
    ensures var rs := s.requests[id];
            var results := Results(a, rs, candidates);
            var w := Selection.Winner(Ballots(Counters(results)));
            && Answered(candidates, Counters(results))
            && var after := Engine.Commit(s, id, depth, candidates, Counters(results)).state;
               && id in after.requests
               && after.requests[id].committed == rs.committed + candidates[w][..results[w].acceptedPrefix]
               && (OnlyVerified(results[w]) <==> results[w].acceptedPrefix == results[w].firstRejection)
  {
    hide VerifySpec, OnlyVerified, Selection.Winner, RetireOthers, Outcome, Counted, Pushed, RatioOf, KindOf;
    var rs := s.requests[id];
    forall b: nat | b < |candidates|
      ensures Results(a, rs, candidates)[b].acceptedPrefix <= |candidates[b]|
    {
      OnlyVerifiedIff(a, VerificationCapture(rs, b, candidates[b]));
    }
    var w := Selection.Winner(Ballots(Counters(Results(a, rs, candidates))));
    OnlyVerifiedIff(a, VerificationCapture(rs, w, candidates[w]));
  }

  // ---------------------------------------------------------------------------
  // When the shipped cycle is the promised one
  // ---------------------------------------------------------------------------

  /** A depth that exceeds the alignment by at most one, which a caller can see before the cycle. */
  predicate Faithful(acceptance: Acceptance, aligned: u32, depth: u32) {
    acceptance == LeadingPrefix || depth <= aligned as nat + 1
  }

  lemma FaithfulVerdict(cfg: Config, a: Synthetic.Arithmetic, aligned: u32, rs: RequestState, depth: u32, b: nat)
    requires 1 <= depth <= MAX_DEPTH && depth <= aligned as nat + 1 && b < cfg.BranchCount()
    ensures var v := VerificationCapture(rs, b, Drafts(cfg, Shipped(a, aligned), rs, depth)[b]);
            VerifySpec(a, v).acceptedPrefix == VerifySpec(a, v).firstRejection
  {
    hide Source.Draft, Source.TargetPath, Matches, Count, FirstClear;
    var candidate := Drafts(cfg, Shipped(a, aligned), rs, depth)[b];
    var v := VerificationCapture(rs, b, candidate);
    assert candidate == Candidate(a, aligned, ProposalCapture(cfg, rs, depth, b));
    assert candidate == BaseOf(a, rs, depth).Draft(aligned, b, depth);
    assert VerifierSource(a, v) == BaseOf(a, rs, depth);
    ShortDraftsCountTheirPrefix(BaseOf(a, rs, depth), aligned, b, depth);
  }

  /** At such a depth a cycle with the shipped counter is the cycle with the promised acceptance. */
  lemma ShippedCycleIsPromised(cfg: Config, a: Synthetic.Arithmetic, aligned: u32, s: State, id: nat, depth: u32)
    requires 1 <= depth <= MAX_DEPTH && depth <= aligned as nat + 1
    ensures AtomicCycle(cfg, Shipped(a, aligned), s, id, depth) == AtomicCycle(cfg, Promised(a, aligned), s, id, depth)
  {
    hide VerifySpec, Candidate, Engine.Commit;
    if id in s.requests {
      var rs := s.requests[id];
      var drafts := Drafts(cfg, Shipped(a, aligned), rs, depth);
      assert drafts == Drafts(cfg, Promised(a, aligned), rs, depth);
      forall b: nat | b < |drafts|
        ensures Verdicts(cfg, Shipped(a, aligned), rs, drafts)[b] == Verdicts(cfg, Promised(a, aligned), rs, drafts)[b]
      {
        FaithfulVerdict(cfg, a, aligned, rs, depth, b);
      }
      assert Verdicts(cfg, Shipped(a, aligned), rs, drafts) == Verdicts(cfg, Promised(a, aligned), rs, drafts);
    }
  }

  /** So a faithful cycle appends exactly the target tokens of its base, and branch 1 wins. */
  lemma FaithfulCycleAppendsExactly(
    cfg: Config, a: Synthetic.Arithmetic, aligned: u32, acceptance: Acceptance, s: State, id: nat, depth: u32)
    requires id in s.requests && !s.requests[id].cancelled && !s.requests[id].terminal
    requires 1 <= depth <= MAX_DEPTH && s.requests[id].req.draft.tokenizer != 0 && cfg.BranchCount() < Synthetic.VOCAB
    requires Faithful(acceptance, aligned, depth)
    ensures var m := Min(aligned, depth);
            var rs, after := s.requests[id], AtomicCycle(cfg, Cpu(a, aligned, acceptance), s, id, depth);
            id in after.requests && AppendedExactly(rs, after.requests[id], BaseOf(a, rs, depth).TargetPath(m))
  {
    hide VerifySpec, Source.TargetPath, Candidate, AtomicCycle, Min;
    PromisedCycleAppendsExactly(cfg, a, aligned, s, id, depth);
    if acceptance == Counter {
      ShippedCycleIsPromised(cfg, a, aligned, s, id, depth);
    }
  }
}
