/**
 * With honest workers a distributed cycle over bytes commits exactly what direct calls of the executors on the same
 * base yield, and a proposer that answers with an earlier reply makes it commit nothing.
 */
module DistributedCycle {
  import opened Words
  import opened Executors
  import opened Selection
  import opened Wire
  import opened Worker
  import opened Coordinator
  import opened CoordinatorRuns
  import Synthetic

  // ---------------------------------------------------------------------------
  // Direct calls
  // ---------------------------------------------------------------------------

  const PROPOSER_MODEL := ModelIdentity(0, 1, 0)

  function DirectDraft(a: Synthetic.Arithmetic, r: Request, b: u32): (s: seq<Token>)
    ensures |s| == r.depth
  {
    SourceOf(a, r.authState, r.authGen, PROPOSER_MODEL, r.depth).Draft(r.aligned, b, r.depth)
  }

  function DirectInput(r: Request, tokens: seq<Token>): VerificationInput {
    VerificationInput(
      r.id, r.sequence, r.attempt, 0, r.epoch, tokens, 9, 4096, PROPOSER_MODEL, ModelIdentity(0, 0, 0),
      r.authState, r.authGen, r.authState.generation)
  }

  function DirectVote(a: Synthetic.Arithmetic, r: Request, b: u32): (v: Vote)
    ensures v.accepted <= |v.tokens|
  {
    var tokens := DirectDraft(a, r, b);
    var verdict := VerifySpec(a, DirectInput(r, tokens));
    VerdictFits(a, DirectInput(r, tokens));
    Vote(b as nat + 1, tokens, verdict.acceptedPrefix, verdict.firstRejection)
  }

  function DirectVotes(a: Synthetic.Arithmetic, r: Request, n: nat): (v: seq<Vote>)
    requires n < 0x1_0000_0000
    ensures |v| == n
  {
    seq(n, b requires 0 <= b < n => DirectVote(a, r, b))
  }

  // ---------------------------------------------------------------------------
  // Honest workers
  // ---------------------------------------------------------------------------

  /** A worker's answer to a payload: what it cannot decode it skips. */
  function Answer(a: Synthetic.Arithmetic, payload: seq<byte>): Option<seq<byte>> {
    match DecodeSpec(payload)
    case Err(_) => None
    case Ok(m) =>
      if IsProposalDispatch(m) then
        match EncodeSpec(ProposalReply(a, m)) case Ok(bytes) => Some(bytes) case Err(_) => None
      else if IsVerificationDispatch(m) then
        match EncodeSpec(VerificationReply(a, m)) case Ok(bytes) => Some(bytes) case Err(_) => None
      else None
  }

  /** The replies of one branch when honest workers answer what the coordinator sends. */
  function HonestReply(a: Synthetic.Arithmetic, p: Peers, r: Request, b: u32): BranchReply {
    var proposed := BranchReply(Answer(a, Payload(ProposalDispatch(p, r, b))), None);
    if WellFormed(p, r, proposed) && JudgeProposal(p, r, proposed).Ok? then
      proposed.(verification := Answer(a, Payload(VerificationDispatch(p, r, b, JudgeProposal(p, r, proposed).value))))
    else proposed
  }

  function HonestReplies(a: Synthetic.Arithmetic, p: Peers, r: Request, n: nat): (replies: seq<BranchReply>)
    requires n < 0x1_0000_0000
    ensures |replies| == n
  {
    seq(n, b requires 0 <= b < n => HonestReply(a, p, At(r, b), b))
  }

  // --- encoding ---------------------------------------------------------------

  /** The proposal dispatch always encodes; the verification dispatch exactly up to depth 61. */
  lemma DispatchesEncode(p: Peers, r: Request, b: u32, tokens: seq<Token>)
    requires |tokens| == r.depth
    ensures Valid(ProposalDispatch(p, r, b))
    ensures Valid(VerificationDispatch(p, r, b, tokens)) <==> r.depth <= 61
    ensures r.depth >= 62 ==> EncodeSpec(VerificationDispatch(p, r, b, tokens)) == Err(OversizedFrame)
  {
  }

  lemma ValidTravels(m: Message)
    requires Valid(m)
    ensures EncodeSpec(m) == Ok(Payload(m)) && DecodeSpec(Payload(m)) == Ok(m)
  {
    hide DecodeSpec, Payload;
    DecodesExactlyTheEncodings(Payload(m), m);
  }

  // --- the proposer's half ------------------------------------------------------

  lemma HonestProposal(a: Synthetic.Arithmetic, p: Peers, r: Request, b: u32)
    requires 1 <= r.depth <= 61 && Fits(r)
    ensures var d := ProposalDispatch(p, r, b);
            && IsProposalDispatch(d) && Valid(ProposalReply(a, d))
            && ProposalReply(a, d).u32s == [0, r.depth] + DirectDraft(a, r, b)
            && |ProposalReply(a, d).u64s| == 11
            && ProposalReply(a, d).u64s[PR_EPOCH] == r.epoch && ProposalReply(a, d).u64s[PR_ATTEMPT] == r.attempt
            && ProposalReply(a, d).u64s[PR_BASE_GEN] == r.authGen && ProposalReply(a, d).u64s[PR_BOOT] == p.proposerBoot
            && ProposalReply(a, d).u64s[PR_PROPOSAL_GEN] == r.propGen
  {
    hide Source.Draft;
  }

  lemma ProposalAnswer(a: Synthetic.Arithmetic, p: Peers, r: Request, b: u32)
    requires 1 <= r.depth <= 61 && Fits(r)
    ensures IsProposalDispatch(ProposalDispatch(p, r, b))
    ensures Answer(a, Payload(ProposalDispatch(p, r, b))) == Some(Payload(ProposalReply(a, ProposalDispatch(p, r, b))))
  {
    hide DecodeSpec, EncodeSpec, Payload, ProposalReply, VerificationReply, ProposalDispatch, Valid;
    var d := ProposalDispatch(p, r, b);
    DispatchIsValid(p, r, b);
    ValidTravels(d);
    HonestProposal(a, p, r, b);
    ValidTravels(ProposalReply(a, d));
  }

  lemma DispatchIsValid(p: Peers, r: Request, b: u32)
    ensures Valid(ProposalDispatch(p, r, b))
  {
  }

  lemma HonestProposalPasses(a: Synthetic.Arithmetic, p: Peers, r: Request, b: u32)
    requires 1 <= r.depth <= 61 && Fits(r)
    ensures var proposed := BranchReply(Answer(a, Payload(ProposalDispatch(p, r, b))), None);
            WellFormed(p, r, proposed) && JudgeProposal(p, r, proposed) == Ok(DirectDraft(a, r, b))
  {
    hide DecodeSpec, Payload, ProposalReply, VerificationReply, ProposalDispatch, Valid, Answer, DirectDraft;
    var d := ProposalDispatch(p, r, b);
    ProposalAnswer(a, p, r, b);
    HonestProposal(a, p, r, b);
    ValidTravels(ProposalReply(a, d));
    var m := ProposalReply(a, d);
    assert m.u32s[PR_TOKENS..][..r.depth] == DirectDraft(a, r, b);
  }

  // --- the verifier's half ------------------------------------------------------

  lemma HonestVerification(a: Synthetic.Arithmetic, p: Peers, r: Request, b: u32, tokens: seq<Token>)
    requires 1 <= r.depth <= 61 && Fits(r) && |tokens| == r.depth
    ensures var d := VerificationDispatch(p, r, b, tokens);
            && IsVerificationDispatch(d) && Valid(VerificationReply(a, d))
            && |VerificationReply(a, d).u64s| == 8 && |VerificationReply(a, d).u32s| == 4
            && VerificationReply(a, d).u64s[VR_EPOCH] == r.epoch && VerificationReply(a, d).u64s[VR_ATTEMPT] == r.attempt
            && VerificationReply(a, d).u64s[VR_BASE_GEN] == r.authGen
            && VerificationReply(a, d).u32s[VR_ACCEPTED] == VerifySpec(a, DirectInput(r, tokens)).acceptedPrefix
            && VerificationReply(a, d).u32s[VR_FIRST_REJECTION] == VerifySpec(a, DirectInput(r, tokens)).firstRejection
  {
    hide VerifySpec;
    var d := VerificationDispatch(p, r, b, tokens);
    assert d.u32s[VD_LEN] == r.depth;
    assert d.u32s[VD_TOKENS..VD_TOKENS + r.depth as nat] == tokens;
    SameVerdict(a, r, DispatchedVerification(d), tokens);
  }

  lemma SameVerdict(a: Synthetic.Arithmetic, r: Request, v: VerificationInput, tokens: seq<Token>)
    requires v.candidate == tokens && v.tokenizer == 9 && v.vocabSize == 4096 && v.proposer == PROPOSER_MODEL
    requires v.baseState == r.authState && v.baseGeneration == r.authGen
    ensures VerifySpec(a, v) == VerifySpec(a, DirectInput(r, tokens))
  {
    hide Source.TargetPath, Matches, Count, FirstClear;
  }

  lemma VerificationAnswer(a: Synthetic.Arithmetic, p: Peers, r: Request, b: u32, tokens: seq<Token>)
    requires 1 <= r.depth <= 61 && Fits(r) && |tokens| == r.depth
    ensures var d := VerificationDispatch(p, r, b, tokens);
            IsVerificationDispatch(d) && Answer(a, Payload(d)) == Some(Payload(VerificationReply(a, d)))
  {
    hide DecodeSpec, EncodeSpec, Payload, ProposalReply, VerificationReply, Valid;
    var d := VerificationDispatch(p, r, b, tokens);
    DispatchesEncode(p, r, b, tokens);
    ValidTravels(d);
    HonestVerification(a, p, r, b, tokens);
    ValidTravels(VerificationReply(a, d));
  }

  /** One honest branch encodes every message, passes every check, and votes as the direct calls do. */
  lemma HonestBranchVotes(a: Synthetic.Arithmetic, p: Peers, r: Request, b: u32)
    requires 1 <= r.depth <= 61 && Fits(r)
    ensures var reply := HonestReply(a, p, r, b);
            WellFormed(p, r, reply) && AskBranch(p, r, b, reply) == Ok(DirectVote(a, r, b))
  {
    hide DecodeSpec, Payload, ProposalReply, VerificationReply, ProposalDispatch, VerificationDispatch, Valid,
         Answer, VerifySpec, DirectDraft, IsVerificationDispatch;
    HonestProposalPasses(a, p, r, b);
    var reply := HonestReply(a, p, r, b);
    var tokens := DirectDraft(a, r, b);
    VerificationAnswer(a, p, r, b, tokens);
    HonestVerification(a, p, r, b, tokens);
    var d := VerificationDispatch(p, r, b, tokens);
    ValidTravels(VerificationReply(a, d));
    VerdictFits(a, DirectInput(r, tokens));
    assert reply.verification == Some(Payload(VerificationReply(a, d)));
    assert WellFormed(p, r, reply);
    assert JudgeProposal(p, r, reply) == Ok(tokens);
  }

  /**
   * The proposer's two messages of one branch, field by field: the dispatch carries the request's envelope, the reply brings
   * it back beside the draft.
   */
  lemma ProposalMessages(a: Synthetic.Arithmetic, p: Peers, r: Request, b: u32)
    requires 1 <= r.depth <= 61 && Fits(r)
    ensures var d, dispatch := ProposalDispatch(p, r, b), (1000 + r.id as nat + b) % TWO_64;
            && IsProposalDispatch(d) && d.kind == 3 && d.u32s == [r.depth, r.aligned, r.branches]
            && d.u64s == [r.id, r.sequence, r.attempt, r.epoch, r.authState.id, r.authState.generation, r.authGen, 1,
                          dispatch, b, p.proposerBoot, r.propGen]
            && var reply := ProposalReply(a, d);
               && reply.kind == 4 && reply.u32s == [0, r.depth] + DirectDraft(a, r, b)
               && reply.u64s == [r.id, r.sequence, r.attempt, r.epoch, dispatch, b, r.authGen, p.proposerBoot, 1,
                                 r.propGen, r.depth]
  {
    hide DirectDraft;
    HonestProposal(a, p, r, b);
  }

  /** The verifier's two messages of one branch, likewise. */
  lemma VerificationMessages(a: Synthetic.Arithmetic, p: Peers, r: Request, b: u32)
    requires 1 <= r.depth <= 61 && Fits(r)
    ensures var tokens := DirectDraft(a, r, b);
            var d, dispatch := VerificationDispatch(p, r, b, tokens), (2000 + r.id as nat + b) % TWO_64;
            && IsVerificationDispatch(d) && d.kind == 5 && d.u32s == [9, 4096, r.depth] + tokens
            && d.u64s == [r.id, r.sequence, r.attempt, r.epoch, r.authState.id, r.authState.generation, r.authGen, 1,
                          dispatch, p.verifierBoot]
            && var reply, verdict := VerificationReply(a, d), VerifySpec(a, DirectInput(r, tokens));
               && reply.kind == 6
               && reply.u32s
                  == [VerdictCode(verdict.outcome), verdict.acceptedPrefix, r.depth, verdict.firstRejection]
               && reply.u64s == [r.id, r.sequence, r.attempt, r.epoch, r.authGen, dispatch, r.authState.id,
                                 r.authState.generation]
  {
    hide VerifySpec, DirectDraft;
    var tokens := DirectDraft(a, r, b);
    var d := VerificationDispatch(p, r, b, tokens);
    assert d.u32s[VD_LEN] == r.depth;
    assert d.u32s[VD_TOKENS..VD_TOKENS + r.depth as nat] == tokens;
    SameVerdict(a, r, DispatchedVerification(d), tokens);
    VerdictFits(a, DispatchedVerification(d));
  }

  // --- the whole cycle ------------------------------------------------------------

  lemma FitsAlong(r: Request, replies: nat, b: nat)
    requires Fits(r) && r.propGen + replies < TWO_64 && b < replies
    ensures Fits(At(r, b)) && At(r, b).depth == r.depth
  {
  }

  lemma DirectIgnoresGeneration(a: Synthetic.Arithmetic, r: Request, b: u32, n: nat)
    ensures DirectVote(a, At(r, n), b) == DirectVote(a, r, b)
  {
  }

  lemma HonestRepliesAreWellFormed(a: Synthetic.Arithmetic, p: Peers, r: Request, n: nat)
    requires n < 0x1_0000_0000 && 1 <= r.depth <= 61 && Fits(r) && r.propGen + n < TWO_64
    ensures AllWellFormed(p, r, HonestReplies(a, p, r, n))
  {
    hide WellFormed, HonestReply, Fits;
    var replies := HonestReplies(a, p, r, n);
    forall b: nat | b < |replies|
      ensures WellFormed(p, At(r, b), replies[b])
    {
      FitsAlong(r, n, b);
      HonestBranchVotes(a, p, At(r, b), b);
    }
  }

  lemma {:induction false} HonestPoll(a: Synthetic.Arithmetic, p: Peers, r: Request, total: nat, n: nat)
    requires n <= total < 0x1_0000_0000 && 1 <= r.depth <= 61 && Fits(r) && r.propGen + total < TWO_64
    ensures AllWellFormed(p, r, HonestReplies(a, p, r, total))
    ensures var q := Poll(p, r, HonestReplies(a, p, r, total), n);
            q.request == r.(propGen := r.propGen + n) && q.votes == Ok(DirectVotes(a, r, n))
  {
    hide WellFormed, HonestReply, Fits, AskBranch, SentFor, DirectVote;
    HonestRepliesAreWellFormed(a, p, r, total);
    if n > 0 {
      HonestPoll(a, p, r, total, n - 1);
      FitsAlong(r, total, n - 1);
      HonestBranchVotes(a, p, At(r, n - 1), n - 1);
      DirectIgnoresGeneration(a, r, n - 1, n - 1);
      assert DirectVotes(a, r, n) == DirectVotes(a, r, n - 1) + [DirectVote(a, r, n - 1)];
    } else {
      assert DirectVotes(a, r, 0) == [];
    }
  }

  /**
   * With honest workers, at any depth from 1 to 61 and on any number of branches, every message encodes and decodes,
   * every check passes, and the cycle commits what direct calls on the same base yield for the branch with the most
   * accepted tokens, the lowest one on a tie.
   */
  lemma HonestCycle(a: Synthetic.Arithmetic, p: Peers, r: Request, depth: u32, branches: u32, aligned: u32)
    requires 1 <= branches && 1 <= depth <= 61
    requires Fits(Configured(p, r, depth, branches, aligned)) && r.propGen + branches < TWO_64
    ensures var start := Configured(p, r, depth, branches, aligned);
            var replies := HonestReplies(a, p, start, branches);
            && AllWellFormed(p, start, replies)
            && var votes := DirectVotes(a, start, branches);
               var vote := votes[Winner(VoteBallots(votes))];
               var driven := Drive(p, r, depth, branches, aligned, replies);
               && driven.result == Ok(Report(vote.accepted, vote.branch, vote.firstRejection))
               && vote.branch >= 1 && vote == DirectVote(a, start, vote.branch - 1)
               && driven.request.committed == r.committed + DirectDraft(a, start, vote.branch - 1)[..vote.accepted]
               && driven.request.authGen == r.authGen + vote.accepted
               && driven.request.propGen == r.propGen + branches
  {
    hide WellFormed, HonestReplies, Fits, Poll, Winner, DirectDraft, VerifySpec;
    var start := Configured(p, r, depth, branches, aligned);
    HonestPoll(a, p, start, branches, branches);
  }

  /** The base a submission starts from, before any token is committed. */
  function SubmissionBase(id: u64): StateRef {
    StateRef((id as nat * 0x9E3779B97F4A7C15) % 0x1_0000_0000_0000_0000, 0)
  }

  /** The draft of a branch of a submission. */
  function SubmittedDraft(a: Synthetic.Arithmetic, id: u64, depth: u32, aligned: u32, b: u32): (s: seq<Token>)
    ensures |s| == depth
  {
    SourceOf(a, SubmissionBase(id), 0, PROPOSER_MODEL, depth).Draft(aligned, b, depth)
  }

  /**
   * A submission to a coordinator with honest workers, from any state: the reply reports the committed tokens, which
   * are the accepted ones of one branch's draft on the base that the request id determines, and the request is at its
   * first attempt.
   */
  lemma HonestSubmission(a: Synthetic.Arithmetic, s: State, id: u64, depth: u32, branches: u32, aligned: u32)
    requires 1 <= branches && 1 <= depth <= 61 && s.peers.epoch < TWO_64
    ensures var replies := HonestReplies(a, s.peers, Start(s, id, depth, branches, aligned), branches);
            && Submittable(s, id, depth, branches, aligned, replies)
            && var step := SubmitStep(s, id, depth, branches, aligned, replies);
               && id in step.state.requests
               && var r := step.state.requests[id];
                  && step.answer == Committed(id, |r.committed|, |r.committed|)
                  && r.sequence == (id as nat + 1) % 0x1_0000_0000_0000_0000 && r.attempt == 1
                  && r.epoch == s.peers.epoch
                  && r.propGen == branches
                  && r.authState == StateRef(SubmissionBase(id).id, |r.committed|)
                  && exists b: u32 :: b < branches && r.committed <= SubmittedDraft(a, id, depth, aligned, b)
  {
    hide HonestReplies, Drive, DirectVotes, DirectDraft, Winner, AllWellFormed, SubmittedDraft, Start, Reset, Fits;
    var start := Start(s, id, depth, branches, aligned);
    StartFits(s, id, depth, branches, aligned);
    HonestCycle(a, s.peers, Reset(s.peers, id), depth, branches, aligned);
    var replies := HonestReplies(a, s.peers, start, branches);
    DriveKeepsAuthority(s.peers, Reset(s.peers, id), depth, branches, aligned, replies);
    var votes := DirectVotes(a, start, branches);
    var vote := votes[Winner(VoteBallots(votes))];
    VoteOfBranch(a, start, branches, votes);
    var b: u32 := vote.branch - 1;
    StartDraft(a, s, id, depth, branches, aligned, b);
    assert [] + SubmittedDraft(a, id, depth, aligned, b)[..vote.accepted]
           == SubmittedDraft(a, id, depth, aligned, b)[..vote.accepted];
  }

  lemma StartFits(s: State, id: u64, depth: u32, branches: u32, aligned: u32)
    requires s.peers.epoch < TWO_64
    ensures var start := Start(s, id, depth, branches, aligned);
            && start == Configured(s.peers, Reset(s.peers, id), depth, branches, aligned) && Fits(start)
            && RequestSound(Reset(s.peers, id))
            && Reset(s.peers, id).propGen == 0 && Reset(s.peers, id).committed == [] && Reset(s.peers, id).attempt == 1
            && Reset(s.peers, id).sequence == (id as nat + 1) % 0x1_0000_0000_0000_0000
            && Reset(s.peers, id).authState.id == SubmissionBase(id).id
  {
  }

  lemma StartDraft(a: Synthetic.Arithmetic, s: State, id: u64, depth: u32, branches: u32, aligned: u32, b: u32)
    ensures DirectDraft(a, Start(s, id, depth, branches, aligned), b) == SubmittedDraft(a, id, depth, aligned, b)
  {
    hide Source.Draft;
  }

  lemma VoteOfBranch(a: Synthetic.Arithmetic, r: Request, n: nat, votes: seq<Vote>)
    requires 0 < n < 0x1_0000_0000 && votes == DirectVotes(a, r, n)
    ensures 1 <= votes[Winner(VoteBallots(votes))].branch <= n
  {
    hide Winner, VerifySpec, DirectDraft;
  }

  lemma {:induction false} PollLooksBack(p: Peers, r: Request, x: seq<BranchReply>, y: seq<BranchReply>, n: nat)
    requires n <= |x| < 0x1_0000_0000 && n <= |y| < 0x1_0000_0000
    requires AllWellFormed(p, r, x) && AllWellFormed(p, r, y) && x[..n] == y[..n]
    ensures Poll(p, r, x, n) == Poll(p, r, y, n)
  {
    hide AskBranch, SentFor, WellFormed;
    if n > 0 {
      assert x[n - 1] == x[..n][n - 1] == y[n - 1];
      assert x[..n - 1] == x[..n][..n - 1] == y[..n - 1];
      PollLooksBack(p, r, x, y, n - 1);
    }
  }

  /** Honest replies, but branch j's proposer sends again what it answered to branch i. */
  function RepeatedReplies(a: Synthetic.Arithmetic, p: Peers, r: Request, n: nat, i: u32, j: u32)
    : (replies: seq<BranchReply>)
    requires i < j < n < 0x1_0000_0000
    ensures |replies| == n
  {
    HonestReplies(a, p, r, n)[j := BranchReply(Answer(a, Payload(ProposalDispatch(p, At(r, i), i))), None)]
  }

  lemma RepeatedReplyDecodes(a: Synthetic.Arithmetic, p: Peers, r: Request, n: nat, i: u32, j: u32)
    requires i < j < n < 0x1_0000_0000 && 1 <= r.depth <= 61 && Fits(r) && r.propGen + n < TWO_64
    ensures var d := ProposalDispatch(p, At(r, i), i);
            var reply := BranchReply(Answer(a, Payload(d)), None);
            && IsProposalDispatch(d) && EchoesProposal(d, ProposalReply(a, d))
            && reply.proposal.Some? && DecodeSpec(reply.proposal.value) == Ok(ProposalReply(a, d))
            && WellFormed(p, At(r, j), reply)
  {
    hide DecodeSpec, Payload, ProposalReply, VerificationReply, Answer, Valid, ProposalDispatch;
    var d := ProposalDispatch(p, At(r, i), i);
    FitsAlong(r, n, i);
    ProposalAnswer(a, p, At(r, i), i);
    HonestProposal(a, p, At(r, i), i);
    WorkersEcho(a, d);
    ValidTravels(ProposalReply(a, d));
    RepeatedMarks(p, r, n, i, j, ProposalReply(a, d));
  }

  /**
   * Against otherwise honest workers, a proposer that answers one branch with its reply to an earlier one fails the
   * whole cycle as stale, and nothing is committed.
   */
  lemma RepeatedReplyCommitsNothing(
    a: Synthetic.Arithmetic, p: Peers, r: Request, depth: u32, branches: u32, aligned: u32, i: u32, j: u32)
    requires i < j < branches && 1 <= depth <= 61
    requires Fits(Configured(p, r, depth, branches, aligned)) && r.propGen + branches < TWO_64
    ensures var start := Configured(p, r, depth, branches, aligned);
            var replies := RepeatedReplies(a, p, start, branches, i, j);
            && AllWellFormed(p, start, replies)
            && var driven := Drive(p, r, depth, branches, aligned, replies);
               && driven.result == Err(Stale(StaleGeneration))
               && driven.request.committed == r.committed && driven.request.authGen == r.authGen
               && driven.request.authState == r.authState
  {
    hide WellFormed, HonestReply, Fits, Poll, ProposalReply, DecodeSpec, ProposalDispatch, Answer, Drive,
         EchoesProposal;
    var start := Configured(p, r, depth, branches, aligned);
    var honest, replies := HonestReplies(a, p, start, branches), RepeatedReplies(a, p, start, branches, i, j);
    HonestRepliesAreWellFormed(a, p, start, branches);
    RepeatedReplyDecodes(a, p, start, branches, i, j);
    forall b | 0 <= b < |replies|
      ensures WellFormed(p, At(start, b), replies[b])
    {
      assert b != j ==> replies[b] == honest[b];
    }
    HonestPoll(a, p, start, branches, j);
    PollLooksBack(p, start, honest, replies, j);
    RepeatedAnswerFailsTheCycle(
      p, r, depth, branches, aligned, replies, i, j, ProposalReply(a, ProposalDispatch(p, At(start, i), i)));
  }

  /** And whatever order the branches are compared in, the same vote wins. */
  lemma OrderIsIrrelevant(a: Synthetic.Arithmetic, r: Request, n: nat, votes: seq<Vote>)
    requires 0 < n < 0x1_0000_0000 && multiset(votes) == multiset(DirectVotes(a, r, n))
    ensures |votes| == n
    ensures votes[Winner(VoteBallots(votes))] == DirectVotes(a, r, n)[Winner(VoteBallots(DirectVotes(a, r, n)))]
  {
    hide DirectVote, Winner;
    var direct := DirectVotes(a, r, n);
    assert |multiset(votes)| == |multiset(direct)|;
    var i, j := Winner(VoteBallots(votes)), Winner(VoteBallots(direct));
    assert votes[i] in multiset(direct) && direct[j] in multiset(votes);
    var x :| 0 <= x < n && direct[x] == votes[i];
    var y :| 0 <= y < n && votes[y] == direct[j];
    WinnerIsUnbeaten(VoteBallots(direct), x);
    WinnerIsUnbeaten(VoteBallots(votes), y);
    assert !Beats(VoteBallots(votes)[i], VoteBallots(direct)[j]);
    assert !Beats(VoteBallots(direct)[j], VoteBallots(votes)[i]);
    BranchNumbers(a, r, n, x);
    BranchNumbers(a, r, n, j);
  }

  lemma BranchNumbers(a: Synthetic.Arithmetic, r: Request, n: nat, b: nat)
    requires b < n < 0x1_0000_0000
    ensures DirectVotes(a, r, n)[b].branch == b + 1
  {
    hide VerifySpec, DirectDraft;
  }
}
