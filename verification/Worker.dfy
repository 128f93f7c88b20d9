/** The worker process: a dispatch message in, the CPU executor run on its fields, a result message out. */
module Worker {
  import opened Words
  import opened Executors
  import opened Wire
  import Synthetic

  // Field positions of the control plane.
  const PD_REQUEST := 0
  const PD_SEQUENCE := 1
  const PD_ATTEMPT := 2
  const PD_EPOCH := 3
  const PD_STATE_ID := 4
  const PD_STATE_GEN := 5
  const PD_BASE_GEN := 6
  const PD_REVISION := 7
  const PD_DISPATCH := 8
  const PD_BRANCH := 9
  const PD_BOOT := 10
  const PD_PROPOSAL_GEN := 11
  const PD_DEPTH := 0
  const PD_ALIGNED := 1
  const PD_BRANCHES := 2

  const PR_ATTEMPT := 2
  const PR_EPOCH := 3
  const PR_BASE_GEN := 6
  const PR_BOOT := 7
  const PR_PROPOSAL_GEN := 9
  const PR_OUTCOME := 0
  const PR_TOKENS := 2

  const VD_REQUEST := 0
  const VD_SEQUENCE := 1
  const VD_ATTEMPT := 2
  const VD_EPOCH := 3
  const VD_STATE_ID := 4
  const VD_STATE_GEN := 5
  const VD_BASE_GEN := 6
  const VD_REVISION := 7
  const VD_DISPATCH := 8
  const VD_TOKENIZER := 0
  const VD_VOCAB := 1
  const VD_LEN := 2
  const VD_TOKENS := 3

  const VR_ATTEMPT := 2
  const VR_EPOCH := 3
  const VR_BASE_GEN := 4
  const VR_OUTCOME := 0
  const VR_ACCEPTED := 1
  const VR_FIRST_REJECTION := 3

  /** A proposal dispatch with every field the worker reads. */
  predicate IsProposalDispatch(m: Message) {
    m.kind == PROPOSAL_DISPATCH && |m.u64s| >= 12 && |m.u32s| >= 3
  }

  predicate IsVerificationDispatch(m: Message) {
    m.kind == VERIFICATION_DISPATCH && |m.u64s| >= 10 && |m.u32s| >= 3 && |m.u32s| - 3 >= m.u32s[VD_LEN]
  }

  /** The proposer input a dispatch spells out; its models have only a revision, its budget is unlimited. */
  function DispatchedProposal(m: Message): ProposalInput
    requires IsProposalDispatch(m)
  {
    var branch: nat := m.u64s[PD_BRANCH];
    ProposalInput(
      m.u64s[PD_REQUEST], m.u64s[PD_SEQUENCE], m.u64s[PD_ATTEMPT], (branch + 1) % 0x1_0000_0000_0000_0000, 0,
      m.u64s[PD_EPOCH],
      StateRef(m.u64s[PD_STATE_ID], m.u64s[PD_STATE_GEN]), m.u64s[PD_BASE_GEN],
      m.u32s[PD_DEPTH], m.u64s[PD_BRANCH] % 0x1_0000_0000, m.u32s[PD_BRANCHES], 0,
      ModelIdentity(0, m.u64s[PD_REVISION], 0), 0)
  }

  function OutcomeCode(outcome: ProposalOutcome): u32 {
    match outcome
    case Success => 0
    case RetryableFailure => 1
    case NonRetryableFailure => 2
  }

  /** The dispatch's envelope is echoed; a failed proposal still fills its token fields, with zeros. */
  function ProposalReply(a: Synthetic.Arithmetic, m: Message): Message
    requires IsProposalDispatch(m)
  {
    var input := DispatchedProposal(m);
    var result := ProposeSpec(a, m.u32s[PD_ALIGNED], input);
    Message(
      PROTOCOL_VERSION, PROPOSAL_RESULT,
      [m.u64s[PD_REQUEST], m.u64s[PD_SEQUENCE], m.u64s[PD_ATTEMPT], m.u64s[PD_EPOCH], m.u64s[PD_DISPATCH],
       m.u64s[PD_BRANCH], m.u64s[PD_BASE_GEN], m.u64s[PD_BOOT], m.u64s[PD_REVISION], m.u64s[PD_PROPOSAL_GEN],
       if result.candidate.Some? then input.depth else 0],
      [OutcomeCode(result.outcome), input.depth]
      + (if result.candidate.Some? then result.candidate.value
         else seq(input.depth, i requires 0 <= i < input.depth => 0)), [])
  }

  method ServeProposal(a: Synthetic.Arithmetic, m: Message) returns (out: Message)
    requires IsProposalDispatch(m)
    ensures out == ProposalReply(a, m)
  {
    hide ProposeSpec;
    var input := DispatchedProposal(m);
    var result := Propose(a, m.u32s[PD_ALIGNED], input);
    var fields: seq<u32> := [OutcomeCode(result.outcome), input.depth];
    ghost var head := fields;
    var elapsed: u64 := 0;
    if result.candidate.Some? {
      elapsed := input.depth;
      var toks := result.candidate.value;
      for i := 0 to |toks|
        invariant fields == head + toks[..i]
      {
        fields := fields + [toks[i]];
      }
      assert toks[..|toks|] == toks;
    } else {
      ghost var zeros := seq(input.depth, i requires 0 <= i < input.depth => 0);
      for i := 0 to input.depth
        invariant fields == head + zeros[..i]
      {
        fields := fields + [0];
      }
      assert zeros[..input.depth] == zeros;
    }
    out := Message(
      PROTOCOL_VERSION, PROPOSAL_RESULT,
      [m.u64s[PD_REQUEST], m.u64s[PD_SEQUENCE], m.u64s[PD_ATTEMPT], m.u64s[PD_EPOCH], m.u64s[PD_DISPATCH],
       m.u64s[PD_BRANCH], m.u64s[PD_BASE_GEN], m.u64s[PD_BOOT], m.u64s[PD_REVISION], m.u64s[PD_PROPOSAL_GEN],
       elapsed], fields, []);
  }

  /** The verifier input a dispatch spells out. */
  function DispatchedVerification(m: Message): VerificationInput
    requires IsVerificationDispatch(m)
  {
    VerificationInput(
      m.u64s[VD_REQUEST], m.u64s[VD_SEQUENCE], m.u64s[VD_ATTEMPT], 0, m.u64s[VD_EPOCH],
      m.u32s[VD_TOKENS..VD_TOKENS + m.u32s[VD_LEN]], m.u32s[VD_TOKENIZER], m.u32s[VD_VOCAB],
      ModelIdentity(0, m.u64s[VD_REVISION], 0), ModelIdentity(0, 0, 0),
      StateRef(m.u64s[VD_STATE_ID], m.u64s[VD_STATE_GEN]), m.u64s[VD_BASE_GEN], m.u64s[VD_STATE_GEN])
  }

  function VerdictCode(outcome: AcceptanceOutcome): u32 {
    match outcome
    case FullAccept => 0
    case PartialAccept => 1
    case RejectAll => 2
    case VerifierFailure => 3
  }

  lemma VerdictFits(a: Synthetic.Arithmetic, v: VerificationInput)
    ensures VerifySpec(a, v).acceptedPrefix <= |v.candidate| && VerifySpec(a, v).firstRejection <= |v.candidate|
  {
    hide Source.TargetPath, Matches;
  }

  function VerificationReply(a: Synthetic.Arithmetic, m: Message): Message
    requires IsVerificationDispatch(m)
  {
    var v := DispatchedVerification(m);
    VerdictFits(a, v);
    var result := VerifySpec(a, v);
    Message(
      PROTOCOL_VERSION, VERIFICATION_RESULT,
      [m.u64s[VD_REQUEST], m.u64s[VD_SEQUENCE], m.u64s[VD_ATTEMPT], m.u64s[VD_EPOCH], m.u64s[VD_BASE_GEN],
       m.u64s[VD_DISPATCH], m.u64s[VD_STATE_ID], m.u64s[VD_STATE_GEN]],
      [VerdictCode(result.outcome), result.acceptedPrefix, m.u32s[VD_LEN], result.firstRejection], [])
  }

  /**
   * The verdict code on the wire, read off the candidate: 3 when the verifier refuses it, 0 when every token is the
   * expected one, 2 when none is, 1 otherwise.
   */
  lemma VerdictCodeByPositions(a: Synthetic.Arithmetic, m: Message)
    requires IsVerificationDispatch(m)
    ensures var v := DispatchedVerification(m);
            var path := VerifierSource(a, v).TargetPath(|v.candidate|);
            VerificationReply(a, m).u32s[VR_OUTCOME]
            == if !Comparable(v) then 3 else if AllMatch(path, v.candidate) then 0
               else if NoneMatches(path, v.candidate) then 2 else 1
  {
    hide VerifySpec, AllMatch, NoneMatches, Source.TargetPath;
    OutcomeByPositions(a, DispatchedVerification(m));
  }

  /**
   * The outcome code on the wire: success exactly for a depth of 1..256, else final; a worker has no budget to exceed.
   */
  lemma OutcomeCodeByDepth(a: Synthetic.Arithmetic, m: Message)
    requires IsProposalDispatch(m)
    ensures ProposalReply(a, m).u32s[PR_OUTCOME] == if 1 <= m.u32s[PD_DEPTH] <= 256 then 0 else 2
  {
    hide Candidate;
  }

  method ServeVerification(a: Synthetic.Arithmetic, m: Message) returns (out: Message)
    requires IsVerificationDispatch(m)
    ensures out == VerificationReply(a, m)
  {
    hide VerifySpec;
    var len := m.u32s[VD_LEN];
    var candidate: seq<Token> := [];
    for i := 0 to len
      invariant candidate == m.u32s[VD_TOKENS..VD_TOKENS + i]
    {
      candidate := candidate + [m.u32s[VD_TOKENS + i]];
    }
    var v := DispatchedVerification(m).(candidate := candidate);
    VerdictFits(a, v);
    var result := Verify(a, v);
    var code: u32 := 3;
    if result.outcome == FullAccept {
      code := 0;
    } else if result.outcome == PartialAccept {
      code := 1;
    } else if result.outcome == RejectAll {
      code := 2;
    }
    out := Message(
      PROTOCOL_VERSION, VERIFICATION_RESULT,
      [m.u64s[VD_REQUEST], m.u64s[VD_SEQUENCE], m.u64s[VD_ATTEMPT], m.u64s[VD_EPOCH], m.u64s[VD_BASE_GEN],
       m.u64s[VD_DISPATCH], m.u64s[VD_STATE_ID], m.u64s[VD_STATE_GEN]],
      [code, result.acceptedPrefix, len, result.firstRejection], []);
  }
}
