/**
 * What a distributed cycle makes of answers to other dispatches: of another branch, another submission, another
 * request. A proposal result carries enough marks to be refused, a verification result does not, and only a driver
 * that asks one branch an epoch is safe from it.
 */
module Verdicts {
  import opened Words
  import opened Executors
  import opened Selection
  import opened Wire
  import opened Worker
  import opened Coordinator
  import opened CoordinatorRuns
  import Synthetic
  import DistributedCycle

  // ---------------------------------------------------------------------------
  // One cycle
  // ---------------------------------------------------------------------------

  /** All branches before the j-th have passed. */
  predicate Reaches(s: State, w: Submission, j: nat)
    requires w.Readable(s) && j <= w.branches
  {
    Poll(s.peers, w.From(s), w.replies, j).votes.Ok?
  }

  /** The proposal for branch j passes as well, so its verifier is asked. */
  predicate Asks(s: State, w: Submission, j: u32)
    requires w.Readable(s) && j < w.branches
  {
    Reaches(s, w, j) && JudgeProposal(s.peers, At(w.From(s), j), w.replies[j]).Ok?
  }

  /** The tokens it is asked about. */
  function Asked(s: State, w: Submission, j: u32): (tokens: seq<Token>)
    requires w.Readable(s) && j < w.branches && Asks(s, w, j)
    ensures |tokens| == w.depth
  {
    JudgeProposal(s.peers, At(w.From(s), j), w.replies[j]).value
  }

  lemma FailedBranchFailsTheCycle(s: State, w: Submission, j: u32)
    requires w.Readable(s) && j < w.branches && Reaches(s, w, j)
    requires AskBranch(s.peers, At(w.From(s), j), j, w.replies[j]).Err?
    ensures w.Result(s).result == Err(AskBranch(s.peers, At(w.From(s), j), j, w.replies[j]).error)
    ensures w.Result(s).request.committed == []
  {
    hide AskBranch, Poll, WellFormed, Winner;
    PollFails(s.peers, w.From(s), w.replies, j);
    DriveKeepsAuthority(s.peers, Reset(s.peers, w.id), w.depth, w.branches, w.aligned, w.replies);
  }

  /**
   * A result echoing any verification dispatch of any submission, of this cycle or another, whatever its branch, its
   * request and its tokens: it becomes the vote for the branch being asked exactly when the epochs agree. Otherwise it
   * fails the cycle, which commits nothing.
   */
  lemma VerdictIsCountedIff(
    s1: State, w1: Submission, i: u32, about: seq<Token>, s2: State, w2: Submission, j: u32, m: Message)
    requires s1.peers.epoch < TWO_64 && s2.peers.epoch < TWO_64
    requires EchoesVerification(w1.Question(s1, i, about), m)
    requires w2.Readable(s2) && j < w2.branches && Asks(s2, w2, j)
    requires w2.replies[j].verification.Some? && DecodeSpec(w2.replies[j].verification.value) == Ok(m)
    ensures s1.peers.epoch == s2.peers.epoch ==>
              && |m.u32s| > VR_FIRST_REJECTION
              && var vote := Vote(j as nat + 1, Asked(s2, w2, j), m.u32s[VR_ACCEPTED], m.u32s[VR_FIRST_REJECTION]);
                 Poll(s2.peers, w2.From(s2), w2.replies, j as nat + 1).votes
                 == Ok(Poll(s2.peers, w2.From(s2), w2.replies, j).votes.value + [vote])
    ensures s1.peers.epoch != s2.peers.epoch ==>
              w2.Result(s2).result == Err(Stale(StaleEpoch)) && w2.Result(s2).request.committed == []
  {
    hide DecodeSpec, JudgeProposal, Drive, Submission.Result, SentFor;
    var r := At(w2.From(s2), j);
    VerdictMarks(s1, w1, i, about, s2, w2, j, m);
    assert WellFormed(s2.peers, r, w2.replies[j]);
    if s1.peers.epoch != s2.peers.epoch {
      FailedBranchFailsTheCycle(s2, w2, j);
    }
  }

  lemma VerdictMarks(
    s1: State, w1: Submission, i: u32, about: seq<Token>, s2: State, w2: Submission, j: u32, m: Message)
    requires s1.peers.epoch < TWO_64 && EchoesVerification(w1.Question(s1, i, about), m)
    ensures VerificationRejection(s2.peers, At(w2.From(s2), j), m)
            == if s1.peers.epoch == s2.peers.epoch then None else Some(StaleEpoch)
  {
  }

  /**
   * A result echoing any proposal dispatch of any submission is taken for the branch being asked exactly when the
   * epochs, the proposer's boots and the branches agree. Otherwise it fails the cycle as stale, which commits nothing.
   */
  lemma ProposalIsTakenIff(s1: State, w1: Submission, i: u32, s2: State, w2: Submission, j: u32, m: Message)
    requires s1.peers.epoch < TWO_64 && s2.peers.epoch < TWO_64 && EchoesProposal(w1.Dispatch(s1, i), m)
    requires w2.Readable(s2) && j < w2.branches && Reaches(s2, w2, j)
    requires w2.replies[j].proposal.Some? && DecodeSpec(w2.replies[j].proposal.value) == Ok(m)
    ensures var current := && s1.peers.epoch == s2.peers.epoch && s1.peers.proposerBoot == s2.peers.proposerBoot
                           && i == j;
            var judged := JudgeProposal(s2.peers, At(w2.From(s2), j), w2.replies[j]);
            && (current ==>
                  && |m.u32s| > PR_OUTCOME && (judged.Ok? <==> m.u32s[PR_OUTCOME] == 0)
                  && (judged.Ok? ==> |m.u32s| >= PR_TOKENS + w2.depth as nat
                                     && judged.value == m.u32s[PR_TOKENS..][..w2.depth]))
            && (!current ==>
                  && w2.Result(s2).result.Err? && w2.Result(s2).result.error.Stale?
                  && w2.Result(s2).request.committed == [])
  {
    hide DecodeSpec, Drive, Submission.Result, SentFor, Poll, JudgeVerification;
    var r := At(w2.From(s2), j);
    DispatchMarks(s1, w1, i);
    assert WellFormed(s2.peers, r, w2.replies[j]);
    if !(s1.peers.epoch == s2.peers.epoch && s1.peers.proposerBoot == s2.peers.proposerBoot && i == j) {
      assert ProposalRejection(s2.peers, r, m).Some?;
      FailedBranchFailsTheCycle(s2, w2, j);
    }
  }

  // ---------------------------------------------------------------------------
  // Runs: the state at every event
  // ---------------------------------------------------------------------------

  function AsSubmission(e: DriverEvent): Submission
    requires e.SubmitRequest?
  {
    Submission(e.id, e.depth, e.branches, e.aligned, e.replies)
  }

  /** The state in which event k comes. */
  function StateAt(s: State, events: seq<DriverEvent>, k: nat): State
    requires AllAccepted(s, events) && k <= |events|
    decreases k
  {
    if k == 0 then s else StateAt(Next(s, events[0]).state, events[1..], k - 1)
  }

  lemma {:induction false} AcceptedAt(s: State, events: seq<DriverEvent>, k: nat)
    requires AllAccepted(s, events) && k < |events|
    ensures Accepted(StateAt(s, events, k), events[k])
    decreases k
  {
    hide Accepted, Next;
    if k > 0 {
      AcceptedAt(Next(s, events[0]).state, events[1..], k - 1);
    }
  }

  lemma ReadableAt(s: State, events: seq<DriverEvent>, k: nat)
    requires AllAccepted(s, events) && k < |events| && events[k].SubmitRequest?
    ensures AsSubmission(events[k]).Readable(StateAt(s, events, k))
  {
    hide AllAccepted, StateAt, Submittable;
    AcceptedAt(s, events, k);
  }

  function PeersAfter(p: Peers, e: DriverEvent): Peers {
    match e
    case RollEpoch => p.(epoch := p.epoch + 1)
    case ProposerConnected(boot) => p.(proposerBoot := boot)
    case VerifierConnected(boot) => p.(verifierBoot := boot)
    case _ => p
  }

  /** The peers event k finds; no reply plays a part in them. */
  function PeersAt(p: Peers, events: seq<DriverEvent>, k: nat): Peers
    requires k <= |events|
    decreases k
  {
    if k == 0 then p else PeersAt(PeersAfter(p, events[0]), events[1..], k - 1)
  }

  lemma NextPeers(s: State, e: DriverEvent)
    requires Accepted(s, e)
    ensures Next(s, e).state.peers == PeersAfter(s.peers, e)
  {
    hide Drive, CheckReplay, CheckProbe, Submittable;
  }

  lemma {:induction false} StatesHavePeers(s: State, events: seq<DriverEvent>, k: nat)
    requires AllAccepted(s, events) && k <= |events|
    ensures StateAt(s, events, k).peers == PeersAt(s.peers, events, k)
    decreases k
  {
    hide Accepted, Next, PeersAfter;
    if k > 0 {
      NextPeers(s, events[0]);
      StatesHavePeers(Next(s, events[0]).state, events[1..], k - 1);
    }
  }

  lemma {:induction false} PeersAtNext(p: Peers, events: seq<DriverEvent>, k: nat)
    requires k < |events|
    ensures PeersAt(p, events, k + 1) == PeersAfter(PeersAt(p, events, k), events[k])
    decreases k
  {
    hide PeersAfter;
    if k > 0 {
      PeersAtNext(PeersAfter(p, events[0]), events[1..], k - 1);
    }
  }

  predicate Rolls(events: seq<DriverEvent>, x: nat, y: nat)
    requires y <= |events|
  {
    exists k :: x <= k < y && events[k].RollEpoch?
  }

  /** Two events find the same epoch exactly when it was not rolled between them. */
  lemma {:induction false} EpochsAgreeIff(p: Peers, events: seq<DriverEvent>, x: nat, y: nat)
    requires x <= y <= |events|
    ensures 0 <= PeersAt(p, events, y).epoch - PeersAt(p, events, x).epoch <= y - x
    ensures PeersAt(p, events, y).epoch == PeersAt(p, events, x).epoch <==> !Rolls(events, x, y)
    decreases y
  {
    hide PeersAt;
    if x < y {
      EpochsAgreeIff(p, events, x, y - 1);
      PeersAtNext(p, events, y - 1);
      if events[y - 1].RollEpoch? {
        assert Rolls(events, x, y);
      } else if Rolls(events, x, y) {
        var k :| x <= k < y && events[k].RollEpoch?;
        assert Rolls(events, x, y - 1);
      }
    }
  }

  /**
   * Over every run: a result echoing branch i of submission x is the vote for branch j of the same or a later
   * submission y exactly when the epoch was not rolled between the two; otherwise that cycle commits nothing.
   */
  lemma VerdictLastsUntilTheEpochRolls(
    s: State, events: seq<DriverEvent>, x: nat, i: u32, about: seq<Token>, y: nat, j: u32, m: Message)
    requires AllAccepted(s, events) && x <= y < |events| && s.peers.epoch + |events| < TWO_64
    requires events[x].SubmitRequest?
    requires EchoesVerification(AsSubmission(events[x]).Question(StateAt(s, events, x), i, about), m)
    requires events[y].SubmitRequest? && AsSubmission(events[y]).Readable(StateAt(s, events, y))
    requires var t, w := StateAt(s, events, y), AsSubmission(events[y]);
             && j < w.branches && Asks(t, w, j)
             && w.replies[j].verification.Some? && DecodeSpec(w.replies[j].verification.value) == Ok(m)
    ensures var t, w := StateAt(s, events, y), AsSubmission(events[y]);
            && (!Rolls(events, x, y) ==>
                  && |m.u32s| > VR_FIRST_REJECTION
                  && var vote := Vote(j as nat + 1, Asked(t, w, j), m.u32s[VR_ACCEPTED], m.u32s[VR_FIRST_REJECTION]);
                     Poll(t.peers, w.From(t), w.replies, j as nat + 1).votes
                     == Ok(Poll(t.peers, w.From(t), w.replies, j).votes.value + [vote]))
            && (Rolls(events, x, y) ==>
                  w.Result(t).result == Err(Stale(StaleEpoch)) && w.Result(t).request.committed == [])
  {
    hide AllAccepted, Poll, Asks, Asked, DecodeSpec, Submission.Readable, Submission.From, Submission.Result,
         Rolls, StateAt, EchoesVerification, Submission.Question;
    StatesHavePeers(s, events, x);
    StatesHavePeers(s, events, y);
    EpochsAgreeIff(s.peers, events, 0, x);
    EpochsAgreeIff(s.peers, events, x, y);
    VerdictIsCountedIff(
      StateAt(s, events, x), AsSubmission(events[x]), i, about, StateAt(s, events, y), AsSubmission(events[y]), j, m);
  }

  // ---------------------------------------------------------------------------
  // Verdicts that go astray
  // ---------------------------------------------------------------------------

  /** The cycle passes with m as the verdict on branch j. */
  predicate Counts(s: State, w: Submission, j: u32, m: Message)
    requires w.Readable(s) && j < w.branches
  {
    w.Result(s).result.Ok? && w.replies[j].verification.Some? && DecodeSpec(w.replies[j].verification.value) == Ok(m)
  }

  /** What the verifier answers when it is asked about branch i. */
  function VerdictOn(a: Synthetic.Arithmetic, s: State, w: Submission, i: u32): (m: Message)
    requires w.Readable(s) && i < w.branches && Asks(s, w, i)
    ensures EchoesVerification(w.Question(s, i, Asked(s, w, i)), m)
  {
    WorkersEcho(a, w.Question(s, i, Asked(s, w, i)));
    VerificationReply(a, w.Question(s, i, Asked(s, w, i)))
  }

  /** Two branches asked one after the other, in one submission or in two. */
  predicate Before(events: seq<DriverEvent>, x: nat, i: u32, y: nat, j: u32) {
    && x <= y < |events| && events[x].SubmitRequest? && events[y].SubmitRequest?
    && i < events[x].branches && j < events[y].branches && (x < y || i < j)
  }

  /** The cycle of event y counts, for its branch j, the verifier's answer about branch i of event x. */
  predicate GoesAstray(
    a: Synthetic.Arithmetic, s: State, events: seq<DriverEvent>, x: nat, i: u32, y: nat, j: u32)
    requires AllAccepted(s, events) && Before(events, x, i, y, j)
  {
    ReadableAt(s, events, x);
    ReadableAt(s, events, y);
    var s1, w1 := StateAt(s, events, x), AsSubmission(events[x]);
    var s2, w2 := StateAt(s, events, y), AsSubmission(events[y]);
    Asks(s1, w1, i) && Counts(s2, w2, j, VerdictOn(a, s1, w1, i))
  }

  /** The two verifiers are asked about different tokens. */
  predicate OtherTokens(s: State, events: seq<DriverEvent>, x: nat, i: u32, y: nat, j: u32)
    requires AllAccepted(s, events) && Before(events, x, i, y, j)
  {
    ReadableAt(s, events, x);
    ReadableAt(s, events, y);
    var s1, w1 := StateAt(s, events, x), AsSubmission(events[x]);
    var s2, w2 := StateAt(s, events, y), AsSubmission(events[y]);
    Asks(s1, w1, i) && Asks(s2, w2, j) && Asked(s1, w1, i) != Asked(s2, w2, j)
  }

  ghost predicate NoneGoesAstray(a: Synthetic.Arithmetic, s: State, events: seq<DriverEvent>)
    requires AllAccepted(s, events)
  {
    forall x: nat, i: u32, y: nat, j: u32 :: Before(events, x, i, y, j) ==> !GoesAstray(a, s, events, x, i, y, j)
  }

  // ---------------------------------------------------------------------------
  // Plans: what a driver decides, the replies left open
  // ---------------------------------------------------------------------------

  function Bare(e: DriverEvent): DriverEvent {
    if e.SubmitRequest? then e.(replies := []) else e
  }

  predicate SamePlan(plan: seq<DriverEvent>, events: seq<DriverEvent>) {
    |plan| == |events| && forall k :: 0 <= k < |plan| ==> Bare(plan[k]) == Bare(events[k])
  }

  /** Every submission asks at least one branch, every replayed result has the fields that are read. */
  predicate Sendable(plan: seq<DriverEvent>) {
    forall k :: 0 <= k < |plan| ==>
      && (plan[k].SubmitRequest? ==> plan[k].branches >= 1)
      && (plan[k].ReplayResult? ==> |plan[k].message.u64s| > PR_PROPOSAL_GEN)
  }

  /** Deeper submissions never reach the verifier: its dispatch would not encode. */
  predicate Verifiable(e: DriverEvent) {
    e.SubmitRequest? && e.depth <= 61
  }

  /** A driver that asks about one branch at a time and rolls the epoch before it asks again. */
  predicate OneQuestionAnEpoch(plan: seq<DriverEvent>) {
    && (forall x :: 0 <= x < |plan| && Verifiable(plan[x]) ==> plan[x].branches <= 1)
    && (forall x, y :: 0 <= x < y < |plan| && Verifiable(plan[x]) && Verifiable(plan[y]) ==> Rolls(plan, x, y))
  }

  lemma {:induction false} SamePlanSamePeers(p: Peers, plan: seq<DriverEvent>, events: seq<DriverEvent>, k: nat)
    requires SamePlan(plan, events) && k <= |plan|
    ensures PeersAt(p, plan, k) == PeersAt(p, events, k)
    decreases k
  {
    if k > 0 {
      assert Bare(plan[0]) == Bare(events[0]);
      assert SamePlan(plan[1..], events[1..]);
      SamePlanSamePeers(PeersAfter(p, plan[0]), plan[1..], events[1..], k - 1);
    }
  }

  // --- the safe drivers -----------------------------------------------------------

  lemma AskedIsShallow(s: State, w: Submission, i: u32)
    requires w.Readable(s) && i < w.branches && Asks(s, w, i)
    ensures w.depth <= 61
  {
    hide DecodeSpec, Poll;
    assert WellFormed(s.peers, At(w.From(s), i), w.replies[i]);
  }

  /** Every branch of a cycle that passes has passed. */
  lemma {:induction false} EveryBranchPassed(p: Peers, r: Request, replies: seq<BranchReply>, j: nat, n: nat)
    requires j < n <= |replies| < 0x1_0000_0000 && AllWellFormed(p, r, replies) && Poll(p, r, replies, n).votes.Ok?
    ensures Poll(p, r, replies, j).votes.Ok? && AskBranch(p, At(r, j), j, replies[j]).Ok?
    decreases n
  {
    hide AskBranch, SentFor, WellFormed;
    if j < n - 1 {
      EveryBranchPassed(p, r, replies, j, n - 1);
    }
  }

  lemma CountedPasses(s: State, w: Submission, j: u32, m: Message)
    requires w.Readable(s) && j < w.branches && Counts(s, w, j, m)
    ensures Asks(s, w, j) && |m.u64s| > VR_BASE_GEN && VerificationRejection(s.peers, At(w.From(s), j), m) == None
  {
    hide DecodeSpec, Poll, JudgeProposal, Winner;
    EveryBranchPassed(s.peers, w.From(s), w.replies, j, w.branches);
    assert WellFormed(s.peers, At(w.From(s), j), w.replies[j]);
  }

  lemma CountedAnswersShareTheEpoch(
    a: Synthetic.Arithmetic, s1: State, w1: Submission, i: u32, s2: State, w2: Submission, j: u32)
    requires w1.Readable(s1) && i < w1.branches && Asks(s1, w1, i) && s1.peers.epoch < TWO_64
    requires w2.Readable(s2) && j < w2.branches && Counts(s2, w2, j, VerdictOn(a, s1, w1, i))
    ensures w1.depth <= 61 && w2.depth <= 61 && s1.peers.epoch == s2.peers.epoch
  {
    hide Asks, Asked, Counts, Submittable, VerificationRejection, Submission.From, VerdictOn, EchoesVerification;
    AskedIsShallow(s1, w1, i);
    CountedPasses(s2, w2, j, VerdictOn(a, s1, w1, i));
    AskedIsShallow(s2, w2, j);
    VerdictMarks(s1, w1, i, Asked(s1, w1, i), s2, w2, j, VerdictOn(a, s1, w1, i));
  }

  lemma SafeDriver(
    a: Synthetic.Arithmetic, s: State, plan: seq<DriverEvent>, events: seq<DriverEvent>, x: nat, i: u32, y: nat, j: u32)
    requires SamePlan(plan, events) && OneQuestionAnEpoch(plan) && s.peers.epoch + |plan| < TWO_64
    requires AllAccepted(s, events) && Before(events, x, i, y, j)
    ensures !GoesAstray(a, s, events, x, i, y, j)
  {
    hide Asks, VerdictOn, Counts, AllAccepted, StateAt, Submission.Readable, Rolls;
    if GoesAstray(a, s, events, x, i, y, j) {
      ReadableAt(s, events, x);
      ReadableAt(s, events, y);
      StatesHavePeers(s, events, x);
      StatesHavePeers(s, events, y);
      SamePlanSamePeers(s.peers, plan, events, x);
      SamePlanSamePeers(s.peers, plan, events, y);
      EpochsAgreeIff(s.peers, plan, 0, x);
      EpochsAgreeIff(s.peers, plan, x, y);
      CountedAnswersShareTheEpoch(
        a, StateAt(s, events, x), AsSubmission(events[x]), i, StateAt(s, events, y), AsSubmission(events[y]), j);
    }
  }

  // --- the unsafe drivers -----------------------------------------------------------

  /** Two tokens no model expects: one for the branch that is asked about, one for all others. */
  const ASKED_TOKEN: u32 := 4096
  const OTHER_TOKEN: u32 := 4097

  /** The same token throughout. */
  function Drafts(depth: u32, token: u32): (tokens: seq<Token>)
    ensures |tokens| == depth
  {
    seq(depth, k requires 0 <= k < depth => token)
  }

  /** A proposal result that carries a dispatch's marks and drafts the same token throughout. */
  function Obliging(p: Peers, r: Request, token: u32): Message {
    Message(
      PROTOCOL_VERSION, PROPOSAL_RESULT,
      [r.id, U64(r.sequence), U64(r.attempt), U64(r.epoch), 0, 0, U64(r.authGen), p.proposerBoot, 1, U64(r.propGen), 0],
      [0, r.depth] + Drafts(r.depth, token), [])
  }

  function ObligingReply(p: Peers, r: Request, token: u32, verdict: Message): BranchReply {
    BranchReply(Some(Payload(Obliging(p, r, token))), Some(Payload(verdict)))
  }

  lemma ObligingIsTaken(p: Peers, r: Request, token: u32)
    requires Fits(r) && r.depth <= 61
    ensures Valid(Obliging(p, r, token)) && ReadableProposal(p, r, Obliging(p, r, token))
    ensures ProposalRejection(p, r, Obliging(p, r, token)) == None && Obliging(p, r, token).u32s[PR_OUTCOME] == 0
    ensures Obliging(p, r, token).u32s[PR_TOKENS..][..r.depth] == Drafts(r.depth, token)
  {
  }

  /** A verdict that can be read and accepts nothing. */
  predicate Blank(p: Peers, r: Request, verdict: Message) {
    && Valid(verdict) && |verdict.u64s| > VR_BASE_GEN && VerificationRejection(p, r, verdict) == None
    && |verdict.u32s| > VR_FIRST_REJECTION && verdict.u32s[VR_ACCEPTED] == 0
  }

  lemma ObligingReplyPasses(p: Peers, r: Request, b: nat, token: u32, verdict: Message)
    requires Fits(r) && r.depth <= 61 && Blank(p, r, verdict)
    ensures var reply := ObligingReply(p, r, token, verdict);
            && WellFormed(p, r, reply) && AskBranch(p, r, b, reply).Ok?
            && JudgeProposal(p, r, reply) == Ok(Drafts(r.depth, token))
            && reply.verification.Some? && DecodeSpec(reply.verification.value) == Ok(verdict)
  {
    hide DecodeSpec, Payload, Obliging, Valid, ProposalRejection, VerificationRejection, Fits;
    ObligingIsTaken(p, r, token);
    DistributedCycle.ValidTravels(Obliging(p, r, token));
    DistributedCycle.ValidTravels(verdict);
  }

  // The verdict on tokens no model expects.

  lemma {:induction false} NothingCounts(flags: seq<bool>)
    requires forall k :: 0 <= k < |flags| ==> !flags[k]
    ensures Count(flags) == 0
    decreases |flags|
  {
    if |flags| > 0 {
      NothingCounts(flags[..|flags| - 1]);
    }
  }

  lemma {:induction false} TargetsAreInVocabulary(src: Source, n: nat)
    ensures forall k :: 0 <= k < n ==> src.TargetPath(n)[k] < 4096
  {
    if n > 0 {
      TargetsAreInVocabulary(src, n - 1);
    }
  }

  lemma UnexpectedTokensAreRejected(a: Synthetic.Arithmetic, v: VerificationInput)
    requires forall k :: 0 <= k < |v.candidate| ==> v.candidate[k] == ASKED_TOKEN
    ensures VerifySpec(a, v).acceptedPrefix == 0
  {
    hide Source.TargetPath, FirstClear, SourceOf;
    TargetsAreInVocabulary(VerifierSource(a, v), |v.candidate|);
    NothingCounts(Flags(a, v));
  }

  /** The answer about branch 0 of a submission, when it drafts the token no model expects. */
  function StrayVerdict(a: Synthetic.Arithmetic, p: Peers, r: Request): Message {
    VerificationReply(a, VerificationDispatch(p, At(r, 0), 0, Drafts(r.depth, ASKED_TOKEN)))
  }

  lemma StrayVerdictIsBlank(a: Synthetic.Arithmetic, p1: Peers, r1: Request, p2: Peers, r2: Request)
    requires r1.attempt == r2.attempt < TWO_64 && r1.epoch == r2.epoch < TWO_64 && r1.authGen == r2.authGen < TWO_64
    ensures Blank(p2, r2, StrayVerdict(a, p1, r1))
  {
    hide VerifySpec;
    var d := VerificationDispatch(p1, At(r1, 0), 0, Drafts(r1.depth, ASKED_TOKEN));
    UnexpectedTokensAreRejected(a, DispatchedVerification(d));
  }

  // The plan with replies filled in.

  /** The request a submission dispatches from. */
  function Opened(p: Peers, e: DriverEvent): Request
    requires e.SubmitRequest?
  {
    Configured(p, Reset(p, e.id), e.depth, e.branches, e.aligned)
  }

  function ObligingReplies(p: Peers, r: Request, asked: bool, verdict: Message, n: nat): (replies: seq<BranchReply>)
    ensures |replies| == n
  {
    seq(n, b requires 0 <= b < n =>
      ObligingReply(p, At(r, b), if asked && b == 0 then ASKED_TOKEN else OTHER_TOKEN, verdict))
  }

  function LostReplies(n: nat): (replies: seq<BranchReply>)
    ensures |replies| == n
  {
    seq(n, b requires 0 <= b < n => BranchReply(None, None))
  }

  /** The verdict that event x's verifier gives on its branch 0. */
  function StrayAt(a: Synthetic.Arithmetic, p: Peers, plan: seq<DriverEvent>, x: nat): Message
    requires x < |plan| && plan[x].SubmitRequest?
  {
    StrayVerdict(a, PeersAt(p, plan, x), Opened(PeersAt(p, plan, x), plan[x]))
  }

  /** The verdict on event x, as event k receives it; all other submissions lose their replies. */
  function RepliesAt(a: Synthetic.Arithmetic, p: Peers, plan: seq<DriverEvent>, x: nat, y: nat, k: nat)
    : (replies: seq<BranchReply>)
    requires x < |plan| && k < |plan| && plan[x].SubmitRequest? && plan[k].SubmitRequest?
    ensures |replies| == plan[k].branches
  {
    if k == x || k == y then
      ObligingReplies(
        PeersAt(p, plan, k), Opened(PeersAt(p, plan, k), plan[k]), k == x, StrayAt(a, p, plan, x), plan[k].branches)
    else LostReplies(plan[k].branches)
  }

  function FilledEvent(a: Synthetic.Arithmetic, p: Peers, plan: seq<DriverEvent>, x: nat, y: nat, k: nat)
    : (e: DriverEvent)
    requires x < |plan| && plan[x].SubmitRequest? && k < |plan|
    ensures Bare(e) == Bare(plan[k])
  {
    if plan[k].SubmitRequest? then plan[k].(replies := RepliesAt(a, p, plan, x, y, k)) else plan[k]
  }

  function Filled(a: Synthetic.Arithmetic, p: Peers, plan: seq<DriverEvent>, x: nat, y: nat): (events: seq<DriverEvent>)
    requires x < |plan| && plan[x].SubmitRequest?
    ensures SamePlan(plan, events)
  {
    seq(|plan|, k requires 0 <= k < |plan| => FilledEvent(a, p, plan, x, y, k))
  }

  predicate AcceptedBy(p: Peers, e: DriverEvent) {
    match e
    case SubmitRequest(_, _, branches, _, replies) =>
      1 <= branches == |replies| && AllWellFormed(p, Opened(p, e), replies)
    case ReplayResult(m) => |m.u64s| > PR_PROPOSAL_GEN
    case _ => true
  }

  lemma {:induction false} AcceptedThroughout(s: State, events: seq<DriverEvent>)
    requires forall k :: 0 <= k < |events| ==> AcceptedBy(PeersAt(s.peers, events, k), events[k])
    ensures AllAccepted(s, events)
    decreases |events|
  {
    hide Next, WellFormed, AllWellFormed, PeersAfter;
    if |events| > 0 {
      assert AcceptedBy(PeersAt(s.peers, events, 0), events[0]);
      NextPeers(s, events[0]);
      forall k | 0 <= k < |events[1..]|
        ensures AcceptedBy(PeersAt(PeersAfter(s.peers, events[0]), events[1..], k), events[1..][k])
      {
        assert AcceptedBy(PeersAt(s.peers, events, k + 1), events[k + 1]);
      }
      AcceptedThroughout(Next(s, events[0]).state, events[1..]);
    }
  }

  lemma ObligingBranch(p: Peers, r: Request, asked: bool, verdict: Message, n: nat, b: nat)
    requires Fits(r) && r.depth <= 61 && r.propGen + n < TWO_64 && Blank(p, r, verdict) && b < n
    ensures var reply := ObligingReplies(p, r, asked, verdict, n)[b];
            && WellFormed(p, At(r, b), reply) && AskBranch(p, At(r, b), b, reply).Ok?
            && JudgeProposal(p, At(r, b), reply)
               == Ok(Drafts(r.depth, if asked && b == 0 then ASKED_TOKEN else OTHER_TOKEN))
            && reply.verification.Some? && DecodeSpec(reply.verification.value) == Ok(verdict)
  {
    hide ObligingReply, Valid, WellFormed, AskBranch, JudgeProposal, DecodeSpec;
    ObligingReplyPasses(p, At(r, b), b, if asked && b == 0 then ASKED_TOKEN else OTHER_TOKEN, verdict);
  }

  lemma ObligingRepliesAreWellFormed(p: Peers, r: Request, asked: bool, verdict: Message, n: nat)
    requires Fits(r) && r.depth <= 61 && r.propGen + n < TWO_64 && Blank(p, r, verdict)
    ensures AllWellFormed(p, r, ObligingReplies(p, r, asked, verdict, n))
  {
    hide ObligingReplies, WellFormed, AskBranch, Fits, Blank, JudgeProposal, DecodeSpec;
    forall b | 0 <= b < n
      ensures WellFormed(p, At(r, b), ObligingReplies(p, r, asked, verdict, n)[b])
    {
      ObligingBranch(p, r, asked, verdict, n, b);
    }
  }

  lemma {:induction false} ObligingPoll(p: Peers, r: Request, asked: bool, verdict: Message, n: nat, m: nat)
    requires Fits(r) && r.depth <= 61 && r.propGen + n < TWO_64 && Blank(p, r, verdict) && m <= n < 0x1_0000_0000
    ensures AllWellFormed(p, r, ObligingReplies(p, r, asked, verdict, n))
    ensures Poll(p, r, ObligingReplies(p, r, asked, verdict, n), m).votes.Ok?
  {
    hide ObligingReplies, WellFormed, AskBranch, SentFor, Fits, Blank, JudgeProposal, DecodeSpec;
    ObligingRepliesAreWellFormed(p, r, asked, verdict, n);
    if m > 0 {
      ObligingPoll(p, r, asked, verdict, n, m - 1);
      ObligingBranch(p, r, asked, verdict, n, m - 1);
    }
  }

  lemma LostRepliesAreWellFormed(p: Peers, r: Request, n: nat)
    ensures AllWellFormed(p, r, LostReplies(n))
  {
  }

  /** Both submissions find the same epoch, so the stray verdict passes there. */
  lemma StrayVerdictPasses(a: Synthetic.Arithmetic, p: Peers, plan: seq<DriverEvent>, x: nat, y: nat, k: nat)
    requires x <= y < |plan| && (k == x || k == y) && p.epoch + |plan| < TWO_64 && !Rolls(plan, x, y)
    requires plan[x].SubmitRequest? && plan[k].SubmitRequest?
    ensures var r := Opened(PeersAt(p, plan, k), plan[k]);
            Fits(r) && r.propGen == 0 && Blank(PeersAt(p, plan, k), r, StrayAt(a, p, plan, x))
  {
    hide Blank, StrayVerdict, Rolls;
    EpochsAgreeIff(p, plan, 0, x);
    EpochsAgreeIff(p, plan, x, y);
    StrayVerdictIsBlank(
      a, PeersAt(p, plan, x), Opened(PeersAt(p, plan, x), plan[x]), PeersAt(p, plan, k),
      Opened(PeersAt(p, plan, k), plan[k]));
  }

  /** The cycle passes, branch b drafts the given token throughout, and its verdict is the given one. */
  predicate Passes(p: Peers, r: Request, replies: seq<BranchReply>, b: u32, token: u32, verdict: Message) {
    && AllWellFormed(p, r, replies) && b < |replies| < 0x1_0000_0000
    && Poll(p, r, replies, b).votes.Ok? && Poll(p, r, replies, |replies|).votes.Ok?
    && JudgeProposal(p, At(r, b), replies[b]) == Ok(Drafts(r.depth, token))
    && replies[b].verification.Some? && DecodeSpec(replies[b].verification.value) == Ok(verdict)
  }

  function TokenAt(x: nat, k: nat, b: u32): u32 {
    if k == x && b == 0 then ASKED_TOKEN else OTHER_TOKEN
  }

  /** At x and at y the filled-in submission passes with the stray verdict for every branch. */
  lemma FilledPasses(a: Synthetic.Arithmetic, p: Peers, plan: seq<DriverEvent>, x: nat, y: nat, k: nat, b: u32)
    requires x <= y < |plan| && (k == x || k == y) && p.epoch + |plan| < TWO_64 && !Rolls(plan, x, y)
    requires Verifiable(plan[x]) && Verifiable(plan[k]) && b < plan[k].branches
    ensures Passes(
              PeersAt(p, plan, k), Opened(PeersAt(p, plan, k), plan[k]), RepliesAt(a, p, plan, x, y, k), b,
              TokenAt(x, k, b), StrayAt(a, p, plan, x))
  {
    hide Poll, WellFormed, AskBranch, JudgeProposal, DecodeSpec, ObligingReplies, StrayVerdict, Blank, Fits,
         Rolls, PeersAt;
    var q, r := PeersAt(p, plan, k), Opened(PeersAt(p, plan, k), plan[k]);
    var verdict := StrayAt(a, p, plan, x);
    StrayVerdictPasses(a, p, plan, x, y, k);
    ObligingPoll(q, r, k == x, verdict, plan[k].branches, b);
    ObligingPoll(q, r, k == x, verdict, plan[k].branches, plan[k].branches);
    ObligingBranch(q, r, k == x, verdict, plan[k].branches, b);
  }

  lemma FilledIsAccepted(a: Synthetic.Arithmetic, s: State, plan: seq<DriverEvent>, x: nat, y: nat)
    requires x <= y < |plan| && s.peers.epoch + |plan| < TWO_64 && !Rolls(plan, x, y)
    requires Sendable(plan) && Verifiable(plan[x]) && Verifiable(plan[y])
    ensures AllAccepted(s, Filled(a, s.peers, plan, x, y))
  {
    hide AllWellFormed, AllAccepted, Poll, JudgeProposal, DecodeSpec, Rolls;
    var events := Filled(a, s.peers, plan, x, y);
    forall k | 0 <= k < |events|
      ensures AcceptedBy(PeersAt(s.peers, events, k), events[k])
    {
      SamePlanSamePeers(s.peers, plan, events, k);
      FilledEventIsAccepted(a, s, plan, x, y, k);
    }
    AcceptedThroughout(s, events);
  }

  lemma FilledEventIsAccepted(a: Synthetic.Arithmetic, s: State, plan: seq<DriverEvent>, x: nat, y: nat, k: nat)
    requires x <= y < |plan| && s.peers.epoch + |plan| < TWO_64 && !Rolls(plan, x, y) && k < |plan|
    requires Sendable(plan) && Verifiable(plan[x]) && Verifiable(plan[y])
    ensures AcceptedBy(PeersAt(s.peers, plan, k), FilledEvent(a, s.peers, plan, x, y, k))
  {
    hide AllWellFormed, Poll, JudgeProposal, DecodeSpec, Rolls, ObligingReplies, LostReplies, StrayVerdict;
    if plan[k].SubmitRequest? {
      if k == x || k == y {
        FilledPasses(a, s.peers, plan, x, y, k, 0);
      } else {
        var p := PeersAt(s.peers, plan, k);
        LostRepliesAreWellFormed(p, Opened(p, plan[k]), plan[k].branches);
      }
    }
  }

  /** The same of a submission: it asks branch b about such a draft, and counts the given verdict for it. */
  predicate CountsAnyway(t: State, w: Submission, b: u32, token: u32, verdict: Message) {
    && w.Readable(t) && b < w.branches && Asks(t, w, b) && Asked(t, w, b) == Drafts(w.depth, token)
    && Counts(t, w, b, verdict)
  }

  lemma FilledRun(a: Synthetic.Arithmetic, s: State, plan: seq<DriverEvent>, x: nat, y: nat, k: nat, b: u32)
    requires x <= y < |plan| && (k == x || k == y) && s.peers.epoch + |plan| < TWO_64 && !Rolls(plan, x, y)
    requires Verifiable(plan[x]) && Verifiable(plan[k]) && b < plan[k].branches
    requires AllAccepted(s, Filled(a, s.peers, plan, x, y))
    ensures var events := Filled(a, s.peers, plan, x, y);
            && events[k].SubmitRequest? && events[k].branches == plan[k].branches
            && var t, w := StateAt(s, events, k), AsSubmission(events[k]);
               && t.peers == PeersAt(s.peers, plan, k) && w.From(t) == Opened(t.peers, plan[k])
               && CountsAnyway(t, w, b, TokenAt(x, k, b), StrayAt(a, s.peers, plan, x))
  {
    hide AllWellFormed, AllAccepted, Poll, JudgeProposal, DecodeSpec, Rolls, RepliesAt, StateAt, StrayAt, PeersAt,
         TokenAt;
    var events := Filled(a, s.peers, plan, x, y);
    assert events[k] == FilledEvent(a, s.peers, plan, x, y, k);
    ReadableAt(s, events, k);
    StatesHavePeers(s, events, k);
    SamePlanSamePeers(s.peers, plan, events, k);
    FilledPasses(a, s.peers, plan, x, y, k, b);
  }

  /**
   * A driver that asks a second question in an epoch can have the answer to the first counted for it, with replies
   * that draft other tokens than those the verifier was asked about.
   */
  lemma UnsafeDriver(a: Synthetic.Arithmetic, s: State, plan: seq<DriverEvent>, x: nat, y: nat, j: u32)
    requires x <= y < |plan| && s.peers.epoch + |plan| < TWO_64 && !Rolls(plan, x, y)
    requires Sendable(plan) && Verifiable(plan[x]) && Verifiable(plan[y])
    requires j < plan[y].branches && (x < y || j > 0)
    ensures var events := Filled(a, s.peers, plan, x, y);
            && AllAccepted(s, events) && Before(events, x, 0, y, j) && GoesAstray(a, s, events, x, 0, y, j)
            && (plan[y].depth > 0 ==> OtherTokens(s, events, x, 0, y, j))
  {
    hide AllWellFormed, AllAccepted, Poll, JudgeProposal, DecodeSpec, Rolls, Filled, StateAt, Asks, Asked, Counts,
         Drafts, VerificationDispatch, VerificationReply, Submittable;
    var events := Filled(a, s.peers, plan, x, y);
    FilledIsAccepted(a, s, plan, x, y);
    FilledRun(a, s, plan, x, y, x, 0);
    FilledRun(a, s, plan, x, y, y, j);
    ReadableAt(s, events, x);
    ReadableAt(s, events, y);
    if plan[y].depth > 0 {
      DraftsDiffer(plan[x].depth, plan[y].depth);
    }
  }

  lemma DraftsDiffer(n: u32, m: u32)
    requires m > 0
    ensures Drafts(n, ASKED_TOKEN) != Drafts(m, OTHER_TOKEN)
  {
    if n == m {
      assert Drafts(n, ASKED_TOKEN)[0] != Drafts(m, OTHER_TOKEN)[0];
    }
  }

  /** A driver is safe from stray verdicts, whatever the replies, exactly when it asks one question an epoch. */
  lemma NoneGoesAstrayIff(a: Synthetic.Arithmetic, s: State, plan: seq<DriverEvent>)
    requires Sendable(plan) && s.peers.epoch + |plan| < TWO_64
    ensures (forall events :: SamePlan(plan, events) && AllAccepted(s, events) ==> NoneGoesAstray(a, s, events))
            <==> OneQuestionAnEpoch(plan)
  {
    hide AllAccepted, GoesAstray, Rolls, Filled, SamePlan, Bare;
    if OneQuestionAnEpoch(plan) {
      forall events, x: nat, i: u32, y: nat, j: u32 |
        SamePlan(plan, events) && AllAccepted(s, events) && Before(events, x, i, y, j)
        ensures !GoesAstray(a, s, events, x, i, y, j)
      {
        SafeDriver(a, s, plan, events, x, i, y, j);
      }
    } else if x :| 0 <= x < |plan| && Verifiable(plan[x]) && plan[x].branches > 1 {
      NothingRollsWithin(plan, x);
      UnsafeDriver(a, s, plan, x, x, 1);
    } else {
      var x, y :| 0 <= x < y < |plan| && Verifiable(plan[x]) && Verifiable(plan[y]) && !Rolls(plan, x, y);
      UnsafeDriver(a, s, plan, x, y, 0);
    }
  }

  lemma NothingRollsWithin(events: seq<DriverEvent>, x: nat)
    requires x < |events|
    ensures !Rolls(events, x, x)
  {
  }
}
