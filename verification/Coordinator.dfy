/**
 * The coordinator process: the authority gate, the distributed cycle with its all-or-nothing commit, and the driver
 * messages. Workers are whatever sends the replies; sockets are reduced to the payloads that arrive, if any.
 */
module Coordinator {
  import opened Words
  import opened Executors
  import opened Selection
  import opened Wire
  import opened Worker

  const TWO_64 := 0x1_0000_0000_0000_0000

  function U64(n: nat): u64 {
    n % TWO_64
  }

  datatype Request = Request(
    id: u64, sequence: nat, attempt: nat, epoch: nat, authGen: nat, authState: StateRef, stateGen: nat,
    committed: seq<Token>, depth: u32, branches: u32, aligned: u32, propGen: nat)

  /** What the coordinator knows of its workers, and its own epoch. */
  datatype Peers = Peers(epoch: nat, proposerBoot: u64, verifierBoot: u64)

  datatype Reason = StaleEpoch | StaleBoot | StaleAttempt | WrongBase | StaleGeneration

  /** The chain of comparisons every result passes. */
  function Validate(r: Request, epoch: nat, boot: nat, attempt: nat, baseGen: nat, propGen: nat, currentBoot: nat)
    : Option<Reason>
  {
    if epoch != r.epoch then Some(StaleEpoch)
    else if boot != currentBoot then Some(StaleBoot)
    else if attempt != r.attempt then Some(StaleAttempt)
    else if baseGen != r.authGen then Some(WrongBase)
    else if propGen != r.propGen then Some(StaleGeneration)
    else None
  }

  /** The request's numbers fit the 64-bit fields they travel in. */
  predicate Fits(r: Request) {
    && r.sequence < TWO_64 && r.attempt < TWO_64 && r.epoch < TWO_64 && r.authState.id < TWO_64
    && r.authState.generation < TWO_64 && r.authGen < TWO_64 && r.propGen < TWO_64
  }

  // ---------------------------------------------------------------------------
  // Dispatches and replies
  // ---------------------------------------------------------------------------

  function ProposalDispatch(p: Peers, r: Request, b: u32): Message {
    Message(
      PROTOCOL_VERSION, PROPOSAL_DISPATCH,
      [r.id, U64(r.sequence), U64(r.attempt), U64(r.epoch), U64(r.authState.id), U64(r.authState.generation),
       U64(r.authGen), 1, U64(1000 + r.id as nat + b as nat), b, p.proposerBoot, U64(r.propGen)],
      [r.depth, r.aligned, r.branches], [])
  }

  function VerificationDispatch(p: Peers, r: Request, b: u32, tokens: seq<Token>): Message {
    Message(
      PROTOCOL_VERSION, VERIFICATION_DISPATCH,
      [r.id, U64(r.sequence), U64(r.attempt), U64(r.epoch), U64(r.authState.id), U64(r.authState.generation),
       U64(r.authGen), 1, U64(2000 + r.id as nat + b as nat), p.verifierBoot],
      [9, 4096, r.depth] + tokens, [])
  }

  /** What comes back for one branch: a payload, or nothing when sending or receiving fails. */
  datatype BranchReply = BranchReply(proposal: Option<seq<byte>>, verification: Option<seq<byte>>)

  /** The marks of a proposal result against the request as dispatched. */
  function ProposalRejection(p: Peers, r: Request, m: Message): Option<Reason>
    requires |m.u64s| > PR_PROPOSAL_GEN
  {
    Validate(r, m.u64s[PR_EPOCH], m.u64s[PR_BOOT], m.u64s[PR_ATTEMPT], m.u64s[PR_BASE_GEN], m.u64s[PR_PROPOSAL_GEN],
             p.proposerBoot)
  }

  /**
   * A verification result carries neither its boot nor the proposal generation, so those two checks compare equals.
   */
  function VerificationRejection(p: Peers, r: Request, m: Message): Option<Reason>
    requires |m.u64s| > VR_BASE_GEN
  {
    Validate(r, m.u64s[VR_EPOCH], p.verifierBoot, m.u64s[VR_ATTEMPT], m.u64s[VR_BASE_GEN], r.propGen, p.verifierBoot)
  }

  /**
   * The fields that are read are there: the marks always, the outcome once the marks pass, and the tokens once it is a
   * success. A success must also be small enough for its verification dispatch to be encoded.
   */
  predicate ReadableProposal(p: Peers, r: Request, m: Message) {
    && |m.u64s| > PR_PROPOSAL_GEN
    && (ProposalRejection(p, r, m) == None ==>
          && |m.u32s| > PR_OUTCOME
          && (m.u32s[PR_OUTCOME] == 0 ==> r.depth <= 61 && |m.u32s| >= PR_TOKENS && |m.u32s| - PR_TOKENS >= r.depth))
  }

  /** Likewise; and no more is accepted than was proposed. */
  predicate ReadableVerification(p: Peers, r: Request, m: Message) {
    && |m.u64s| > VR_BASE_GEN
    && (VerificationRejection(p, r, m) == None ==> |m.u32s| > VR_FIRST_REJECTION && m.u32s[VR_ACCEPTED] <= r.depth)
  }

  /** What the coordinator relies on in the replies of a branch it dispatches. */
  predicate WellFormed(p: Peers, r: Request, reply: BranchReply) {
    && (reply.proposal.Some? && DecodeSpec(reply.proposal.value).Ok? ==>
          ReadableProposal(p, r, DecodeSpec(reply.proposal.value).value))
    && (reply.verification.Some? && DecodeSpec(reply.verification.value).Ok? ==>
          ReadableVerification(p, r, DecodeSpec(reply.verification.value).value))
  }

  /** The request as branch b is dispatched: one generation a branch. */
  function At(r: Request, b: nat): Request {
    r.(propGen := r.propGen + b + 1)
  }

  predicate AllWellFormed(p: Peers, r: Request, replies: seq<BranchReply>) {
    forall i :: 0 <= i < |replies| ==> WellFormed(p, At(r, i), replies[i])
  }

  datatype Failure =
    | ProposerLost | ProposerGarbled | VerifierLost | VerifierGarbled | NotProposed | Stale(reason: Reason)

  datatype Vote = Vote(branch: nat, tokens: seq<Token>, accepted: nat, firstRejection: nat)

  /** A proposer's reply judged against the request as dispatched. */
  function JudgeProposal(p: Peers, r: Request, reply: BranchReply): Result<seq<Token>, Failure>
    requires WellFormed(p, r, reply)
  {
    if reply.proposal.None? then Err(ProposerLost)
    else match DecodeSpec(reply.proposal.value)
      case Err(_) => Err(ProposerGarbled)
      case Ok(m) =>
        var rejection := ProposalRejection(p, r, m);
        if rejection.Some? then Err(Stale(rejection.value))
        else if m.u32s[PR_OUTCOME] != 0 then Err(NotProposed)
        else Ok(m.u32s[PR_TOKENS..][..r.depth])
  }

  /** A verifier's reply judged against the request as dispatched. */
  function JudgeVerification(p: Peers, r: Request, b: nat, tokens: seq<Token>, reply: BranchReply)
    : Result<Vote, Failure>
    requires WellFormed(p, r, reply)
  {
    if reply.verification.None? then Err(VerifierLost)
    else match DecodeSpec(reply.verification.value)
      case Err(_) => Err(VerifierGarbled)
      case Ok(m) =>
        var rejection := VerificationRejection(p, r, m);
        if rejection.Some? then Err(Stale(rejection.value))
        else Ok(Vote(b + 1, tokens, m.u32s[VR_ACCEPTED], m.u32s[VR_FIRST_REJECTION]))
  }

  function AskBranch(p: Peers, r: Request, b: nat, reply: BranchReply): (v: Result<Vote, Failure>)
    requires WellFormed(p, r, reply)
    ensures v.Ok? ==> v.value.branch == b + 1 && |v.value.tokens| == r.depth && v.value.accepted <= r.depth
  {
    match JudgeProposal(p, r, reply)
    case Err(f) => Err(f)
    case Ok(tokens) => JudgeVerification(p, r, b, tokens, reply)
  }

  /** The payloads sent for one branch: its dispatch, and the verifier's when the proposal passed. */
  function SentFor(p: Peers, r: Request, b: u32, reply: BranchReply): seq<seq<byte>>
    requires WellFormed(p, r, reply)
  {
    match JudgeProposal(p, r, reply)
    case Err(_) => [Payload(ProposalDispatch(p, r, b))]
    case Ok(tokens) => [Payload(ProposalDispatch(p, r, b)), Payload(VerificationDispatch(p, r, b, tokens))]
  }

  datatype Polled = Polled(request: Request, votes: Result<seq<Vote>, Failure>, sent: seq<seq<byte>>)

  /** The first n branches asked in turn, each under a new proposal generation, until one fails. */
  function Poll(p: Peers, r: Request, replies: seq<BranchReply>, n: nat): (q: Polled)
    requires n <= |replies| < 0x1_0000_0000 && AllWellFormed(p, r, replies)
    ensures q.request == r.(propGen := q.request.propGen)
    ensures r.propGen <= q.request.propGen <= r.propGen + n
    ensures n > 0 ==> r.propGen < q.request.propGen
    ensures q.votes.Ok? ==> q.request.propGen == r.propGen + n && |q.votes.value| == n
  {
    if n == 0 then Polled(r, Ok([]), [])
    else
      var before := Poll(p, r, replies, n - 1);
      if before.votes.Err? then before
      else
        var asked := At(r, n - 1);
        var sent := before.sent + SentFor(p, asked, n - 1, replies[n - 1]);
        match AskBranch(p, asked, n - 1, replies[n - 1])
        case Err(f) => Polled(asked, Err(f), sent)
        case Ok(v) => Polled(asked, Ok(before.votes.value + [v]), sent)
  }

  function VoteBallots(votes: seq<Vote>): (b: seq<Ballot>)
    ensures |b| == |votes|
  {
    seq(|votes|, i requires 0 <= i < |votes| => Ballot(votes[i].accepted, votes[i].branch))
  }

  datatype Report = Report(accepted: nat, branch: nat, firstRejection: nat)

  /** The parameters of a cycle, and the coordinator's present epoch. */
  function Configured(p: Peers, r: Request, depth: u32, branches: u32, aligned: u32): Request {
    r.(depth := depth, branches := branches, aligned := aligned, epoch := p.epoch)
  }

  function Extended(r: Request, vote: Vote): Request
    requires vote.accepted <= |vote.tokens|
  {
    r.(committed := r.committed + vote.tokens[..vote.accepted], authGen := r.authGen + vote.accepted,
       authState := StateRef(r.authState.id, r.authState.generation + vote.accepted),
       stateGen := r.authState.generation + vote.accepted)
  }

  datatype Driven = Driven(request: Request, result: Result<Report, Failure>, sent: seq<seq<byte>>)

  lemma {:induction false} VotesFit(p: Peers, r: Request, replies: seq<BranchReply>, n: nat)
    requires n <= |replies| < 0x1_0000_0000 && AllWellFormed(p, r, replies)
    ensures var q := Poll(p, r, replies, n);
            q.votes.Ok? ==> forall i :: 0 <= i < n ==>
              && q.votes.value[i].branch == i + 1
              && q.votes.value[i].accepted <= |q.votes.value[i].tokens| == r.depth
  {
    hide AskBranch, SentFor;
    if n > 0 && Poll(p, r, replies, n).votes.Ok? {
      VotesFit(p, r, replies, n - 1);
      var before := Poll(p, r, replies, n - 1);
      var last := AskBranch(p, At(r, n - 1), n - 1, replies[n - 1]);
      var votes := Poll(p, r, replies, n).votes.value;
      assert last.Ok? && votes == before.votes.value + [last.value];
      forall i | 0 <= i < n
        ensures votes[i].branch == i + 1 && votes[i].accepted <= |votes[i].tokens| == r.depth
      {
        assert i < n - 1 ==> votes[i] == before.votes.value[i];
      }
    }
  }

  /** Once a branch has failed the rest are not asked. */
  lemma {:induction false} PollStops(p: Peers, r: Request, replies: seq<BranchReply>, n: nat, m: nat)
    requires n <= m <= |replies| < 0x1_0000_0000 && AllWellFormed(p, r, replies) && Poll(p, r, replies, n).votes.Err?
    ensures Poll(p, r, replies, m) == Poll(p, r, replies, n)
  {
    hide AskBranch, SentFor;
    if n < m {
      PollStops(p, r, replies, n, m - 1);
    }
  }

  /** A whole distributed cycle: one failed branch and nothing is committed. */
  function Drive(p: Peers, r: Request, depth: u32, branches: u32, aligned: u32, replies: seq<BranchReply>): Driven
    requires 1 <= branches == |replies|
    requires AllWellFormed(p, Configured(p, r, depth, branches, aligned), replies)
  {
    var q := Poll(p, Configured(p, r, depth, branches, aligned), replies, branches);
    VotesFit(p, Configured(p, r, depth, branches, aligned), replies, branches);
    match q.votes
    case Err(f) => Driven(q.request, Err(f), q.sent)
    case Ok(votes) =>
      var vote := votes[Winner(VoteBallots(votes))];
      Driven(Extended(q.request, vote), Ok(Report(vote.accepted, vote.branch, vote.firstRejection)), q.sent)
  }

  // ---------------------------------------------------------------------------
  // Driver messages
  // ---------------------------------------------------------------------------

  datatype State = State(peers: Peers, previousBoot: u64, requests: map<u64, Request>)

  /** A submission resets the request, whatever it was. */
  function Reset(p: Peers, id: u64): Request {
    var n: nat := id;
    Request(id, U64(n + 1), 1, p.epoch, 0, StateRef(U64(n * 0x9E3779B97F4A7C15), 0), 0, [], 0, 1, 0, 0)
  }

  predicate IsLeast(k: u64, keys: set<u64>) {
    k in keys && forall j :: j in keys ==> k <= j
  }

  /** The request a replayed or probing message is checked against: the one with the smallest id. */
  function Smallest(keys: set<u64>): (k: u64)
    requires keys != {}
    ensures IsLeast(k, keys)
  {
    SmallestExists(keys);
    var k :| IsLeast(k, keys);
    k
  }

  lemma SmallestExists(keys: set<u64>)
    requires keys != {}
    ensures exists k :: IsLeast(k, keys)
  {
    hide IsLeast;
    var x :| x in keys;
    var rest := keys - {x};
    if rest == {} {
      OnlyIsLeast(x, keys);
    } else {
      SmallestExists(rest);
      var y :| IsLeast(y, rest);
      LesserIsLeast(x, y, keys);
    }
  }

  lemma OnlyIsLeast(x: u64, keys: set<u64>)
    requires x in keys && keys - {x} == {}
    ensures IsLeast(x, keys)
  {
    assert forall j :: j in keys && j != x ==> j in keys - {x};
  }

  lemma LesserIsLeast(x: u64, y: u64, keys: set<u64>)
    requires x in keys && IsLeast(y, keys - {x})
    ensures IsLeast(if x <= y then x else y, keys)
  {
    assert forall j :: j in keys && j != x ==> j in keys - {x};
  }

  /** At least one branch, and replies with the fields that are read. */
  predicate Submittable(s: State, id: u64, depth: u32, branches: u32, aligned: u32, replies: seq<BranchReply>) {
    && 1 <= branches == |replies|
    && AllWellFormed(s.peers, Configured(s.peers, Reset(s.peers, id), depth, branches, aligned), replies)
  }

  datatype Probe =
    | ProbeEpoch | ProbeBoot | ProbePreviousBoot | ProbeAttempt | ProbeGeneration | ProbeBase | ProbeNothing

  datatype DriverEvent =
    | SubmitRequest(id: u64, depth: u32, branches: u32, aligned: u32, replies: seq<BranchReply>)
    | ReplayResult(message: Message)
    | StaleProbe(probe: Probe)
    | RollEpoch
    | Status
    | ProposerConnected(boot: u64)
    | VerifierConnected(boot: u64)

  datatype Answer =
    | Committed(id: u64, generation: nat, length: nat) | Refused(failure: Failure) | Rejected(reason: Reason)
    | NoRejection | NoRequest | Silent

  /** What the driver must send: the fields its message type has, and a submission with readable replies. */
  predicate Accepted(s: State, e: DriverEvent) {
    match e
    case SubmitRequest(id, depth, branches, aligned, replies) => Submittable(s, id, depth, branches, aligned, replies)
    case ReplayResult(m) => |m.u64s| > PR_PROPOSAL_GEN
    case _ => true
  }

  function CheckReplay(s: State, m: Message): Answer
    requires |m.u64s| > PR_PROPOSAL_GEN
  {
    if s.requests == map[] then NoRequest
    else
      SomeKey(s.requests);
      var r := s.requests[Smallest(s.requests.Keys)];
      match Validate(r, m.u64s[PR_EPOCH], m.u64s[PR_BOOT], m.u64s[PR_ATTEMPT], m.u64s[PR_BASE_GEN],
                     m.u64s[PR_PROPOSAL_GEN], s.peers.proposerBoot)
      case None => NoRejection
      case Some(reason) => Rejected(reason)
  }

  lemma SomeKey<V>(m: map<u64, V>)
    ensures m == map[] <==> m.Keys == {}
  {
    if m.Keys == {} {
      assert m == map[];
    }
  }

  function CheckProbe(s: State, probe: Probe): Answer {
    if s.requests == map[] then Silent
    else
      SomeKey(s.requests);
      var r := s.requests[Smallest(s.requests.Keys)];
      var boot: nat := s.peers.proposerBoot;
      match Validate(
          r, if probe == ProbeEpoch then U64(r.epoch + TWO_64 - 1) else r.epoch,
          if probe == ProbeBoot then U64(boot + 9999) else if probe == ProbePreviousBoot then s.previousBoot else boot,
          if probe == ProbeAttempt then r.attempt + 7 else r.attempt,
          if probe == ProbeBase then r.authGen + 5 else r.authGen,
          if probe == ProbeGeneration then r.propGen + 1 else r.propGen, s.peers.proposerBoot)
      case None => NoRejection
      case Some(reason) => Rejected(reason)
  }

  datatype Step = Step(state: State, answer: Answer)

  function SubmitStep(s: State, id: u64, depth: u32, branches: u32, aligned: u32, replies: seq<BranchReply>): Step
    requires Submittable(s, id, depth, branches, aligned, replies)
  {
    var driven := Drive(s.peers, Reset(s.peers, id), depth, branches, aligned, replies);
    Step(s.(requests := s.requests[id := driven.request]),
         match driven.result
         case Ok(_) => Committed(id, driven.request.authGen, |driven.request.committed|)
         case Err(f) => Refused(f))
  }

  function Next(s: State, e: DriverEvent): Step
    requires Accepted(s, e)
  {
    match e
    case SubmitRequest(id, depth, branches, aligned, replies) => SubmitStep(s, id, depth, branches, aligned, replies)
    case ReplayResult(m) => Step(s, CheckReplay(s, m))
    case StaleProbe(probe) => Step(s, CheckProbe(s, probe))
    case RollEpoch => Step(s.(peers := s.peers.(epoch := s.peers.epoch + 1)), Silent)
    case Status => Step(s, Silent)
    case ProposerConnected(boot) =>
      Step(s.(previousBoot := s.peers.proposerBoot, peers := s.peers.(proposerBoot := boot)), Silent)
    case VerifierConnected(boot) => Step(s.(peers := s.peers.(verifierBoot := boot)), Silent)
  }

  // ---------------------------------------------------------------------------
  // The process
  // ---------------------------------------------------------------------------

  class Process {
    var peers: Peers
    var previousBoot: u64
    var requests: map<u64, Request>

    constructor (proposerBoot: u64, verifierBoot: u64)
      ensures View() == State(Peers(1, proposerBoot, verifierBoot), proposerBoot, map[])
    {
      peers := Peers(1, proposerBoot, verifierBoot);
      previousBoot := proposerBoot;
      requests := map[];
    }

    ghost function View(): State
      reads this
    {
      State(peers, previousBoot, requests)
    }

    /**
     * Asks the branches in turn, checks every reply, and commits the winner's accepted tokens only when all passed.
     * Returns the payloads it sent beside the result.
     */
    method DriveCycle(id: u64, depth: u32, branches: u32, aligned: u32, replies: seq<BranchReply>)
      returns (result: Result<Report, Failure>, sent: seq<seq<byte>>)
      requires id in requests && 1 <= branches == |replies|
      requires AllWellFormed(peers, Configured(peers, requests[id], depth, branches, aligned), replies)
      modifies this
      ensures var driven := Drive(old(peers), old(requests[id]), depth, branches, aligned, replies);
              requests == old(requests)[id := driven.request] && result == driven.result && sent == driven.sent
      ensures peers == old(peers) && previousBoot == old(previousBoot)
    {
      hide AskBranch, SentFor, Winner, JudgeProposal, JudgeVerification;
      var r := requests[id].(depth := depth, branches := branches, aligned := aligned, epoch := peers.epoch);
      ghost var start := r;
      var votes: seq<Vote> := [];
      sent := [];
      for b: nat := 0 to branches
        invariant requests == old(requests) && peers == old(peers) && previousBoot == old(previousBoot)
        invariant Poll(peers, start, replies, b) == Polled(r, Ok(votes), sent)
      {
        r := r.(propGen := r.propGen + 1);
        var vote, out := Ask(r, b, replies[b]);
        sent := sent + out;
        if vote.Err? {
          requests := requests[id := r];
          PollStops(peers, start, replies, b + 1, branches);
          return Err(vote.error), sent;
        }
        votes := votes + [vote.value];
      }
      VotesFit(peers, start, replies, branches);
      var w := SelectWinner(VoteBallots(votes));
      r := Extend(r, votes[w]);
      requests := requests[id := r];
      result := Ok(Report(votes[w].accepted, votes[w].branch, votes[w].firstRejection));
    }

    /** One branch: dispatch to the proposer, check its reply, dispatch to the verifier, check its reply. */
    method Ask(r: Request, b: u32, reply: BranchReply) returns (vote: Result<Vote, Failure>, sent: seq<seq<byte>>)
      requires WellFormed(peers, r, reply)
      ensures vote == AskBranch(peers, r, b, reply) && sent == SentFor(peers, r, b, reply)
    {
      hide EncodeSpec, DecodeSpec, Payload;
      var dispatch := ProposalDispatch(peers, r, b);
      var encoded := Encode(dispatch);
      Encodes(dispatch);
      sent := [encoded.value];
      if reply.proposal.None? {
        return Err(ProposerLost), sent;
      }
      var proposed := Decode(reply.proposal.value);
      if proposed.Err? {
        return Err(ProposerGarbled), sent;
      }
      var pm := proposed.value;
      var rejection := Validate(r, pm.u64s[PR_EPOCH], pm.u64s[PR_BOOT], pm.u64s[PR_ATTEMPT], pm.u64s[PR_BASE_GEN],
                                pm.u64s[PR_PROPOSAL_GEN], peers.proposerBoot);
      if rejection.Some? {
        return Err(Stale(rejection.value)), sent;
      }
      if pm.u32s[PR_OUTCOME] != 0 {
        return Err(NotProposed), sent;
      }
      var tokens := TakeTokens(pm.u32s, r.depth);
      var second := VerificationDispatch(peers, r, b, tokens);
      encoded := Encode(second);
      Encodes(second);
      sent := sent + [encoded.value];
      if reply.verification.None? {
        return Err(VerifierLost), sent;
      }
      var verified := Decode(reply.verification.value);
      if verified.Err? {
        return Err(VerifierGarbled), sent;
      }
      var vm := verified.value;
      rejection := Validate(r, vm.u64s[VR_EPOCH], peers.verifierBoot, vm.u64s[VR_ATTEMPT], vm.u64s[VR_BASE_GEN],
                            r.propGen, peers.verifierBoot);
      if rejection.Some? {
        return Err(Stale(rejection.value)), sent;
      }
      vote := Ok(Vote(b + 1, tokens, vm.u32s[VR_ACCEPTED], vm.u32s[VR_FIRST_REJECTION]));
    }

    /** A submission: reset the request, then drive one cycle. */
    method Submit(id: u64, depth: u32, branches: u32, aligned: u32, replies: seq<BranchReply>) returns (answer: Answer)
      requires Submittable(View(), id, depth, branches, aligned, replies)
      modifies this
      ensures Step(View(), answer) == SubmitStep(old(View()), id, depth, branches, aligned, replies)
    {
      hide Drive;
      requests := requests[id := Reset(peers, id)];
      var result, _ := DriveCycle(id, depth, branches, aligned, replies);
      answer := match result
        case Ok(_) => Committed(id, requests[id].authGen, |requests[id].committed|)
        case Err(f) => Refused(f);
    }

    method RollEpoch()
      modifies this
      ensures Step(View(), Silent) == Next(old(View()), DriverEvent.RollEpoch)
    {
      peers := peers.(epoch := peers.epoch + 1);
    }

    /** A proposer that connects again is known by its new boot id alone. */
    method ConnectProposer(boot: u64)
      modifies this
      ensures Step(View(), Silent) == Next(old(View()), ProposerConnected(boot))
    {
      previousBoot := peers.proposerBoot;
      peers := peers.(proposerBoot := boot);
    }

    method ConnectVerifier(boot: u64)
      modifies this
      ensures Step(View(), Silent) == Next(old(View()), VerifierConnected(boot))
    {
      peers := peers.(verifierBoot := boot);
    }

    method Replay(m: Message) returns (answer: Answer)
      requires |m.u64s| > PR_PROPOSAL_GEN
      ensures answer == CheckReplay(View(), m)
    {
      if requests == map[] {
        return NoRequest;
      }
      SomeKey(requests);
      var r := requests[Smallest(requests.Keys)];
      var rejection := Validate(r, m.u64s[PR_EPOCH], m.u64s[PR_BOOT], m.u64s[PR_ATTEMPT], m.u64s[PR_BASE_GEN],
                                m.u64s[PR_PROPOSAL_GEN], peers.proposerBoot);
      answer := if rejection.None? then NoRejection else Rejected(rejection.value);
    }
  }

  lemma Encodes(m: Message)
    requires Encodable(m)
    ensures EncodeSpec(m) == Ok(Payload(m))
  {
  }

  method TakeTokens(fields: seq<u32>, depth: u32) returns (tokens: seq<Token>)
    requires |fields| >= PR_TOKENS && |fields| - PR_TOKENS >= depth
    ensures tokens == fields[PR_TOKENS..][..depth]
  {
    tokens := [];
    for i: nat := 0 to depth
      invariant tokens == fields[PR_TOKENS..][..i]
    {
      tokens := tokens + [fields[PR_TOKENS + i]];
    }
  }

  /** The accepted tokens pushed one by one, then the generations advanced. */
  method Extend(r: Request, vote: Vote) returns (after: Request)
    requires vote.accepted <= |vote.tokens|
    ensures after == Extended(r, vote)
  {
    after := r;
    for i := 0 to vote.accepted
      invariant after == r.(committed := r.committed + vote.tokens[..i])
    {
      after := after.(committed := after.committed + [vote.tokens[i]]);
    }
    after := after.(authGen := after.authGen + vote.accepted);
    after := after.(authState := after.authState.(generation := after.authState.generation + vote.accepted));
    after := after.(stateGen := after.authState.generation);
  }
}
