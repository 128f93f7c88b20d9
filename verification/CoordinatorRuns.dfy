/** What the coordinator guarantees against any workers, over every sequence of driver events. */
module CoordinatorRuns {
  import opened Words
  import opened Executors
  import opened Selection
  import opened Wire
  import opened Worker
  import opened Coordinator
  import Synthetic

  predicate RequestSound(r: Request) {
    r.authGen == r.authState.generation == r.stateGen == |r.committed|
  }

  ghost predicate Sound(s: State) {
    forall id :: id in s.requests ==> s.requests[id].id == id && RequestSound(s.requests[id])
  }

  /** A cycle that fails any check leaves tokens and generations as they were; one that passes moves them together. */
  lemma DriveKeepsAuthority(p: Peers, r: Request, depth: u32, branches: u32, aligned: u32, replies: seq<BranchReply>)
    requires 1 <= branches == |replies|
    requires AllWellFormed(p, Configured(p, r, depth, branches, aligned), replies)
    ensures var after := Drive(p, r, depth, branches, aligned, replies);
            && after.request.id == r.id && after.request.attempt == r.attempt && after.request.epoch == p.epoch
            && after.request.sequence == r.sequence && after.request.authState.id == r.authState.id
            && (after.result.Err? ==>
                  && after.request.committed == r.committed && after.request.authGen == r.authGen
                  && after.request.authState == r.authState && after.request.stateGen == r.stateGen)
            && (RequestSound(r) ==> RequestSound(after.request))
            && r.committed <= after.request.committed && |after.request.committed| <= |r.committed| + depth
            && r.propGen < after.request.propGen <= r.propGen + branches
  {
    hide Poll, Winner, WellFormed;
    var configured := Configured(p, r, depth, branches, aligned);
    var q := Poll(p, configured, replies, branches);
    VotesFit(p, configured, replies, branches);
  }

  // ---------------------------------------------------------------------------
  // What a reply becomes
  // ---------------------------------------------------------------------------

  /** The five marks a proposal result carries, by their places on the wire. */
  predicate CarriesMarks(p: Peers, r: Request, m: Message)
    requires |m.u64s| >= 10
  {
    && m.u64s[3] == r.epoch && m.u64s[7] == p.proposerBoot && m.u64s[2] == r.attempt && m.u64s[6] == r.authGen
    && m.u64s[9] == r.propGen
  }

  ghost predicate IsNoMessage(payload: seq<byte>) {
    forall m :: Valid(m) ==> Payload(m) != payload
  }

  lemma UndecodableIsNoMessage(payload: seq<byte>)
    ensures DecodeSpec(payload).Err? <==> IsNoMessage(payload)
  {
    hide DecodeSpec, Payload, Valid;
    if DecodeSpec(payload).Ok? {
      PayloadOfDecode(payload, DecodeSpec(payload).value);
    }
    forall m | Valid(m)
      ensures DecodeSpec(Payload(m)).Ok?
    {
      DecodeOfPayload(m);
    }
  }

  /** No reply, a reply that encodes no message, a message with a wrong mark, an unsuccessful one, or else its tokens. */
  lemma ProposalBecomes(p: Peers, r: Request, reply: BranchReply, m: Message)
    requires WellFormed(p, r, reply)
    ensures var v, sent := JudgeProposal(p, r, reply), Valid(m) && reply.proposal == Some(Payload(m));
            && (v == Err(ProposerLost) <==> reply.proposal == None)
            && (v == Err(ProposerGarbled) <==> reply.proposal.Some? && IsNoMessage(reply.proposal.value))
            && (sent ==>
                  && |m.u64s| >= 10
                  && (v.Err? && v.error.Stale? <==> !CarriesMarks(p, r, m))
                  && (v == Err(NotProposed) <==> CarriesMarks(p, r, m) && |m.u32s| > 0 && m.u32s[0] != 0)
                  && (v.Ok? <==> CarriesMarks(p, r, m) && |m.u32s| >= 2 + r.depth as nat && m.u32s[0] == 0)
                  && (v.Ok? ==> v.value == m.u32s[2..2 + r.depth]))
  {
    hide DecodeSpec, Payload, Valid, IsNoMessage;
    if reply.proposal.Some? {
      UndecodableIsNoMessage(reply.proposal.value);
    }
    if Valid(m) && reply.proposal == Some(Payload(m)) {
      DecodeOfPayload(m);
    }
  }

  /** Likewise; a verification result carries three marks, and what it says becomes the branch's vote. */
  lemma VerificationBecomes(p: Peers, r: Request, b: nat, tokens: seq<Token>, reply: BranchReply, m: Message)
    requires WellFormed(p, r, reply)
    ensures var v := JudgeVerification(p, r, b, tokens, reply);
            var sent := Valid(m) && reply.verification == Some(Payload(m));
            && (v == Err(VerifierLost) <==> reply.verification == None)
            && (v == Err(VerifierGarbled) <==> reply.verification.Some? && IsNoMessage(reply.verification.value))
            && (sent ==>
                  && |m.u64s| >= 5
                  && var marked := m.u64s[3] == r.epoch && m.u64s[2] == r.attempt && m.u64s[4] == r.authGen;
                     && (v.Err? && v.error.Stale? <==> !marked)
                     && (v.Ok? <==> marked)
                     && (v.Ok? ==> |m.u32s| >= 4 && v.value == Vote(b + 1, tokens, m.u32s[1], m.u32s[3])))
  {
    hide DecodeSpec, Payload, Valid, IsNoMessage;
    if reply.verification.Some? {
      UndecodableIsNoMessage(reply.verification.value);
    }
    if Valid(m) && reply.verification == Some(Payload(m)) {
      DecodeOfPayload(m);
    }
  }

  // ---------------------------------------------------------------------------
  // Every sequence of driver events
  // ---------------------------------------------------------------------------

  lemma NextKeepsSound(s: State, e: DriverEvent)
    requires Accepted(s, e) && Sound(s)
    ensures Sound(Next(s, e).state)
    ensures e.ReplayResult? || e.StaleProbe? || e.Status? ==> Next(s, e).state == s
    ensures !e.SubmitRequest? ==> Next(s, e).state.requests == s.requests
  {
    hide Drive, CheckReplay, CheckProbe, AllWellFormed;
    if e.SubmitRequest? {
      DriveKeepsAuthority(s.peers, Reset(s.peers, e.id), e.depth, e.branches, e.aligned, e.replies);
    }
  }

  /** Every event is one the coordinator can read when it comes. */
  predicate AllAccepted(s: State, events: seq<DriverEvent>)
    decreases |events|
  {
    |events| > 0 ==> Accepted(s, events[0]) && AllAccepted(Next(s, events[0]).state, events[1..])
  }

  function Run(s: State, events: seq<DriverEvent>): State
    requires AllAccepted(s, events)
    decreases |events|
  {
    if |events| == 0 then s else Run(Next(s, events[0]).state, events[1..])
  }

  /** In every reachable coordinator state every request's three generations count its committed tokens. */
  lemma {:induction false} EveryReachableRequestIsSound(s: State, events: seq<DriverEvent>)
    requires AllAccepted(s, events) && Sound(s)
    ensures Sound(Run(s, events))
    decreases |events|
  {
    hide Sound, Next, Accepted;
    if |events| > 0 {
      NextKeepsSound(s, events[0]);
      EveryReachableRequestIsSound(Next(s, events[0]).state, events[1..]);
    }
  }

  predicate Harmless(e: DriverEvent) {
    e.ReplayResult? || e.StaleProbe? || e.Status?
  }

  /** Whatever results a driver replays and however it probes, no request and no peer changes. */
  lemma {:induction false} ReplaysChangeNothing(s: State, events: seq<DriverEvent>)
    requires AllAccepted(s, events) && forall i :: 0 <= i < |events| ==> Harmless(events[i])
    ensures Run(s, events) == s
    decreases |events|
  {
    hide CheckReplay, CheckProbe, SubmitStep;
    if |events| > 0 {
      ReplaysChangeNothing(s, events[1..]);
    }
  }

  /**
   * Each of the driver's probes is refused for its own reason, whatever the state, as long as there is a request; the
   * probe that replays the previous boot only after the proposer has really come back under another one.
   */
  lemma EachProbeHasItsReason(s: State, probe: Probe)
    requires s.requests != map[]
    ensures CheckProbe(s, probe)
            == match probe
               case ProbeNothing => NoRejection
               case ProbeEpoch => Rejected(StaleEpoch)
               case ProbeBoot => Rejected(StaleBoot)
               case ProbePreviousBoot =>
                 if s.previousBoot == s.peers.proposerBoot then NoRejection else Rejected(StaleBoot)
               case ProbeAttempt => Rejected(StaleAttempt)
               case ProbeBase => Rejected(WrongBase)
               case ProbeGeneration => Rejected(StaleGeneration)
  {
    SomeKey(s.requests);
  }

  /** A replayed result is answered with "no request", and a probe not at all, exactly when there is no request. */
  lemma NothingToCheck(s: State, m: Message, probe: Probe)
    requires |m.u64s| > PR_PROPOSAL_GEN
    ensures CheckReplay(s, m) == NoRequest <==> s.requests == map[]
    ensures CheckProbe(s, probe) == Silent <==> s.requests == map[]
  {
    SomeKey(s.requests);
  }

  function ProposerBoots(events: seq<DriverEvent>): seq<u64> {
    if |events| == 0 then []
    else (if events[0].ProposerConnected? then [events[0].boot] else []) + ProposerBoots(events[1..])
  }

  function VerifierBoots(events: seq<DriverEvent>): seq<u64> {
    if |events| == 0 then []
    else (if events[0].VerifierConnected? then [events[0].boot] else []) + VerifierBoots(events[1..])
  }

  function Rolls(events: seq<DriverEvent>): nat {
    if |events| == 0 then 0 else (if events[0] == RollEpoch then 1 else 0) + Rolls(events[1..])
  }

  lemma NextKnows(s: State, e: DriverEvent)
    requires Accepted(s, e)
    ensures var next := Next(s, e).state;
            && next.previousBoot == (if e.ProposerConnected? then s.peers.proposerBoot else s.previousBoot)
            && next.peers == Peers(
                 s.peers.epoch + if e == RollEpoch then 1 else 0,
                 if e.ProposerConnected? then e.boot else s.peers.proposerBoot,
                 if e.VerifierConnected? then e.boot else s.peers.verifierBoot)
  {
    hide Drive, CheckReplay, CheckProbe, Accepted;
  }

  /**
   * The boots checked against are those of the latest connections, the proposer's latest two; and the epoch counts its
   * rolls, whatever else happens.
   */
  lemma {:induction false} PeersAreTheLatest(s: State, events: seq<DriverEvent>)
    requires AllAccepted(s, events)
    ensures var proposers := [s.previousBoot, s.peers.proposerBoot] + ProposerBoots(events);
            var verifiers, after := [s.peers.verifierBoot] + VerifierBoots(events), Run(s, events);
            && after.previousBoot == proposers[|proposers| - 2]
            && after.peers.proposerBoot == proposers[|proposers| - 1]
            && after.peers.verifierBoot == verifiers[|verifiers| - 1]
            && after.peers.epoch == s.peers.epoch + Rolls(events)
    decreases |events|
  {
    hide Next, Accepted;
    if |events| > 0 {
      var next := Next(s, events[0]).state;
      NextKnows(s, events[0]);
      PeersAreTheLatest(next, events[1..]);
      EndsAlike([s.previousBoot], [next.previousBoot, next.peers.proposerBoot] + ProposerBoots(events[1..]));
      assert events[0].ProposerConnected? ==>
          [s.previousBoot, s.peers.proposerBoot] + ProposerBoots(events)
          == [s.previousBoot] + ([next.previousBoot, next.peers.proposerBoot] + ProposerBoots(events[1..]));
      EndsAlike([s.peers.verifierBoot], [next.peers.verifierBoot] + VerifierBoots(events[1..]));
      assert events[0].VerifierConnected? ==>
          [s.peers.verifierBoot] + VerifierBoots(events)
          == [s.peers.verifierBoot] + ([next.peers.verifierBoot] + VerifierBoots(events[1..]));
    }
  }

  /** What ends a non-empty string ends any longer one. */
  lemma EndsAlike<T>(front: seq<T>, s: seq<T>)
    ensures |s| >= 1 ==> (front + s)[|front + s| - 1] == s[|s| - 1]
    ensures |s| >= 2 ==> (front + s)[|front + s| - 2] == s[|s| - 2]
  {
  }

  predicate NoneSubmits(events: seq<DriverEvent>, id: u64) {
    forall i :: 0 <= i < |events| ==> !(events[i].SubmitRequest? && events[i].id == id)
  }

  /** A request changes only by its own submission. */
  lemma {:induction false} OthersLeaveRequest(s: State, events: seq<DriverEvent>, id: u64)
    requires AllAccepted(s, events) && NoneSubmits(events, id) && id in s.requests
    ensures id in Run(s, events).requests && Run(s, events).requests[id] == s.requests[id]
    decreases |events|
  {
    hide CheckReplay, CheckProbe, Drive, Submittable;
    if |events| > 0 {
      OthersLeaveRequest(Next(s, events[0]).state, events[1..], id);
    }
  }

  // ---------------------------------------------------------------------------
  // Dispatches and the results that echo them
  // ---------------------------------------------------------------------------

  /** A result with the marks of a proposal dispatch, as the workers send them back. */
  predicate EchoesProposal(d: Message, m: Message) {
    && IsProposalDispatch(d) && |m.u64s| > PR_PROPOSAL_GEN
    && m.u64s[PR_EPOCH] == d.u64s[PD_EPOCH] && m.u64s[PR_BOOT] == d.u64s[PD_BOOT]
    && m.u64s[PR_ATTEMPT] == d.u64s[PD_ATTEMPT] && m.u64s[PR_BASE_GEN] == d.u64s[PD_BASE_GEN]
    && m.u64s[PR_PROPOSAL_GEN] == d.u64s[PD_PROPOSAL_GEN]
  }

  predicate EchoesVerification(d: Message, m: Message) {
    && IsVerificationDispatch(d) && |m.u64s| > VR_BASE_GEN
    && m.u64s[VR_EPOCH] == d.u64s[VD_EPOCH] && m.u64s[VR_ATTEMPT] == d.u64s[VD_ATTEMPT]
    && m.u64s[VR_BASE_GEN] == d.u64s[VD_BASE_GEN]
  }

  /** The workers' replies echo their dispatches. */
  lemma WorkersEcho(a: Synthetic.Arithmetic, d: Message)
    ensures IsProposalDispatch(d) ==> EchoesProposal(d, ProposalReply(a, d))
    ensures IsVerificationDispatch(d) ==> EchoesVerification(d, VerificationReply(a, d))
  {
    hide ProposeSpec, VerifySpec;
  }

  /** A payload of branch i: its proposal dispatch, or a verification dispatch of some tokens for it. */
  ghost predicate IsDispatch(p: Peers, r: Request, i: u32, payload: seq<byte>) {
    || payload == Payload(ProposalDispatch(p, At(r, i), i))
    || exists tokens :: payload == Payload(VerificationDispatch(p, At(r, i), i, tokens))
  }

  /** Everything sent is a dispatch of one of the branches asked, and each of those was dispatched. */
  ghost predicate Dispatches(p: Peers, r: Request, asked: int, sent: seq<seq<byte>>) {
    && (forall payload :: payload in sent ==> exists i: u32 :: i < asked && IsDispatch(p, r, i, payload))
    && (forall i: u32 :: i < asked ==> Payload(ProposalDispatch(p, At(r, i), i)) in sent)
  }

  lemma DispatchesOneMore(p: Peers, r: Request, asked: u32, sent: seq<seq<byte>>, more: seq<seq<byte>>)
    requires Dispatches(p, r, asked, sent)
    requires forall payload :: payload in more ==> IsDispatch(p, r, asked, payload)
    requires Payload(ProposalDispatch(p, At(r, asked), asked)) in more
    ensures Dispatches(p, r, asked as int + 1, sent + more)
  {
    hide Payload, ProposalDispatch, IsDispatch;
    forall payload | payload in sent + more
      ensures exists i: u32 :: i < asked as int + 1 && IsDispatch(p, r, i, payload)
    {
      if payload in sent {
        var i: u32 :| i < asked && IsDispatch(p, r, i, payload);
        assert i < asked as int + 1;
      } else {
        assert IsDispatch(p, r, asked, payload);
      }
    }
    forall i: u32 | i < asked as int + 1
      ensures Payload(ProposalDispatch(p, At(r, i), i)) in sent + more
    {
      assert i < asked || i == asked;
    }
  }

  /** What a cycle sends. */
  lemma {:induction false} SentAreDispatches(p: Peers, r: Request, replies: seq<BranchReply>, n: nat)
    requires n <= |replies| < 0x1_0000_0000 && AllWellFormed(p, r, replies)
    ensures var q := Poll(p, r, replies, n);
            Dispatches(p, r, q.request.propGen - r.propGen, q.sent)
  {
    hide AskBranch, SentFor, WellFormed, Payload, ProposalDispatch, IsDispatch, Dispatches;
    if n == 0 {
      NothingDispatched(p, r);
    } else {
      SentAreDispatches(p, r, replies, n - 1);
      var before := Poll(p, r, replies, n - 1);
      if before.votes.Ok? {
        SentForIsDispatch(p, r, n - 1, replies[n - 1]);
        DispatchesOneMore(p, r, n - 1, before.sent, SentFor(p, At(r, n - 1), n - 1, replies[n - 1]));
      }
    }
  }

  lemma NothingDispatched(p: Peers, r: Request)
    ensures Dispatches(p, r, 0, [])
  {
  }

  lemma SentForIsDispatch(p: Peers, r: Request, i: u32, reply: BranchReply)
    requires WellFormed(p, At(r, i), reply)
    ensures var sent := SentFor(p, At(r, i), i, reply);
            && (forall payload :: payload in sent ==> IsDispatch(p, r, i, payload))
            && Payload(ProposalDispatch(p, At(r, i), i)) in sent
  {
    hide Payload, ProposalDispatch, VerificationDispatch, WellFormed, JudgeProposal;
  }

  // ---------------------------------------------------------------------------
  // Stale results
  // ---------------------------------------------------------------------------

  /** The request a submission dispatches from. */
  function Start(s: State, id: u64, depth: u32, branches: u32, aligned: u32): Request {
    Configured(s.peers, Reset(s.peers, id), depth, branches, aligned)
  }

  /** A submission and its replies. */
  datatype Submission = Submission(id: u64, depth: u32, branches: u32, aligned: u32, replies: seq<BranchReply>) {
    predicate Readable(s: State) {
      Submittable(s, id, depth, branches, aligned, replies)
    }

    function From(s: State): Request {
      Start(s, id, depth, branches, aligned)
    }

    function Result(s: State): Driven
      requires Readable(s)
    {
      Drive(s.peers, Reset(s.peers, id), depth, branches, aligned, replies)
    }

    function After(s: State): State
      requires Readable(s)
    {
      SubmitStep(s, id, depth, branches, aligned, replies).state
    }

    /** The proposal dispatch of branch i. */
    function Dispatch(s: State, i: u32): Message {
      ProposalDispatch(s.peers, At(From(s), i), i)
    }

    /** The verification dispatch of branch i, once its proposer has drafted those tokens. */
    function Question(s: State, i: u32, tokens: seq<Token>): Message {
      VerificationDispatch(s.peers, At(From(s), i), i, tokens)
    }
  }

  /** A submission's dispatches carry generations 1, 2, ... and the base generation zero. */
  lemma DispatchMarks(s: State, w: Submission, i: u32)
    ensures var d := w.Dispatch(s, i);
            && IsProposalDispatch(d)
            && d.u64s[PD_PROPOSAL_GEN] == i + 1 && d.u64s[PD_BASE_GEN] == 0 && d.u64s[PD_ATTEMPT] == 1
            && d.u64s[PD_EPOCH] == U64(s.peers.epoch) && d.u64s[PD_BOOT] == s.peers.proposerBoot
  {
  }

  lemma SubmissionKeeps(s: State, w: Submission)
    requires w.Readable(s)
    ensures var r := w.Result(s).request;
            && w.id in w.After(s).requests && w.After(s).requests[w.id] == r && w.After(s).peers == s.peers
            && r.attempt == 1 && r.epoch == s.peers.epoch && 0 < r.propGen <= w.branches
            && r.authGen == |r.committed|
  {
    hide Drive, AllWellFormed;
    DriveKeepsAuthority(s.peers, Reset(s.peers, w.id), w.depth, w.branches, w.aligned, w.replies);
  }

  /**
   * A result echoing any dispatch of any submission, replayed after a submission and any driver events but another one
   * of its id, passes exactly when it carries that submission's epoch, the present proposer and the last branch asked,
   * and nothing was committed. Rolling the epoch after the submission does not matter: the request keeps its own.
   */
  lemma ReplayPassesIff(
    s1: State, w1: Submission, i: u32, s2: State, w2: Submission, events: seq<DriverEvent>, m: Message)
    requires s1.peers.epoch < TWO_64 && s2.peers.epoch < TWO_64 && EchoesProposal(w1.Dispatch(s1, i), m)
    requires w2.Readable(s2) && AllAccepted(w2.After(s2), events) && NoneSubmits(events, w2.id)
    ensures var later, request := Run(w2.After(s2), events), w2.Result(s2).request;
            var passes := && s1.peers.epoch == s2.peers.epoch && s1.peers.proposerBoot == later.peers.proposerBoot
                          && i as nat + 1 == request.propGen && request.committed == [];
            && w2.id in later.requests
            && (ProposalRejection(later.peers, later.requests[w2.id], m) == None <==> passes)
            && (w2.id == Smallest(later.requests.Keys) ==>
                  && (CheckReplay(later, m) == NoRejection <==> passes)
                  && (!passes ==>
                        CheckReplay(later, m)
                        == Rejected(if s1.peers.epoch != s2.peers.epoch then StaleEpoch
                                    else if s1.peers.proposerBoot != later.peers.proposerBoot then StaleBoot
                                    else if request.committed != [] then WrongBase else StaleGeneration)))
  {
    hide Drive, AllWellFormed, Run, AllAccepted, ProposalDispatch, Smallest, Submission.After, Submission.From;
    SubmissionKeeps(s2, w2);
    DispatchMarks(s1, w1, i);
    OthersLeaveRequest(w2.After(s2), events, w2.id);
    SomeKey(Run(w2.After(s2), events).requests);
  }

  // ---------------------------------------------------------------------------
  // Within one cycle
  // ---------------------------------------------------------------------------

  lemma {:induction false} PollFails(p: Peers, r: Request, replies: seq<BranchReply>, j: nat)
    requires j < |replies| < 0x1_0000_0000 && AllWellFormed(p, r, replies)
    requires Poll(p, r, replies, j).votes.Ok? && AskBranch(p, At(r, j), j, replies[j]).Err?
    ensures Poll(p, r, replies, |replies|).votes == Err(AskBranch(p, At(r, j), j, replies[j]).error)
  {
    hide AskBranch, SentFor, WellFormed;
    PollStops(p, r, replies, j + 1, |replies|);
  }

  /**
   * A proposer that answers branch j with a result echoing an earlier branch fails the cycle, which commits nothing.
   */
  lemma RepeatedAnswerFailsTheCycle(
    p: Peers, r: Request, depth: u32, branches: u32, aligned: u32, replies: seq<BranchReply>,
    i: u32, j: u32, m: Message)
    requires i < j < branches == |replies|
    requires var start := Configured(p, r, depth, branches, aligned);
             && Fits(start) && start.propGen + branches < TWO_64 && AllWellFormed(p, start, replies)
             && Poll(p, start, replies, j).votes.Ok?
             && EchoesProposal(ProposalDispatch(p, At(start, i), i), m)
    requires replies[j].proposal.Some? && DecodeSpec(replies[j].proposal.value) == Ok(m)
    ensures var driven := Drive(p, r, depth, branches, aligned, replies);
            && driven.result == Err(Stale(StaleGeneration))
            && driven.request.committed == r.committed && driven.request.authGen == r.authGen
            && driven.request.authState == r.authState
  {
    hide Poll, WellFormed, DecodeSpec, Winner;
    var start := Configured(p, r, depth, branches, aligned);
    RepeatedMarks(p, start, branches, i, j, m);
    assert WellFormed(p, At(start, j), replies[j]);
    assert JudgeProposal(p, At(start, j), replies[j]) == Err(Stale(StaleGeneration));
    PollFails(p, start, replies, j);
    DriveKeepsAuthority(p, r, depth, branches, aligned, replies);
  }

  lemma RepeatedMarks(p: Peers, r: Request, n: nat, i: u32, j: u32, m: Message)
    requires i < j < n && Fits(r) && r.propGen + n < TWO_64 && EchoesProposal(ProposalDispatch(p, At(r, i), i), m)
    ensures ProposalRejection(p, At(r, j), m) == Some(StaleGeneration)
  {
  }

  // ---------------------------------------------------------------------------
  // Across submissions
  // ---------------------------------------------------------------------------

  /** Generations restart with every submission: submitting the same again leads to the very same request. */
  lemma ResubmissionRestarts(s: State, w: Submission)
    requires w.Readable(s)
    ensures w.Readable(w.After(s)) && w.After(w.After(s)) == w.After(s)
  {
    hide Drive, AllWellFormed;
  }

  /**
   * So a late result of an earlier submission passes every check against a later one, from every state and for every
   * id and depth: here both submissions lose their only reply, and the result of the first dispatch arrives after the
   * second.
   */
  lemma LateResultPassesAfterResubmission(s: State, id: u64, depth: u32, aligned: u32, m: Message)
    requires s.peers.epoch < TWO_64
    requires EchoesProposal(Submission(id, depth, 1, aligned, [BranchReply(None, None)]).Dispatch(s, 0), m)
    ensures var w := Submission(id, depth, 1, aligned, [BranchReply(None, None)]);
            && w.Readable(s) && w.Readable(w.After(s))
            && var again := w.After(w.After(s));
               && id in again.requests && ProposalRejection(again.peers, again.requests[id], m) == None
               && (id == Smallest(again.requests.Keys) ==> CheckReplay(again, m) == NoRejection)
  {
    hide Drive, AllWellFormed, Submission.After, Submission.From, ProposalDispatch, Smallest, EchoesProposal;
    var w := Submission(id, depth, 1, aligned, [BranchReply(None, None)]);
    LostReplyCommitsNothing(s, w);
    ResubmissionRestarts(s, w);
    SubmissionKeeps(s, w);
    LostReplyCommitsNothing(w.After(s), w);
    ReplayPassesIff(s, w, 0, w.After(s), w, [], m);
  }

  lemma LostReplyCommitsNothing(s: State, w: Submission)
    requires w.branches == 1 && w.replies == [BranchReply(None, None)]
    ensures w.Readable(s) && w.Result(s).request.committed == [] && w.Result(s).request.propGen == 1
  {
    assert AllWellFormed(s.peers, w.From(s), w.replies);
    assert Poll(s.peers, w.From(s), w.replies, 0).votes == Ok([]);
  }
}
