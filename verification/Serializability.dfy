/**
 * Behind the authority gate every concurrent run is equivalent to a serial one: of cycles that start after their
 * prepare block under any policy, and of whole cycles when the policy plans the same whatever happened in between. The
 * executors are functions of what they are told, except that the proposer ignores the running number of the cycle.
 */
module Serializability {
  import opened Words
  import opened Executors
  import opened Policy
  import opened Engine
  import opened Ledger
  import opened EngineRuns
  import opened AuthorityGate
  import Selection
  import Lifecycle

  datatype Pair = Pair(propose: ProposalInput -> seq<Token>, verify: VerificationInput -> nat)

  /** The executors keep their contract, and the proposer ignores the cycle number. */
  ghost predicate Deterministic(x: Pair) {
    && (forall input: ProposalInput :: |x.propose(input)| == input.depth)
    && (forall input: VerificationInput :: x.verify(input) <= |input.candidate|)
    && (forall input: ProposalInput, cycle: nat :: x.propose(input.(cycle := cycle)) == x.propose(input))
  }

  // ---------------------------------------------------------------------------
  // Serial runs
  // ---------------------------------------------------------------------------

  /** A serial step: a control block, a cycle from its captures on with a planned depth, or a whole run_cycle. */
  datatype SerialAction =
    | SubmitNow(req: Request) | CancelNow(id: nat) | CompleteNow(id: nat) | RetryNow(id: nat) | RollbackNow(id: nat)
    | CycleNow(id: nat, depth: u32) | RunNow(id: nat, now: nat)

  /** Whether the serial cycles start after their prepare block or are whole. */
  datatype Grain = AfterPrepare | WholeCycles

  function Drafts(cfg: Config, x: Pair, rs: RequestState, depth: u32): (r: seq<seq<Token>>)
    ensures |r| == cfg.BranchCount()
  {
    seq(cfg.BranchCount(), b requires 0 <= b < cfg.BranchCount() => x.propose(ProposalCapture(cfg, rs, depth, b)))
  }

  function Verdicts(cfg: Config, x: Pair, rs: RequestState, drafts: seq<seq<Token>>): (r: seq<nat>)
    ensures |r| == |drafts|
  {
    seq<nat>(|drafts|, b requires 0 <= b < |drafts| => x.verify(VerificationCapture(rs, b, drafts[b])))
  }

  /** Propose, verify and commit with nothing in between. */
  function AtomicCycle(cfg: Config, x: Pair, s: State, id: nat, depth: u32): State {
    if id !in s.requests then s
    else
      var rs := s.requests[id];
      var drafts := Drafts(cfg, x, rs, depth);
      var verdicts := Verdicts(cfg, x, rs, drafts);
      if Answered(drafts, verdicts) then Engine.Commit(s, id, depth, drafts, verdicts).state else s
  }

  predicate Plans(reply: Reply<Preparation>) {
    reply.value.Ok? && reply.value.value.Planned?
  }

  /** A run_cycle with nothing in between: prepare, and when that plans, propose, verify and commit. */
  function WholeCycle(cfg: Config, x: Pair, s: State, id: nat, now: nat): State
    requires cfg.Valid()
  {
    var prepared := Engine.Prepare(cfg, s, id, now);
    if Plans(prepared) then AtomicCycle(cfg, x, prepared.state, id, prepared.value.value.depth) else prepared.state
  }

  function SerialNext(cfg: Config, x: Pair, s: State, a: SerialAction): State
    requires cfg.Valid()
  {
    match a
    case SubmitNow(req) => Engine.Submit(cfg, s, req).state
    case CancelNow(id) => Engine.Cancel(s, id).state
    case CompleteNow(id) => Engine.Complete(s, id).state
    case RetryNow(id) => Engine.Retry(s, id).state
    case RollbackNow(id) => Engine.Rollback(s, id).state
    case CycleNow(id, depth) => AtomicCycle(cfg, x, s, id, depth)
    case RunNow(id, now) => WholeCycle(cfg, x, s, id, now)
  }

  function SerialRun(cfg: Config, x: Pair, s: State, actions: seq<SerialAction>): State
    requires cfg.Valid()
    decreases |actions|
  {
    if |actions| == 0 then s else SerialRun(cfg, x, SerialNext(cfg, x, s, actions[0]), actions[1..])
  }

  /** The serial step of a concurrent one: control actions stay, a successful commit becomes a cycle. */
  function SerialOf(cfg: Config, grain: Grain, y: System, a: Action): seq<SerialAction>
    requires FlightsSound(cfg, y)
  {
    if !Allowed(cfg, y, a) then []
    else match a
      case Submit(req) => [SubmitNow(req)]
      case Cancel(id) => [CancelNow(id)]
      case Complete(id) => [CompleteNow(id)]
      case Retry(id) => [RetryNow(id)]
      case Rollback(id) => [RollbackNow(id)]
      case Commit(f) =>
        if Live(y.state, y.flights[f]) && Current(y.state, y.flights[f]) then
          (if grain == AfterPrepare then [CycleNow(y.flights[f].request, y.flights[f].depth)]
           else [RunNow(y.flights[f].request, y.flights[f].prepared)])
        else []
      case _ => []
  }

  /** The serial counterpart of a guarded run, in the order of its commits. */
  ghost function Serial(cfg: Config, grain: Grain, y: System, actions: seq<Action>): seq<SerialAction>
    requires cfg.Valid() && Sound(cfg, y)
    decreases |actions|
  {
    if |actions| == 0 then []
    else
      NextEvolves(cfg, Guarded, y, actions[0]);
      NextBalances(cfg, Guarded, y, actions[0]);
      SerialOf(cfg, grain, y, actions[0]) + Serial(cfg, grain, Next(cfg, Guarded, y, actions[0]), actions[1..])
  }

  /** The answers of this action are the executors' own. */
  predicate AnswersOf(cfg: Config, x: Pair, y: System, a: Action)
    requires FlightsSound(cfg, y)
  {
    if !Allowed(cfg, y, a) then true
    else match a
      case Propose(f, candidate) =>
        candidate == x.propose(ProposalCapture(cfg, y.state.requests[y.flights[f].request], y.flights[f].depth,
            |y.flights[f].candidates|))
      case Verify(f, accepted) =>
        var b := |y.flights[f].accepted|;
        accepted == x.verify(VerificationCapture(y.state.requests[y.flights[f].request], b, y.flights[f].candidates[b]))
      case _ => true
  }

  /** All answers along a guarded run are the executors' own. */
  ghost predicate Driven(cfg: Config, x: Pair, y: System, actions: seq<Action>)
    requires cfg.Valid() && Sound(cfg, y)
    decreases |actions|
  {
    |actions| > 0 ==>
      && AnswersOf(cfg, x, y, actions[0])
      && Sound(cfg, Next(cfg, Guarded, y, actions[0]))
      && Driven(cfg, x, Next(cfg, Guarded, y, actions[0]), actions[1..])
  }

  // ---------------------------------------------------------------------------
  // What a flight has captured
  // ---------------------------------------------------------------------------

  /** The request as it stood at an attempt and a generation. */
  function Then(rs: RequestState, attempt: nat, gen: nat): RequestState {
    rs.(attempt := attempt, authGen := gen, authState := StateRef(rs.authState.id, gen), authStateGen := gen)
  }

  /** An input was captured at some point between the prepare block and now. */
  predicate Between(rs: RequestState, flight: Flight, attempt: nat, gen: nat) {
    flight.attempt <= attempt <= rs.attempt && flight.baseGen <= gen <= rs.authGen
  }

  predicate ProposalTracked(cfg: Config, x: Pair, rs: RequestState, flight: Flight, i: nat)
    requires i < |flight.proposals| == |flight.candidates| <= cfg.BranchCount()
  {
    var input := flight.proposals[i];
    && Between(rs, flight, input.attempt, input.baseGeneration)
    && input == ProposalCapture(cfg, Then(rs, input.attempt, input.baseGeneration), flight.depth, i)
                .(cycle := input.cycle)
    && flight.candidates[i] == x.propose(input)
  }

  predicate VerificationTracked(x: Pair, rs: RequestState, flight: Flight, i: nat)
    requires i < |flight.verifications| == |flight.accepted| <= |flight.candidates|
  {
    var input := flight.verifications[i];
    && Between(rs, flight, input.attempt, input.baseGeneration)
    && input == VerificationCapture(Then(rs, input.attempt, input.baseGeneration), i, flight.candidates[i])
    && flight.accepted[i] == x.verify(input)
  }

  predicate Tracked(cfg: Config, x: Pair, s: State, flight: Flight)
    requires FlightSound(cfg, s, flight)
  {
    var rs := s.requests[flight.request];
    && flight.attempt <= rs.attempt && flight.baseGen <= rs.authGen
    && (forall i :: 0 <= i < |flight.proposals| ==> ProposalTracked(cfg, x, rs, flight, i))
    && (forall i :: 0 <= i < |flight.verifications| ==> VerificationTracked(x, rs, flight, i))
  }

  predicate AllTracked(cfg: Config, x: Pair, y: System)
    requires FlightsSound(cfg, y)
  {
    forall f :: f in y.flights ==> Tracked(cfg, x, y.state, y.flights[f])
  }

  /** Tracking survives whatever else happens to the request. */
  lemma TrackedCarries(cfg: Config, x: Pair, s: State, after: State, flight: Flight)
    requires RequestsSound(cfg, s) && RequestsSound(cfg, after) && AllAdvance(s, after)
    requires FlightSound(cfg, s, flight) && FlightSound(cfg, after, flight) && Tracked(cfg, x, s, flight)
    ensures Tracked(cfg, x, after, flight)
  {
    hide RequestSound;
    var rs, later := s.requests[flight.request], after.requests[flight.request];
    SameIdentity(cfg, rs, later);
    assert Advances(rs, later);
    forall i | 0 <= i < |flight.proposals|
      ensures ProposalTracked(cfg, x, later, flight, i)
    {
      assert ProposalTracked(cfg, x, rs, flight, i);
      CaptureIgnoresRest(cfg, rs, later, flight.depth, i, flight.proposals[i].attempt,
          flight.proposals[i].baseGeneration);
    }
    forall i | 0 <= i < |flight.verifications|
      ensures VerificationTracked(x, later, flight, i)
    {
      assert VerificationTracked(x, rs, flight, i);
    }
  }

  lemma SameIdentity(cfg: Config, rs: RequestState, later: RequestState)
    requires RequestSound(cfg, rs) && RequestSound(cfg, later) && rs.req == later.req
    ensures rs.epoch == later.epoch && rs.authState.id == later.authState.id
  {
  }

  lemma CaptureIgnoresRest(cfg: Config, rs: RequestState, later: RequestState, depth: u32, b: u32, attempt: nat,
      gen: nat)
    requires rs.req == later.req && rs.epoch == later.epoch && rs.authState.id == later.authState.id
    ensures forall cycle :: ProposalCapture(cfg, Then(rs, attempt, gen), depth, b).(cycle := cycle)
                            == ProposalCapture(cfg, Then(later, attempt, gen), depth, b).(cycle := cycle)
  {
  }

  lemma NowIsThen(cfg: Config, rs: RequestState)
    requires RequestSound(cfg, rs)
    ensures Then(rs, rs.attempt, rs.authGen) == rs
  {
  }

  lemma ProposeTracks(cfg: Config, x: Pair, s: State, flight: Flight, candidate: seq<Token>)
    requires cfg.Valid() && RequestsSound(cfg, s) && FlightSound(cfg, s, flight) && Tracked(cfg, x, s, flight)
    requires |flight.candidates| < cfg.BranchCount() && |candidate| == flight.depth
    requires candidate == x.propose(ProposalCapture(cfg, s.requests[flight.request], flight.depth, |flight.candidates|))
    ensures FlightSound(cfg, s, WithProposal(cfg, s, flight, candidate))
    ensures Tracked(cfg, x, s, WithProposal(cfg, s, flight, candidate))
  {
    hide RequestSound;
    var rs := s.requests[flight.request];
    var next := WithProposal(cfg, s, flight, candidate);
    NowIsThen(cfg, rs);
    forall i | 0 <= i < |next.proposals|
      ensures ProposalTracked(cfg, x, rs, next, i)
    {
      assert i < |flight.proposals| ==> ProposalTracked(cfg, x, rs, flight, i);
    }
    forall i | 0 <= i < |next.verifications|
      ensures VerificationTracked(x, rs, next, i)
    {
      assert VerificationTracked(x, rs, flight, i);
    }
  }

  lemma VerifyTracks(cfg: Config, x: Pair, s: State, flight: Flight, accepted: nat)
    requires cfg.Valid() && RequestsSound(cfg, s) && FlightSound(cfg, s, flight) && Tracked(cfg, x, s, flight)
    requires |flight.accepted| < |flight.candidates| && accepted <= flight.depth
    requires accepted == x.verify(VerificationCapture(s.requests[flight.request], |flight.accepted|,
        flight.candidates[|flight.accepted|]))
    ensures FlightSound(cfg, s, WithVerification(s, flight, accepted))
    ensures Tracked(cfg, x, s, WithVerification(s, flight, accepted))
  {
    hide RequestSound;
    var rs := s.requests[flight.request];
    var next := WithVerification(s, flight, accepted);
    NowIsThen(cfg, rs);
    forall i | 0 <= i < |next.proposals|
      ensures ProposalTracked(cfg, x, rs, next, i)
    {
      assert ProposalTracked(cfg, x, rs, flight, i);
    }
    forall i | 0 <= i < |next.verifications|
      ensures VerificationTracked(x, rs, next, i)
    {
      assert i < |flight.verifications| ==> VerificationTracked(x, rs, flight, i);
    }
  }

  // ---------------------------------------------------------------------------
  // A current flight is an atomic cycle
  // ---------------------------------------------------------------------------

  /** When the request still stands where the flight was prepared, every capture saw what it sees now. */
  lemma CurrentAnswersAreFresh(cfg: Config, x: Pair, s: State, flight: Flight)
    requires Deterministic(x) && cfg.Valid() && RequestsSound(cfg, s) && FlightSound(cfg, s, flight)
    requires Tracked(cfg, x, s, flight) && AllIn(cfg, flight) && Current(s, flight)
    ensures var drafts := Drafts(cfg, x, s.requests[flight.request], flight.depth);
            && flight.candidates == drafts
            && flight.accepted == Verdicts(cfg, x, s.requests[flight.request], drafts)
  {
    hide RequestSound;
    var rs := s.requests[flight.request];
    NowIsThen(cfg, rs);
    var drafts := Drafts(cfg, x, rs, flight.depth);
    forall i | 0 <= i < |drafts|
      ensures flight.candidates[i] == drafts[i]
    {
      assert ProposalTracked(cfg, x, rs, flight, i);
      var input := flight.proposals[i];
      assert input == ProposalCapture(cfg, rs, flight.depth, i).(cycle := input.cycle);
    }
    assert flight.candidates == drafts;
    forall i | 0 <= i < |drafts|
      ensures flight.accepted[i] == Verdicts(cfg, x, rs, drafts)[i]
    {
      assert VerificationTracked(x, rs, flight, i);
    }
  }

  // ---------------------------------------------------------------------------
  // The simulation
  // ---------------------------------------------------------------------------

  /** Equal but for the phase, which no step copies into anything else. */
  predicate SameRequest(r1: RequestState, r2: RequestState) {
    r1 == r2.(phase := r1.phase)
  }

  /** Equal but for the counters of what was refused: bypasses and stale results. */
  predicate SameCounters(c1: Stats, c2: Stats) {
    c1 == c2.(bypasses := c1.bypasses, rejectedStale := c1.rejectedStale, staleByEpoch := c1.staleByEpoch,
              staleByAttempt := c1.staleByAttempt, staleByGeneration := c1.staleByGeneration)
  }

  predicate Same(s1: State, s2: State) {
    && s1.requests.Keys == s2.requests.Keys
    && (forall id :: id in s1.requests ==> SameRequest(s1.requests[id], s2.requests[id]))
    && SameCounters(s1.stats, s2.stats) && s1.history == s2.history
  }

  lemma SubmitSame(cfg: Config, s1: State, s2: State, req: Request)
    requires Same(s1, s2)
    ensures Same(Engine.Submit(cfg, s1, req).state, Engine.Submit(cfg, s2, req).state)
  {
    if req.id in s1.requests {
      assert SameRequest(s1.requests[req.id], s2.requests[req.id]);
    }
  }

  lemma CancelSame(s1: State, s2: State, id: nat)
    requires Same(s1, s2)
    ensures Same(Engine.Cancel(s1, id).state, Engine.Cancel(s2, id).state)
  {
    hide Moved, AllRetired;
    if id in s1.requests {
      assert SameRequest(s1.requests[id], s2.requests[id]);
    }
  }

  lemma CompleteSame(s1: State, s2: State, id: nat)
    requires Same(s1, s2)
    ensures Same(Engine.Complete(s1, id).state, Engine.Complete(s2, id).state)
  {
    hide Moved;
    if id in s1.requests {
      assert SameRequest(s1.requests[id], s2.requests[id]);
    }
  }

  lemma RetrySame(s1: State, s2: State, id: nat)
    requires Same(s1, s2)
    ensures Same(Engine.Retry(s1, id).state, Engine.Retry(s2, id).state)
  {
    if id in s1.requests {
      assert SameRequest(s1.requests[id], s2.requests[id]);
    }
  }

  lemma RollbackSame(s1: State, s2: State, id: nat)
    requires Same(s1, s2)
    ensures Same(Engine.Rollback(s1, id).state, Engine.Rollback(s2, id).state)
  {
    hide AllRetired, UncommittedTokens, ActiveCount;
    if id in s1.requests {
      assert SameRequest(s1.requests[id], s2.requests[id]);
    }
  }

  lemma PrepareSame(cfg: Config, s1: State, s2: State, id: nat, now: nat)
    requires cfg.Valid() && RequestsSound(cfg, s1) && Same(s1, s2) && id in s1.requests
    ensures Same(Engine.Prepare(cfg, s1, id, now).state, s2)
  {
    hide RequestSound, Engine.Prepare, Backpressure, PlannedDepth, AcceptanceRatio;
    PrepareEvolves(cfg, s1, id, now);
    PrepareStats(cfg, s1, id, now);
    assert SameRequest(s1.requests[id], s2.requests[id]);
  }

  lemma CommitSame(s1: State, s2: State, id: nat, depth: nat, candidates: seq<seq<Token>>, accepted: seq<nat>)
    requires Same(s1, s2) && Answered(candidates, accepted) && id in s1.requests
    ensures Same(Engine.Commit(s1, id, depth, candidates, accepted).state, Engine.Commit(s2, id, depth, candidates,
        accepted).state)
  {
    hide Selection.Winner, RetireOthers, Outcome, Pushed, RatioOf, KindOf;
    assert SameRequest(s1.requests[id], s2.requests[id]);
  }

  lemma CapturesIgnorePhase(cfg: Config, x: Pair, r1: RequestState, r2: RequestState, depth: u32)
    requires SameRequest(r1, r2)
    ensures Drafts(cfg, x, r1, depth) == Drafts(cfg, x, r2, depth)
    ensures Verdicts(cfg, x, r1, Drafts(cfg, x, r1, depth)) == Verdicts(cfg, x, r2, Drafts(cfg, x, r2, depth))
  {
    var d1, d2 := Drafts(cfg, x, r1, depth), Drafts(cfg, x, r2, depth);
    forall b: nat | b < cfg.BranchCount()
      ensures d1[b] == d2[b]
    {
      assert ProposalCapture(cfg, r1, depth, b) == ProposalCapture(cfg, r2, depth, b);
    }
    assert d1 == d2;
    forall b: nat | b < cfg.BranchCount()
      ensures Verdicts(cfg, x, r1, d1)[b] == Verdicts(cfg, x, r2, d2)[b]
    {
      assert VerificationCapture(r1, b, d1[b]) == VerificationCapture(r2, b, d2[b]);
    }
  }

  lemma AtomicSame(cfg: Config, x: Pair, s1: State, s2: State, id: nat, depth: u32)
    requires Same(s1, s2) && id in s1.requests
    ensures Same(AtomicCycle(cfg, x, s1, id, depth), AtomicCycle(cfg, x, s2, id, depth))
  {
    hide Engine.Commit, Drafts, Verdicts, SameCounters;
    CapturesIgnorePhase(cfg, x, s1.requests[id], s2.requests[id], depth);
    var drafts := Drafts(cfg, x, s1.requests[id], depth);
    var verdicts := Verdicts(cfg, x, s1.requests[id], drafts);
    if Answered(drafts, verdicts) {
      CommitSame(s1, s2, id, depth, drafts, verdicts);
    }
  }

  /** A guarded landing of a current flight is the atomic cycle of the same request in the serial state. */
  lemma LandingIsAtomic(cfg: Config, x: Pair, s: State, serial: State, flight: Flight)
    requires Deterministic(x) && cfg.Valid() && RequestsSound(cfg, s) && FlightSound(cfg, s, flight)
    requires Tracked(cfg, x, s, flight) && AllIn(cfg, flight) && Same(s, serial)
    ensures Answered(flight.candidates, flight.accepted)
    ensures Live(s, flight) && Current(s, flight) ==>
              Same(Landed(Guarded, s, flight), AtomicCycle(cfg, x, serial, flight.request, flight.depth))
    ensures !(Live(s, flight) && Current(s, flight)) ==> Same(Landed(Guarded, s, flight), serial)
  {
    hide RequestsSound, Tracked, FlightSound, Deterministic, Engine.Commit, Gated, Drafts, Verdicts, Live, Current,
        SameCounters;
    FlightKnown(cfg, s, flight);
    GuardedCommit(cfg, s, flight);
    LiteralGate(s, flight);
    if Live(s, flight) && Current(s, flight) {
      CurrentAnswersAreFresh(cfg, x, s, flight);
      AtomicSame(cfg, x, s, serial, flight.request, flight.depth);
    } else {
      GatePasses(cfg, s, flight);
      RefusalIsSame(s, serial, flight);
    }
  }

  /** A refused landing touches only the counters of refusals. */
  lemma RefusalIsSame(s: State, serial: State, flight: Flight)
    requires flight.request in s.requests && Answered(flight.candidates, flight.accepted)
    requires Gated(Guarded, s, flight).value.Err? && Same(s, serial)
    ensures Same(Landed(Guarded, s, flight), serial)
  {
  }

  // ---------------------------------------------------------------------------
  // Whole cycles
  // ---------------------------------------------------------------------------

  /** A policy whose plan depends neither on the history, nor on the backlog, nor on the acceptance ratio. */
  predicate HistoryFree(cfg: Config) {
    !cfg.policy.adaptiveDepthEnabled && cfg.policy.maxOutstanding == 0 && cfg.policy.minAcceptanceRatio <= 0.0
  }

  /** Then a sound flight of a live request would be planned again with the same depth. */
  lemma PlanRepeats(cfg: Config, s: State, serial: State, flight: Flight)
    requires cfg.Valid() && HistoryFree(cfg) && FlightSound(cfg, s, flight) && Live(s, flight) && Same(s, serial)
    ensures Engine.Prepare(cfg, serial, flight.request, flight.prepared).value
            == Ok(Planned(flight.depth, cfg.BranchCount()))
  {
    hide Dispatched, Lifecycle.IsTerminal, AcceptanceRatio, SameCounters;
    assert SameRequest(s.requests[flight.request], serial.requests[flight.request]);
    PlansAreFixed(cfg, serial.history);
  }

  /** Where the plan repeats, the whole cycle is the cycle after its prepare block. */
  lemma WholeIsAtomic(cfg: Config, x: Pair, serial: State, id: nat, now: nat, depth: u32)
    requires cfg.Valid() && Engine.Prepare(cfg, serial, id, now).value == Ok(Planned(depth, cfg.BranchCount()))
    ensures Same(AtomicCycle(cfg, x, serial, id, depth), WholeCycle(cfg, x, serial, id, now))
  {
    hide AtomicCycle, Dispatched, Backpressure, PlannedDepth, AcceptanceRatio;
    var prepared := Engine.Prepare(cfg, serial, id, now).state;
    assert Same(serial, prepared);
    AtomicSame(cfg, x, serial, prepared, id, depth);
  }

  /** What an atomic cycle does to its live request. */
  lemma CycleCommits(cfg: Config, x: Pair, s: State, id: nat, depth: u32)
    requires id in s.requests && !s.requests[id].cancelled && !s.requests[id].terminal
    requires var drafts := Drafts(cfg, x, s.requests[id], depth);
             Answered(drafts, Verdicts(cfg, x, s.requests[id], drafts))
    ensures var rs := s.requests[id];
            var drafts := Drafts(cfg, x, rs, depth);
            var verdicts := Verdicts(cfg, x, rs, drafts);
            var w := Selection.Winner(Ballots(verdicts));
            var after := AtomicCycle(cfg, x, s, id, depth);
            && id in after.requests && after.requests == s.requests[id := after.requests[id]]
            && after.requests[id].req == rs.req && after.requests[id].completedCycles == rs.completedCycles + 1
            && after.requests[id].committed == rs.committed + drafts[w][..verdicts[w]]
            && after.requests[id].proposals == rs.proposals + [after.requests[id].proposals[|rs.proposals|]]
            && after.requests[id].proposals[|rs.proposals|].branch == w + 1
            && after.requests[id].proposals[|rs.proposals|].candidate == drafts[w]
            && after.requests[id].authGen == rs.authGen + verdicts[w]
            && after.requests[id].authState == StateRef(rs.authState.id, rs.authState.generation + verdicts[w])
            && after.requests[id].cancelled == rs.cancelled && after.requests[id].terminal == rs.terminal
  {
    hide Selection.Winner, RetireOthers, Outcome, Counted, Pushed, RatioOf, KindOf, Drafts, Verdicts;
  }

  /** Executors that keep their contract answer every cycle. */
  lemma DeterministicAnswers(cfg: Config, x: Pair, rs: RequestState, depth: u32)
    requires Deterministic(x)
    ensures var drafts := Drafts(cfg, x, rs, depth);
            && Answered(drafts, Verdicts(cfg, x, rs, drafts))
            && forall b :: 0 <= b < |drafts| ==> |drafts[b]| == depth
  {
    var drafts := Drafts(cfg, x, rs, depth);
    forall b: nat | b < |drafts|
      ensures |drafts[b]| == depth && Verdicts(cfg, x, rs, drafts)[b] <= |drafts[b]|
    {
      assert drafts[b] == x.propose(ProposalCapture(cfg, rs, depth, b));
      assert Verdicts(cfg, x, rs, drafts)[b] == x.verify(VerificationCapture(rs, b, drafts[b]));
    }
  }

  /** A whole cycle that plans no more than another depth leaves other proposals. */
  lemma OtherPlanOtherProposals(cfg: Config, x: Pair, s: State, flight: Flight)
    requires Deterministic(x) && cfg.Valid() && RequestsSound(cfg, s) && FlightSound(cfg, s, flight) && Live(s, flight)
    requires Engine.Prepare(cfg, s, flight.request, flight.prepared).value
             != Ok(Planned(flight.depth, cfg.BranchCount()))
    ensures var before, after := s.requests, WholeCycle(cfg, x, s, flight.request, flight.prepared).requests;
            && flight.request in after
            && (|| after[flight.request].proposals == before[flight.request].proposals
                || (|after[flight.request].proposals| == |before[flight.request].proposals| + 1
                    && |after[flight.request].proposals[|before[flight.request].proposals|].candidate| != flight.depth))
  {
    hide Deterministic, RequestSound, Engine.Prepare, AtomicCycle, Drafts, Verdicts, Backpressure, PlannedDepth,
        AcceptanceRatio;
    var id := flight.request;
    PrepareEvolves(cfg, s, id, flight.prepared);
    var prepared := Engine.Prepare(cfg, s, id, flight.prepared);
    if Plans(prepared) {
      DeterministicAnswers(cfg, x, prepared.state.requests[id], prepared.value.value.depth);
      CycleCommits(cfg, x, prepared.state, id, prepared.value.value.depth);
    }
  }

  /**
   * Exactly when a current flight's commit is a whole run_cycle: when the engine would plan the same again just before
   * it. That is a question the commit block could ask.
   */
  lemma LandingIsWholeCycleIff(cfg: Config, x: Pair, s: State, flight: Flight)
    requires Deterministic(x) && cfg.Valid() && RequestsSound(cfg, s) && FlightSound(cfg, s, flight)
    requires Tracked(cfg, x, s, flight) && AllIn(cfg, flight) && Live(s, flight) && Current(s, flight)
    ensures Answered(flight.candidates, flight.accepted)
    ensures Same(Landed(Guarded, s, flight), WholeCycle(cfg, x, s, flight.request, flight.prepared))
            <==> Engine.Prepare(cfg, s, flight.request, flight.prepared).value
                 == Ok(Planned(flight.depth, cfg.BranchCount()))
  {
    hide RequestsSound, Tracked, Deterministic, Engine.Prepare, WholeCycle, AtomicCycle, Landed, Live, Current;
    var id := flight.request;
    LandingIsAtomic(cfg, x, s, s, flight);
    if Engine.Prepare(cfg, s, id, flight.prepared).value == Ok(Planned(flight.depth, cfg.BranchCount())) {
      WholeIsAtomic(cfg, x, s, id, flight.prepared, flight.depth);
      SameTransitively(Landed(Guarded, s, flight), AtomicCycle(cfg, x, s, id, flight.depth),
                       WholeCycle(cfg, x, s, id, flight.prepared));
    } else {
      OtherPlanOtherProposals(cfg, x, s, flight);
      LiteralCommit(cfg, s, flight);
      GuardedCommit(cfg, s, flight);
      var landed, whole := Landed(Guarded, s, flight), WholeCycle(cfg, x, s, id, flight.prepared);
      assert landed.requests[id].proposals != whole.requests[id].proposals;
    }
  }

  lemma SameTransitively(s1: State, s2: State, s3: State)
    requires Same(s1, s2) && Same(s2, s3)
    ensures Same(s1, s3)
  {
  }

  lemma FlightKnown(cfg: Config, s: State, flight: Flight)
    requires FlightSound(cfg, s, flight)
    ensures flight.request in s.requests
  {
  }

  lemma SerialOne(cfg: Config, x: Pair, s: State, a: SerialAction)
    requires cfg.Valid()
    ensures SerialRun(cfg, x, s, [a]) == SerialNext(cfg, x, s, a)
    ensures SerialRun(cfg, x, s, []) == s
  {
    assert [a][1..] == [];
  }

  lemma {:induction false} SerialSplits(cfg: Config, x: Pair, s: State, p: seq<SerialAction>, q: seq<SerialAction>)
    requires cfg.Valid()
    ensures SerialRun(cfg, x, s, p + q) == SerialRun(cfg, x, SerialRun(cfg, x, s, p), q)
    decreases |p|
  {
    hide SerialNext;
    if |p| == 0 {
      assert p + q == q;
    } else {
      assert (p + q)[1..] == p[1..] + q;
      SerialSplits(cfg, x, SerialNext(cfg, x, s, p[0]), p[1..], q);
    }
  }

  /** A commit against its serial step. */
  lemma CommitSimulates(cfg: Config, x: Pair, grain: Grain, y: System, f: nat, serial: State)
    requires Deterministic(x) && cfg.Valid() && RequestsSound(cfg, y.state) && FlightsSound(cfg, y)
    requires AllTracked(cfg, x, y) && Same(y.state, serial) && Allowed(cfg, y, Commit(f))
    requires grain == WholeCycles ==> HistoryFree(cfg)
    ensures Same(Next(cfg, Guarded, y, Commit(f)).state, SerialRun(cfg, x, serial, SerialOf(cfg, grain, y, Commit(f))))
  {
    hide RequestSound, FlightSound, Tracked, Same, SerialRun, Landed, AtomicCycle, WholeCycle, Live, Current,
        HistoryFree, Engine.Prepare;
    var flight := y.flights[f];
    FlightKnown(cfg, y.state, flight);
    LandingIsAtomic(cfg, x, y.state, serial, flight);
    if Live(y.state, flight) && Current(y.state, flight) {
      SerialOne(cfg, x, serial, SerialOf(cfg, grain, y, Commit(f))[0]);
      if grain == WholeCycles {
        PlanRepeats(cfg, y.state, serial, flight);
        WholeIsAtomic(cfg, x, serial, flight.request, flight.prepared, flight.depth);
        SameTransitively(Landed(Guarded, y.state, flight), AtomicCycle(cfg, x, serial, flight.request, flight.depth),
                         WholeCycle(cfg, x, serial, flight.request, flight.prepared));
      }
    } else {
      SerialOne(cfg, x, serial, CancelNow(0));
    }
  }

  /** One concurrent action against its serial step. */
  lemma StepSimulates(cfg: Config, x: Pair, grain: Grain, y: System, a: Action, serial: State)
    requires Deterministic(x) && cfg.Valid() && RequestsSound(cfg, y.state) && FlightsSound(cfg, y)
    requires AllTracked(cfg, x, y) && AnswersOf(cfg, x, y, a) && Same(y.state, serial)
    requires grain == WholeCycles ==> HistoryFree(cfg)
    ensures Same(Next(cfg, Guarded, y, a).state, SerialRun(cfg, x, serial, SerialOf(cfg, grain, y, a)))
  {
    hide RequestSound, FlightSound, Tracked, Same, SerialRun, Landed, Launched, AtomicCycle, WholeCycle, Live, Current,
        HistoryFree, Engine.Submit, Engine.Cancel, Engine.Complete, Engine.Retry, Engine.Rollback, Engine.Prepare;
    if Allowed(cfg, y, a) && a.Commit? {
      CommitSimulates(cfg, x, grain, y, a.flight, serial);
    } else {
      ControlSimulates(cfg, x, grain, y, a, serial);
    }
  }

  lemma ControlSimulates(cfg: Config, x: Pair, grain: Grain, y: System, a: Action, serial: State)
    requires cfg.Valid() && RequestsSound(cfg, y.state) && FlightsSound(cfg, y) && Same(y.state, serial)
    requires !(Allowed(cfg, y, a) && a.Commit?)
    ensures Same(Next(cfg, Guarded, y, a).state, SerialRun(cfg, x, serial, SerialOf(cfg, grain, y, a)))
  {
    hide RequestSound, FlightSound, Same, SerialRun, Landed, Launched, Engine.Submit, Engine.Cancel, Engine.Complete,
        Engine.Retry, Engine.Rollback, Engine.Prepare;
    if |SerialOf(cfg, grain, y, a)| > 0 {
      SerialOne(cfg, x, serial, SerialOf(cfg, grain, y, a)[0]);
      assert SerialOf(cfg, grain, y, a) == [SerialOf(cfg, grain, y, a)[0]];
    } else {
      SerialOne(cfg, x, serial, CancelNow(0));
    }
    if Allowed(cfg, y, a) {
      match a {
        case Submit(req) => SubmitSame(cfg, y.state, serial, req);
        case Cancel(id) => CancelSame(y.state, serial, id);
        case Complete(id) => CompleteSame(y.state, serial, id);
        case Retry(id) => RetrySame(y.state, serial, id);
        case Rollback(id) => RollbackSame(y.state, serial, id);
        case Prepare(f, id, now) =>
          if id in y.state.requests {
            LaunchedSound(cfg, y, f, id, now);
            PrepareSame(cfg, y.state, serial, id, now);
          }
        case Propose(_, _) =>
        case Verify(_, _) =>
        case Abandon(_) =>
      }
    }
  }

  lemma LaunchTracks(cfg: Config, x: Pair, y: System, f: nat, id: nat, now: nat)
    requires cfg.Valid() && RequestsSound(cfg, y.state) && FlightsSound(cfg, y) && id in y.state.requests
    requires AllTracked(cfg, x, y)
    ensures FlightsSound(cfg, Launched(y, Engine.Prepare(cfg, y.state, id, now), f, id, now))
    ensures AllTracked(cfg, x, Launched(y, Engine.Prepare(cfg, y.state, id, now), f, id, now))
  {
    hide RequestSound, FlightSound, Tracked, Engine.Prepare, Backpressure, PlannedDepth, AcceptanceRatio;
    PrepareEvolves(cfg, y.state, id, now);
    LaunchedSound(cfg, y, f, id, now);
    var after := Launched(y, Engine.Prepare(cfg, y.state, id, now), f, id, now);
    forall g | g in after.flights
      ensures Tracked(cfg, x, after.state, after.flights[g])
    {
      if g in y.flights && after.flights[g] == y.flights[g] {
        TrackedCarries(cfg, x, y.state, after.state, y.flights[g]);
      } else {
        NewFlightTracked(cfg, x, after.state, after.flights[g]);
      }
    }
  }

  lemma NewFlightTracked(cfg: Config, x: Pair, s: State, flight: Flight)
    requires FlightSound(cfg, s, flight) && flight.proposals == [] && flight.verifications == []
    requires flight.attempt == s.requests[flight.request].attempt
        && flight.baseGen == s.requests[flight.request].authGen
    ensures Tracked(cfg, x, s, flight)
  {
  }

  /** Every action keeps every flight's captures accounted for. */
  lemma NextTracks(cfg: Config, x: Pair, y: System, a: Action)
    requires cfg.Valid() && RequestsSound(cfg, y.state) && FlightsSound(cfg, y)
    requires AllTracked(cfg, x, y) && AnswersOf(cfg, x, y, a)
    ensures FlightsSound(cfg, Next(cfg, Guarded, y, a)) && AllTracked(cfg, x, Next(cfg, Guarded, y, a))
  {
    hide RequestSound, Tracked, Landed, Launched, Engine.Submit, Engine.Cancel, Engine.Complete, Engine.Retry,
         Engine.Rollback, Engine.Prepare;
    NextEvolves(cfg, Guarded, y, a);
    var next := Next(cfg, Guarded, y, a);
    if Allowed(cfg, y, a) && a.Prepare? {
      if a.id in y.state.requests {
        LaunchTracks(cfg, x, y, a.flight, a.id, a.now);
      }
    } else {
      forall f | f in next.flights
        ensures Tracked(cfg, x, next.state, next.flights[f])
      {
        FlightTracks(cfg, x, y, a, f);
      }
    }
  }

  lemma FlightTracks(cfg: Config, x: Pair, y: System, a: Action, f: nat)
    requires cfg.Valid() && RequestsSound(cfg, y.state) && FlightsSound(cfg, y) && AllTracked(cfg, x, y)
        && AnswersOf(cfg, x, y, a)
    requires var next := Next(cfg, Guarded, y, a);
             && RequestsSound(cfg, next.state) && FlightsSound(cfg, next) && AllAdvance(y.state, next.state)
             && f in next.flights && !(Allowed(cfg, y, a) && a.Prepare?)
    ensures Tracked(cfg, x, Next(cfg, Guarded, y, a).state, Next(cfg, Guarded, y, a).flights[f])
  {
    hide RequestsSound, Tracked, Landed, Launched, AllAdvance, Engine.Submit, Engine.Cancel, Engine.Complete,
        Engine.Retry,
         Engine.Rollback, Engine.Prepare;
    var next := Next(cfg, Guarded, y, a);
    if Allowed(cfg, y, a) && a.Propose? && f == a.flight {
      ProposeTracks(cfg, x, y.state, y.flights[f], a.candidate);
    } else if Allowed(cfg, y, a) && a.Verify? && f == a.flight {
      VerifyTracks(cfg, x, y.state, y.flights[f], a.accepted);
    } else {
      assert next.flights[f] == y.flights[f];
      TrackedCarries(cfg, x, y.state, next.state, y.flights[f]);
    }
  }

  /**
   * Serializability: behind the gate, a concurrent run with deterministic executors leaves every request, every
   * counter of work done and the history as the serial run does that keeps its control actions and runs its successful
   * commits one after another: as whole cycles under a history-free policy, and after their prepare blocks under any
   * policy.
   */
  lemma {:induction false} GuardedRunsAreSerializable(
    cfg: Config, x: Pair, grain: Grain, y: System, actions: seq<Action>, serial: State)
    requires Deterministic(x) && cfg.Valid() && Sound(cfg, y) && AllTracked(cfg, x, y)
    requires Driven(cfg, x, y, actions) && Same(y.state, serial) && (grain == WholeCycles ==> HistoryFree(cfg))
    ensures Same(Run(cfg, Guarded, y, actions).state, SerialRun(cfg, x, serial, Serial(cfg, grain, y, actions)))
    decreases |actions|
  {
    hide RequestsSound, FlightsSound, BooksBalance, AllTracked, AnswersOf, Deterministic, Same, Next, SerialOf,
        SerialRun, HistoryFree;
    if |actions| == 0 {
      SerialOne(cfg, x, serial, CancelNow(0));
    } else {
      var next := Next(cfg, Guarded, y, actions[0]);
      StepSimulates(cfg, x, grain, y, actions[0], serial);
      NextTracks(cfg, x, y, actions[0]);
      var middle := SerialRun(cfg, x, serial, SerialOf(cfg, grain, y, actions[0]));
      GuardedRunsAreSerializable(cfg, x, grain, next, actions[1..], middle);
      SerialSplits(cfg, x, serial, SerialOf(cfg, grain, y, actions[0]), Serial(cfg, grain, next, actions[1..]));
    }
  }

  /** In particular from a system with nothing in flight, such as the empty engine. */
  lemma QuietSystemsSerialize(cfg: Config, x: Pair, grain: Grain, y: System, actions: seq<Action>)
    requires Deterministic(x) && cfg.Valid() && Sound(cfg, y) && y.flights == map[] && Driven(cfg, x, y, actions)
    requires grain == WholeCycles ==> HistoryFree(cfg)
    ensures Same(Run(cfg, Guarded, y, actions).state, SerialRun(cfg, x, y.state, Serial(cfg, grain, y, actions)))
  {
    hide RequestsSound, BooksBalance, Next, SerialRun, Run, Serial, Driven, Deterministic, HistoryFree;
    GuardedRunsAreSerializable(cfg, x, grain, y, actions, y.state);
  }
}
