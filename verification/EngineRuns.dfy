/**
 * Every interleaving of the engine's locked blocks, with executors that answer anything their contract allows.
 * Cycles in flight are kept beside the engine; between two blocks of one cycle any other action may happen.
 */
module EngineRuns {
  import opened Words
  import opened Executors
  import opened Policy
  import opened Engine
  import opened Ledger
  import Selection
  import Lifecycle

  /** A cycle between its prepare block and its commit block: its clock and plan, what was captured, what came back. */
  datatype Flight = Flight(
    request: nat, prepared: nat, depth: u32, epoch: nat, attempt: nat, baseGen: nat,
    proposals: seq<ProposalInput>, candidates: seq<seq<Token>>,
    verifications: seq<VerificationInput>, accepted: seq<nat>)

  /** The engine, its flights, the ids in the order they were admitted, and the rollbacks made by hand. */
  datatype System = System(state: State, flights: map<nat, Flight>, ids: seq<nat>, handRollbacks: nat)

  const INITIAL := System(Engine.START, map[], [], 0)

  datatype Action =
    | Submit(req: Request)
    | Cancel(id: nat)
    | Complete(id: nat)
    | Retry(id: nat)
    | Rollback(id: nat)
    | Prepare(flight: nat, id: nat, now: nat)
    | Propose(flight: nat, candidate: seq<Token>)
    | Verify(flight: nat, accepted: nat)
    | Abandon(flight: nat)
    | Commit(flight: nat)

  /** Whether the commit block is the engine's own, or first asks the authority gate it declares but never calls. */
  datatype Gate = Literal | Guarded

  /** When an action can happen. Requests carry a non-null id, and executors keep to their contract. */
  predicate Allowed(cfg: Config, y: System, a: Action) {
    match a
    case Submit(req) => req.id != 0
    case Prepare(f, _, _) => f !in y.flights
    case Propose(f, candidate) =>
      && f in y.flights && |y.flights[f].candidates| < cfg.BranchCount()
      && |candidate| == y.flights[f].depth
    case Verify(f, accepted) =>
      && f in y.flights && |y.flights[f].candidates| == cfg.BranchCount()
      && |y.flights[f].accepted| < |y.flights[f].candidates|
      && accepted <= |y.flights[f].candidates[|y.flights[f].accepted|]|
    case Abandon(f) => f in y.flights
    case Commit(f) => f in y.flights && |y.flights[f].accepted| == |y.flights[f].candidates| == cfg.BranchCount()
    case _ => true
  }

  /** A cycle's plan is what its prepare block captured. */
  function Launched(y: System, reply: Reply<Preparation>, f: nat, id: nat, now: nat): System
    requires id in reply.state.requests
  {
    var launched := y.(state := reply.state);
    if reply.value.Ok? && reply.value.value.Planned? then
      var rs := reply.state.requests[id];
      var flight := Flight(id, now, reply.value.value.depth, rs.epoch, rs.attempt, rs.authGen, [], [], [], []);
      launched.(flights := y.flights[f := flight])
    else launched
  }

  /** The state in which the commit block runs, or the gate's refusal. */
  function Gated(gate: Gate, s: State, flight: Flight): Reply<()>
    requires flight.request in s.requests
  {
    if gate == Literal then Reply(s, Ok(()))
    else CheckAuthority(s, s.requests[flight.request], flight.epoch, flight.attempt, flight.baseGen, 0)
  }

  /** The state after a flight's commit. */
  function Landed(gate: Gate, s: State, flight: Flight): State
    requires flight.request in s.requests && Answered(flight.candidates, flight.accepted)
  {
    var gated := Gated(gate, s, flight);
    if gated.value.Err? then gated.state
    else Engine.Commit(gated.state, flight.request, flight.depth, flight.candidates, flight.accepted).state
  }

  /** The flights' side of the invariant. */
  predicate FlightSound(cfg: Config, s: State, flight: Flight) {
    && flight.request in s.requests
    && cfg.compatible(s.requests[flight.request].req.draft, s.requests[flight.request].req.target)
    && 1 <= flight.depth <= cfg.policy.maxDepth && flight.epoch == cfg.epoch
    && cfg.executors && cfg.policy.speculatingEnabled && !Late(s.requests[flight.request], flight.prepared)
    && (!cfg.policy.adaptiveDepthEnabled ==> FixedDepth(cfg, flight.depth))
    && |flight.proposals| == |flight.candidates| <= cfg.BranchCount()
    && |flight.verifications| == |flight.accepted| <= |flight.candidates|
    && (forall i :: 0 <= i < |flight.candidates| ==> |flight.candidates[i]| == flight.depth)
    && (forall i :: 0 <= i < |flight.accepted| ==> flight.accepted[i] <= flight.depth)
  }

  /** The depth of every plan when the policy does not adapt it. */
  predicate FixedDepth(cfg: Config, depth: u32) {
    cfg.Valid() && depth == PlannedDepth(cfg.policy, [])
  }

  predicate FlightsSound(cfg: Config, y: System) {
    forall f :: f in y.flights ==> FlightSound(cfg, y.state, y.flights[f])
  }

  /** One action; an action that cannot happen changes nothing. */
  function Next(cfg: Config, gate: Gate, y: System, a: Action): System
    requires cfg.Valid() && FlightsSound(cfg, y)
  {
    if !Allowed(cfg, y, a) then y
    else match a
      case Submit(req) =>
        var reply := Engine.Submit(cfg, y.state, req);
        y.(state := reply.state, ids := if reply.value.Ok? then y.ids + [req.id] else y.ids)
      case Cancel(id) => y.(state := Engine.Cancel(y.state, id).state)
      case Complete(id) => y.(state := Engine.Complete(y.state, id).state)
      case Retry(id) => y.(state := Engine.Retry(y.state, id).state)
      case Rollback(id) =>
        var reply := Engine.Rollback(y.state, id);
        y.(state := reply.state, handRollbacks := y.handRollbacks + if reply.value.Ok? then 1 else 0)
      case Prepare(f, id, now) =>
        if id in y.state.requests then Launched(y, Engine.Prepare(cfg, y.state, id, now), f, id, now) else y
      case Propose(f, candidate) => y.(flights := y.flights[f := WithProposal(cfg, y.state, y.flights[f], candidate)])
      case Verify(f, accepted) => y.(flights := y.flights[f := WithVerification(y.state, y.flights[f], accepted)])
      case Abandon(f) => y.(flights := y.flights - {f})
      case Commit(f) => y.(state := Landed(gate, y.state, y.flights[f]), flights := y.flights - {f})
  }

  /** The proposer's input is captured as the authority stands, whatever happened since the prepare block. */
  function WithProposal(cfg: Config, s: State, flight: Flight, candidate: seq<Token>): Flight
    requires flight.request in s.requests && |flight.candidates| < cfg.BranchCount()
  {
    var input := ProposalCapture(cfg, s.requests[flight.request], flight.depth, |flight.candidates|);
    flight.(proposals := flight.proposals + [input], candidates := flight.candidates + [candidate])
  }

  function WithVerification(s: State, flight: Flight, accepted: nat): Flight
    requires flight.request in s.requests && |flight.accepted| < |flight.candidates|
  {
    var b := |flight.accepted|;
    var input := VerificationCapture(s.requests[flight.request], b, flight.candidates[b]);
    flight.(verifications := flight.verifications + [input], accepted := flight.accepted + [accepted])
  }

  // ---------------------------------------------------------------------------
  // Requests
  // ---------------------------------------------------------------------------

  predicate RequestsSound(cfg: Config, s: State) {
    forall id :: id in s.requests ==> s.requests[id].req.id == id && id != 0 && RequestSound(cfg, s.requests[id])
  }

  /** What a request may become: tokens, proposals and attempts only grow, and a finished request is frozen. */
  predicate Advances(rs: RequestState, after: RequestState) {
    && after.req == rs.req && rs.committed <= after.committed && rs.proposals <= after.proposals
    && rs.authGen <= after.authGen && rs.attempt <= after.attempt
    && (rs.cancelled ==> after.cancelled) && (rs.terminal ==> after.terminal)
    && (rs.cancelled || rs.terminal ==>
          && after.committed == rs.committed && after.authGen == rs.authGen && after.authState == rs.authState
          && after.attempt == rs.attempt && after.proposals == rs.proposals)
  }

  lemma AdvancesTransitively(r1: RequestState, r2: RequestState, r3: RequestState)
    requires Advances(r1, r2) && Advances(r2, r3)
    ensures Advances(r1, r3)
  {
    PrefixTransitive(r1.committed, r2.committed, r3.committed);
    PrefixTransitive(r1.proposals, r2.proposals, r3.proposals);
  }

  lemma PrefixTransitive<T>(a: seq<T>, b: seq<T>, c: seq<T>)
    requires a <= b <= c
    ensures a <= c
  {
  }

  predicate AllAdvance(s: State, after: State) {
    forall id :: id in s.requests ==> id in after.requests && Advances(s.requests[id], after.requests[id])
  }

  /** A step that replaces one request by what it may become. */
  lemma OneAdvances(cfg: Config, s: State, after: State, id: nat)
    requires RequestsSound(cfg, s) && id in s.requests && id in after.requests
    requires after.requests == s.requests[id := after.requests[id]]
    requires RequestSound(cfg, after.requests[id]) && Advances(s.requests[id], after.requests[id])
    ensures RequestsSound(cfg, after) && AllAdvance(s, after)
  {
    hide RequestSound;
  }

  lemma SubmitEvolves(cfg: Config, s: State, req: Request)
    requires RequestsSound(cfg, s) && req.id != 0
    ensures var reply := Engine.Submit(cfg, s, req);
            && RequestsSound(cfg, reply.state) && AllAdvance(s, reply.state)
            && (reply.value.Ok? <==> req.id !in s.requests)
            && (reply.value.Ok? ==> reply.state.requests == s.requests[req.id := Admitted(cfg, BLANK, req)])
            && (reply.value.Err? ==> reply.state == s)
  {
    hide RequestSound, Admitted;
    AdmittedSound(cfg, req);
    AdmittedRequest(cfg, req);
  }

  lemma AdmittedRequest(cfg: Config, req: Request)
    ensures Admitted(cfg, BLANK, req).req == req
  {
  }

  lemma CancelEvolves(cfg: Config, s: State, id: nat)
    requires RequestsSound(cfg, s)
    ensures RequestsSound(cfg, Engine.Cancel(s, id).state) && AllAdvance(s, Engine.Cancel(s, id).state)
  {
    hide RequestSound, Moved, AllRetired;
    if id in s.requests && !s.requests[id].cancelled && !s.requests[id].terminal {
      CancelledSound(cfg, s.requests[id]);
      OneAdvances(cfg, s, Engine.Cancel(s, id).state, id);
    }
  }

  lemma CompleteEvolves(cfg: Config, s: State, id: nat)
    requires RequestsSound(cfg, s)
    ensures RequestsSound(cfg, Engine.Complete(s, id).state) && AllAdvance(s, Engine.Complete(s, id).state)
  {
    hide RequestSound, Moved;
    if id in s.requests {
      CompletedSound(cfg, s.requests[id]);
      OneAdvances(cfg, s, Engine.Complete(s, id).state, id);
    }
  }

  lemma RetryEvolves(cfg: Config, s: State, id: nat)
    requires RequestsSound(cfg, s)
    ensures RequestsSound(cfg, Engine.Retry(s, id).state) && AllAdvance(s, Engine.Retry(s, id).state)
  {
    hide RequestSound;
    if id in s.requests && Engine.Retry(s, id).value.Ok? {
      RetriedSound(cfg, s.requests[id]);
      OneAdvances(cfg, s, Engine.Retry(s, id).state, id);
    }
  }

  lemma RollbackEvolves(cfg: Config, s: State, id: nat)
    requires RequestsSound(cfg, s)
    ensures RequestsSound(cfg, Engine.Rollback(s, id).state) && AllAdvance(s, Engine.Rollback(s, id).state)
  {
    hide RequestSound, AllRetired, UncommittedTokens, ActiveCount;
    if id in s.requests {
      RolledBackSound(cfg, s.requests[id]);
      OneAdvances(cfg, s, Engine.Rollback(s, id).state, id);
    }
  }

  /** Preparing changes at most the phase; a plan comes only for a compatible, unfinished request. */
  lemma PrepareEvolves(cfg: Config, s: State, id: nat, now: nat)
    requires cfg.Valid() && RequestsSound(cfg, s) && id in s.requests
    ensures var reply := Engine.Prepare(cfg, s, id, now);
            && RequestsSound(cfg, reply.state) && AllAdvance(s, reply.state)
            && id in reply.state.requests
            && reply.state.requests == s.requests[id := reply.state.requests[id]]
            && reply.state.requests[id] == s.requests[id].(phase := reply.state.requests[id].phase)
            && (reply.value.Ok? && reply.value.value.Planned? ==>
                  && !s.requests[id].cancelled && !s.requests[id].terminal
                  && cfg.compatible(s.requests[id].req.draft, s.requests[id].req.target)
                  && cfg.executors && !Late(s.requests[id], now)
                  && !Backpressure(cfg.policy, |s.requests[id].proposals|, AcceptanceRatio(s.stats))
                  && reply.value.value.depth == PlannedDepth(cfg.policy, s.history)
                  && reply.value.value.branches == cfg.BranchCount())
  {
    hide RequestSound, Dispatched, Backpressure, AcceptanceRatio, PlannedDepth, Lifecycle.IsTerminal, Late;
    var rs := s.requests[id];
    if !rs.terminal && !rs.cancelled {
      DispatchedSound(cfg, rs);
      OneAdvances(cfg, s, Engine.Prepare(cfg, s, id, now).state, id);
    }
  }

  /** What executors that keep their contract hand to the commit block. */
  lemma CommitEvolves(cfg: Config, s: State, id: nat, depth: nat, candidates: seq<seq<Token>>, accepted: seq<nat>)
    requires RequestsSound(cfg, s) && id in s.requests && Answered(candidates, accepted)
    requires |candidates| == cfg.BranchCount() && 1 <= depth <= cfg.policy.maxDepth
    requires forall i :: 0 <= i < |candidates| ==> |candidates[i]| == depth
    requires cfg.compatible(s.requests[id].req.draft, s.requests[id].req.target)
    ensures var after := Engine.Commit(s, id, depth, candidates, accepted).state;
            RequestsSound(cfg, after) && AllAdvance(s, after)
  {
    hide RequestSound, Counted, Pushed, Outcome, KindOf, RatioOf, Selection.Winner, RetireOthers;
    var rs := s.requests[id];
    if !rs.terminal && !rs.cancelled {
      var w := Selection.Winner(Ballots(accepted));
      CommittedSound(cfg, rs, w, candidates[w], accepted[w]);
      OneAdvances(cfg, s, Engine.Commit(s, id, depth, candidates, accepted).state, id);
    }
  }

  // ---------------------------------------------------------------------------
  // Flights
  // ---------------------------------------------------------------------------

  lemma FlightsCarry(cfg: Config, y: System, after: State)
    requires FlightsSound(cfg, y) && AllAdvance(y.state, after)
    ensures FlightsSound(cfg, y.(state := after))
  {
    forall f | f in y.flights
      ensures FlightSound(cfg, after, y.flights[f])
    {
      var flight := y.flights[f];
      assert FlightSound(cfg, y.state, flight);
      assert Advances(y.state.requests[flight.request], after.requests[flight.request]);
    }
  }

  lemma LaunchedSound(cfg: Config, y: System, f: nat, id: nat, now: nat)
    requires cfg.Valid() && RequestsSound(cfg, y.state) && FlightsSound(cfg, y) && id in y.state.requests
    ensures var after := Launched(y, Engine.Prepare(cfg, y.state, id, now), f, id, now);
            && FlightsSound(cfg, after) && after.state == Engine.Prepare(cfg, y.state, id, now).state
            && after.ids == y.ids && after.handRollbacks == y.handRollbacks
  {
    hide RequestSound, Engine.Prepare, PlannedDepth;
    PrepareEvolves(cfg, y.state, id, now);
    PlansAreFixed(cfg, y.state.history);
    FlightsCarry(cfg, y, Engine.Prepare(cfg, y.state, id, now).state);
    EpochIsFixed(cfg, y.state.requests[id]);
  }

  lemma PlansAreFixed(cfg: Config, history: seq<real>)
    requires cfg.Valid()
    ensures !cfg.policy.adaptiveDepthEnabled ==> FixedDepth(cfg, PlannedDepth(cfg.policy, history))
  {
  }

  lemma EpochIsFixed(cfg: Config, rs: RequestState)
    requires RequestSound(cfg, rs)
    ensures rs.epoch == cfg.epoch
  {
  }

  lemma FlightReplaced(cfg: Config, y: System, f: nat, flight: Flight)
    requires FlightsSound(cfg, y) && FlightSound(cfg, y.state, flight)
    ensures FlightsSound(cfg, y.(flights := y.flights[f := flight]))
  {
  }

  lemma FlightRemoved(cfg: Config, y: System, f: nat)
    requires FlightsSound(cfg, y)
    ensures FlightsSound(cfg, y.(flights := y.flights - {f}))
  {
  }

  lemma GateTouchesStatsOnly(gate: Gate, s: State, flight: Flight)
    requires flight.request in s.requests
    ensures Gated(gate, s, flight).state.requests == s.requests
    ensures Gated(gate, s, flight).state.history == s.history
  {
  }

  lemma LandedEvolves(cfg: Config, gate: Gate, s: State, flight: Flight)
    requires cfg.Valid() && RequestsSound(cfg, s) && FlightSound(cfg, s, flight)
    requires |flight.accepted| == |flight.candidates| == cfg.BranchCount()
    ensures Answered(flight.candidates, flight.accepted)
    ensures RequestsSound(cfg, Landed(gate, s, flight)) && AllAdvance(s, Landed(gate, s, flight))
  {
    hide RequestSound, Engine.Commit, Gated;
    GateTouchesStatsOnly(gate, s, flight);
    var gated := Gated(gate, s, flight);
    if gated.value.Ok? {
      CommitEvolves(cfg, gated.state, flight.request, flight.depth, flight.candidates, flight.accepted);
    }
  }

  /** Every action keeps every request and every flight sound, and only moves requests forward. */
  lemma NextEvolves(cfg: Config, gate: Gate, y: System, a: Action)
    requires cfg.Valid() && RequestsSound(cfg, y.state) && FlightsSound(cfg, y)
    ensures var next := Next(cfg, gate, y, a);
            RequestsSound(cfg, next.state) && FlightsSound(cfg, next) && AllAdvance(y.state, next.state)
  {
    hide RequestSound, Engine.Submit, Engine.Cancel, Engine.Complete, Engine.Retry, Engine.Rollback,
        Engine.Prepare, Launched, Landed;
    if Allowed(cfg, y, a) {
      match a {
        case Submit(req) =>
          SubmitEvolves(cfg, y.state, req);
          FlightsCarry(cfg, y, Engine.Submit(cfg, y.state, req).state);
        case Cancel(id) =>
          CancelEvolves(cfg, y.state, id);
          FlightsCarry(cfg, y, Engine.Cancel(y.state, id).state);
        case Complete(id) =>
          CompleteEvolves(cfg, y.state, id);
          FlightsCarry(cfg, y, Engine.Complete(y.state, id).state);
        case Retry(id) =>
          RetryEvolves(cfg, y.state, id);
          FlightsCarry(cfg, y, Engine.Retry(y.state, id).state);
        case Rollback(id) =>
          RollbackEvolves(cfg, y.state, id);
          FlightsCarry(cfg, y, Engine.Rollback(y.state, id).state);
        case Prepare(f, id, now) =>
          if id in y.state.requests {
            PrepareEvolves(cfg, y.state, id, now);
            LaunchedSound(cfg, y, f, id, now);
          }
        case Propose(f, candidate) =>
          FlightReplaced(cfg, y, f, WithProposal(cfg, y.state, y.flights[f], candidate));
        case Verify(f, accepted) =>
          FlightReplaced(cfg, y, f, WithVerification(y.state, y.flights[f], accepted));
        case Abandon(f) =>
          FlightRemoved(cfg, y, f);
        case Commit(f) =>
          LandedEvolves(cfg, gate, y.state, y.flights[f]);
          FlightRemoved(cfg, y, f);
          FlightsCarry(cfg, y.(flights := y.flights - {f}), Landed(gate, y.state, y.flights[f]));
      }
    }
  }

  // ---------------------------------------------------------------------------
  // The counters
  // ---------------------------------------------------------------------------

  /** One request's share of the engine's counters. */
  datatype Tally = Tally(
    cycles: int, whole: int, part: int, none: int, accepted: int, offered: int, retries: int, cancelled: int)
  {
    function Plus(t: Tally): Tally {
      Tally(cycles + t.cycles, whole + t.whole, part + t.part, none + t.none, accepted + t.accepted, offered + t.offered,
            retries + t.retries, cancelled + t.cancelled)
    }

    function Minus(t: Tally): Tally {
      Tally(cycles - t.cycles, whole - t.whole, part - t.part, none - t.none, accepted - t.accepted, offered - t.offered,
            retries - t.retries, cancelled - t.cancelled)
    }
  }

  /** The tokens of all recorded candidates. */
  function Offered(proposals: seq<Proposal>): nat {
    if |proposals| == 0 then 0 else Offered(proposals[..|proposals| - 1]) + |proposals[|proposals| - 1].candidate|
  }

  function Share(rs: RequestState): Tally {
    var settled := Settle(rs.proposals, rs.authGen);
    Tally(rs.completedCycles, settled.whole, settled.part, settled.none, |rs.committed| - |rs.req.prefix|,
          Offered(rs.proposals), rs.retryCount, if rs.cancelled then 1 else 0)
  }

  /** The ids are the admitted requests, each once. */
  ghost predicate IdsSound(ids: seq<nat>, requests: map<nat, RequestState>) {
    && (forall i, j :: 0 <= i < j < |ids| ==> ids[i] != ids[j])
    && (forall id :: id in ids <==> id in requests)
  }

  const NOTHING := Tally(0, 0, 0, 0, 0, 0, 0, 0)

  /** The sum over the first n admitted requests. */
  function Total(ids: seq<nat>, requests: map<nat, RequestState>, n: nat): Tally
    requires n <= |ids| && forall i :: 0 <= i < |ids| ==> ids[i] in requests
  {
    if n == 0 then NOTHING else Total(ids, requests, n - 1).Plus(Share(requests[ids[n - 1]]))
  }

  lemma {:induction false} TotalMoves(ids: seq<nat>, requests: map<nat, RequestState>, k: nat, after: RequestState,
      n: nat)
    requires n <= |ids| && k < |ids| && IdsSound(ids, requests)
    ensures ids[k] in requests
    ensures Total(ids, requests[ids[k] := after], n)
            == if k < n then Total(ids, requests, n).Minus(Share(requests[ids[k]])).Plus(Share(after))
               else Total(ids, requests, n)
  {
    hide Share;
    if n > 0 {
      TotalMoves(ids, requests, k, after, n - 1);
    }
  }

  lemma {:induction false} TotalIgnores(ids: seq<nat>, requests: map<nat, RequestState>, id: nat, rs: RequestState,
      n: nat)
    requires n <= |ids| && IdsSound(ids, requests) && id !in requests
    ensures Total(ids + [id], requests[id := rs], n) == Total(ids, requests, n)
  {
    if n > 0 {
      TotalIgnores(ids, requests, id, rs, n - 1);
      assert ids[n - 1] in requests;
    }
  }

  /** The counters of the engine against the sums over all its requests. */
  predicate Books(stats: Stats, total: Tally, admitted: nat, handRollbacks: nat) {
    && stats.tokensProposed == stats.tokensAccepted + stats.tokensRejected
    && stats.tokensAccepted == total.accepted && stats.tokensProposed == total.offered
    && stats.fullAccepts + stats.partialAccepts + stats.fullRejects == stats.cyclesStarted == total.cycles
    && stats.fullAccepts == total.whole && stats.partialAccepts == total.part && stats.fullRejects == total.none
    && stats.proposalsProduced == stats.verificationsRun == stats.cyclesStarted
    && stats.rollbacks == stats.partialAccepts + stats.fullRejects + handRollbacks
    && stats.retries == total.retries && stats.cancels == total.cancelled && stats.eligible == admitted
  }

  ghost predicate BooksBalance(y: System) {
    && IdsSound(y.ids, y.state.requests)
    && Books(y.state.stats, Total(y.ids, y.state.requests, |y.ids|), |y.ids|, y.handRollbacks)
  }

  /** A step on one request moves the books by the difference of its shares. */
  lemma OneMoves(y: System, requests: map<nat, RequestState>, id: nat)
    requires IdsSound(y.ids, y.state.requests) && id in y.state.requests && id in requests
    requires requests == y.state.requests[id := requests[id]]
    ensures IdsSound(y.ids, requests)
    ensures Total(y.ids, requests, |y.ids|)
            == Total(y.ids, y.state.requests, |y.ids|).Minus(Share(y.state.requests[id])).Plus(Share(requests[id]))
  {
    hide Total, Share;
    var k :| 0 <= k < |y.ids| && y.ids[k] == id;
    TotalMoves(y.ids, y.state.requests, k, requests[id], |y.ids|);
  }

  lemma SubmitBalances(cfg: Config, y: System, req: Request)
    requires BooksBalance(y) && RequestsSound(cfg, y.state) && req.id != 0
    ensures var reply := Engine.Submit(cfg, y.state, req);
            BooksBalance(y.(state := reply.state, ids := if reply.value.Ok? then y.ids + [req.id] else y.ids))
  {
    hide RequestSound, Admitted, Total, Share;
    SubmitEvolves(cfg, y.state, req);
    SubmitStats(cfg, y.state, req);
    if req.id !in y.state.requests {
      var rs := Admitted(cfg, BLANK, req);
      IdsGrow(y.ids, y.state.requests, req.id, rs);
      TotalGrows(y.ids, y.state.requests, req.id, rs);
      NothingYet(cfg, req);
    }
  }

  lemma SubmitStats(cfg: Config, s: State, req: Request)
    ensures var reply := Engine.Submit(cfg, s, req);
            reply.state.stats == s.stats.(eligible := s.stats.eligible + if reply.value.Ok? then 1 else 0)
  {
    hide Admitted;
  }

  lemma TotalGrows(ids: seq<nat>, requests: map<nat, RequestState>, id: nat, rs: RequestState)
    requires IdsSound(ids, requests) && id !in requests && IdsSound(ids + [id], requests[id := rs])
    ensures Total(ids + [id], requests[id := rs], |ids + [id]|) == Total(ids, requests, |ids|).Plus(Share(rs))
  {
    hide Share;
    TotalIgnores(ids, requests, id, rs, |ids|);
  }

  lemma IdsGrow(ids: seq<nat>, requests: map<nat, RequestState>, id: nat, rs: RequestState)
    requires IdsSound(ids, requests) && id !in requests
    ensures IdsSound(ids + [id], requests[id := rs])
  {
  }

  lemma NothingYet(cfg: Config, req: Request)
    ensures Share(Admitted(cfg, BLANK, req)) == NOTHING
  {
  }

  lemma CancelBalances(y: System, id: nat)
    requires BooksBalance(y)
    ensures BooksBalance(y.(state := Engine.Cancel(y.state, id).state))
  {
    hide Total, Moved, AllRetired;
    if id in y.state.requests {
      OneMoves(y, Engine.Cancel(y.state, id).state.requests, id);
    }
  }

  lemma CompleteBalances(y: System, id: nat)
    requires BooksBalance(y)
    ensures BooksBalance(y.(state := Engine.Complete(y.state, id).state))
  {
    hide Total, Moved;
    if id in y.state.requests {
      OneMoves(y, Engine.Complete(y.state, id).state.requests, id);
    }
  }

  lemma RetryBalances(y: System, id: nat)
    requires BooksBalance(y)
    ensures BooksBalance(y.(state := Engine.Retry(y.state, id).state))
  {
    hide Total;
    if id in y.state.requests {
      OneMoves(y, Engine.Retry(y.state, id).state.requests, id);
    }
  }

  lemma RollbackBalances(y: System, id: nat)
    requires BooksBalance(y)
    ensures var reply := Engine.Rollback(y.state, id);
            BooksBalance(y.(state := reply.state, handRollbacks := y.handRollbacks + if reply.value.Ok? then 1 else 0))
  {
    hide Total, AllRetired, UncommittedTokens, ActiveCount;
    if id in y.state.requests {
      OneMoves(y, Engine.Rollback(y.state, id).state.requests, id);
    }
  }

  lemma PrepareBalances(cfg: Config, y: System, f: nat, id: nat, now: nat)
    requires cfg.Valid() && BooksBalance(y) && RequestsSound(cfg, y.state) && FlightsSound(cfg, y)
        && id in y.state.requests
    ensures BooksBalance(Launched(y, Engine.Prepare(cfg, y.state, id, now), f, id, now))
  {
    hide Total, RequestSound, Engine.Prepare, Launched;
    PrepareEvolves(cfg, y.state, id, now);
    LaunchedSound(cfg, y, f, id, now);
    PrepareStats(cfg, y.state, id, now);
    OneMoves(y, Engine.Prepare(cfg, y.state, id, now).state.requests, id);
  }

  lemma PrepareStats(cfg: Config, s: State, id: nat, now: nat)
    requires cfg.Valid()
    ensures var stats := Engine.Prepare(cfg, s, id, now).state.stats;
            stats == s.stats.(bypasses := stats.bypasses)
    ensures Engine.Prepare(cfg, s, id, now).state.history == s.history
  {
    hide Dispatched, Backpressure, AcceptanceRatio, PlannedDepth, Lifecycle.IsTerminal, Late;
  }

  lemma LandedBalances(cfg: Config, gate: Gate, y: System, flight: Flight)
    requires cfg.Valid() && BooksBalance(y) && RequestsSound(cfg, y.state) && FlightSound(cfg, y.state, flight)
    requires |flight.accepted| == |flight.candidates| == cfg.BranchCount()
    ensures Answered(flight.candidates, flight.accepted)
    ensures BooksBalance(y.(state := Landed(gate, y.state, flight)))
  {
    hide Total, RequestSound, Engine.Commit, Gated;
    GateBooks(gate, y.state, flight);
    var gated := Gated(gate, y.state, flight);
    if gated.value.Ok? {
      CommitBalances(cfg, y.(state := gated.state), flight);
    }
  }

  lemma GateBooks(gate: Gate, s: State, flight: Flight)
    requires flight.request in s.requests
    ensures var g := Gated(gate, s, flight).state;
            && g.requests == s.requests
            && forall t, n, h :: Books(s.stats, t, n, h) ==> Books(g.stats, t, n, h)
  {
  }

  /**
   * One more proposal settles as the verdict says, whatever base it was recorded with, as long as that is the present
   * one.
   */
  lemma SettleOneMore(rs: RequestState, n: nat, w: nat, candidate: seq<Token>, k: nat)
    requires k <= |candidate| && rs.authStateGen == rs.authGen
    ensures var before, after := Share(rs), Share(Committed(rs, n, w, candidate, k));
            && after.whole == before.whole + (if KindOf(k, |candidate|) == FullAccepted then 1 else 0)
            && after.part == before.part + (if KindOf(k, |candidate|) == PartiallyAccepted then 1 else 0)
            && after.none == before.none + (if KindOf(k, |candidate|) == AllRejected then 1 else 0)
            && after.offered == before.offered + |candidate| && after.accepted == before.accepted + k
            && after.cycles == before.cycles + 1 && after.retries == before.retries && after.cancelled == before.cancelled
  {
    hide RetireOthers;
    var after := Committed(rs, n, w, candidate, k);
    assert after.proposals[..|rs.proposals|] == rs.proposals;
  }

  lemma CommitBalances(cfg: Config, y: System, flight: Flight)
    requires BooksBalance(y) && flight.request in y.state.requests && Answered(flight.candidates, flight.accepted)
    requires RequestsSound(cfg, y.state)
    ensures var after := Engine.Commit(y.state, flight.request, flight.depth, flight.candidates, flight.accepted).state;
            BooksBalance(y.(state := after))
  {
    hide Total, Share, Selection.Winner, Committed, Outcome, Pushed, RatioOf, PhaseSound, BranchesSound, CountersSound,
         Chain, Replay;
    var after := Engine.Commit(y.state, flight.request, flight.depth, flight.candidates, flight.accepted).state;
    OneMoves(y, after.requests, flight.request);
    var rs := y.state.requests[flight.request];
    assert RequestSound(cfg, rs);
    if !rs.cancelled && !rs.terminal {
      var w := Selection.Winner(Ballots(flight.accepted));
      SettleOneMore(rs, |flight.candidates|, w, flight.candidates[w], flight.accepted[w]);
    }
  }

  lemma NextBalances(cfg: Config, gate: Gate, y: System, a: Action)
    requires cfg.Valid() && RequestsSound(cfg, y.state) && FlightsSound(cfg, y) && BooksBalance(y)
    ensures BooksBalance(Next(cfg, gate, y, a))
  {
    hide RequestSound, Total, Books, Engine.Submit, Engine.Cancel, Engine.Complete, Engine.Retry, Engine.Rollback,
        Engine.Prepare, Launched, Landed;
    if Allowed(cfg, y, a) {
      match a {
        case Submit(req) => SubmitBalances(cfg, y, req);
        case Cancel(id) => CancelBalances(y, id);
        case Complete(id) => CompleteBalances(y, id);
        case Retry(id) => RetryBalances(y, id);
        case Rollback(id) => RollbackBalances(y, id);
        case Prepare(f, id, now) =>
          if id in y.state.requests {
            PrepareBalances(cfg, y, f, id, now);
          }
        case Propose(_, _) =>
        case Verify(_, _) =>
        case Abandon(_) =>
        case Commit(f) => LandedBalances(cfg, gate, y, y.flights[f]);
      }
    }
  }

  // ---------------------------------------------------------------------------
  // Every run
  // ---------------------------------------------------------------------------

  ghost predicate Sound(cfg: Config, y: System) {
    RequestsSound(cfg, y.state) && FlightsSound(cfg, y) && BooksBalance(y)
  }

  /** Any list of actions, in any order, from any sound system. */
  function Run(cfg: Config, gate: Gate, y: System, actions: seq<Action>): (after: System)
    requires cfg.Valid() && Sound(cfg, y)
    ensures Sound(cfg, after)
    decreases |actions|
  {
    if |actions| == 0 then y
    else
      NextEvolves(cfg, gate, y, actions[0]);
      NextBalances(cfg, gate, y, actions[0]);
      Run(cfg, gate, Next(cfg, gate, y, actions[0]), actions[1..])
  }

  lemma InitialIsSound(cfg: Config)
    ensures Sound(cfg, INITIAL)
  {
  }
}
