/**
 * The authority gate: the engine declares a check of attempt and base generation but its commit block asks only
 * whether the request is finished. Here is exactly when the two differ, and that they do.
 */
module AuthorityGate {
  import opened Words
  import opened Executors
  import opened Policy
  import opened Engine
  import opened Ledger
  import opened EngineRuns
  import Selection
  import Lifecycle

  /** All answers of a flight are in. */
  predicate AllIn(cfg: Config, flight: Flight) {
    |flight.accepted| == |flight.candidates| == cfg.BranchCount()
  }

  /** The request still stands where it stood when the flight was prepared. */
  predicate Current(s: State, flight: Flight)
    requires flight.request in s.requests
  {
    var rs := s.requests[flight.request];
    flight.attempt == rs.attempt && flight.baseGen == rs.authGen
  }

  predicate Live(s: State, flight: Flight)
    requires flight.request in s.requests
  {
    !s.requests[flight.request].cancelled && !s.requests[flight.request].terminal
  }

  /** The winner of a flight's answers, and how much of it was accepted. */
  function WinnerOf(flight: Flight): (w: nat)
    requires |flight.accepted| > 0
    ensures w < |flight.accepted|
  {
    Selection.Winner(Ballots(flight.accepted))
  }

  lemma FlightAnswered(cfg: Config, s: State, flight: Flight)
    requires cfg.Valid() && FlightSound(cfg, s, flight) && AllIn(cfg, flight)
    ensures Answered(flight.candidates, flight.accepted)
  {
  }

  /** The gate passes exactly the live and current flights. */
  lemma GatePasses(cfg: Config, s: State, flight: Flight)
    requires cfg.Valid() && RequestsSound(cfg, s) && FlightSound(cfg, s, flight)
    ensures Gated(Guarded, s, flight).value.Ok? <==> Live(s, flight) && Current(s, flight)
    ensures Gated(Guarded, s, flight).value.Ok? ==> Gated(Guarded, s, flight).state == s
  {
    hide BranchesSound, TokensSound, PhaseSound;
  }

  /** What the engine's own commit block does to a live request, current or not. */
  lemma LiteralCommit(cfg: Config, s: State, flight: Flight)
    requires cfg.Valid() && FlightSound(cfg, s, flight) && AllIn(cfg, flight) && Live(s, flight)
    ensures Answered(flight.candidates, flight.accepted)
    ensures flight.request in Landed(Literal, s, flight).requests
    ensures var w := WinnerOf(flight);
            var rs, after := s.requests[flight.request], Landed(Literal, s, flight).requests[flight.request];
            && after.committed == rs.committed + flight.candidates[w][..flight.accepted[w]]
            && after.authGen == rs.authGen + flight.accepted[w] && after.attempt == rs.attempt && after.req == rs.req
            && after.cancelled == rs.cancelled && after.terminal == rs.terminal
            && |after.proposals| == |rs.proposals| + 1 && rs.proposals <= after.proposals
            && after.proposals[|rs.proposals|].candidate == flight.candidates[w]
            && after.proposals[|rs.proposals|].branch == w + 1
            && (after.proposals[|rs.proposals|].committed <==> flight.accepted[w] > 0)
  {
    hide Selection.Winner, RetireOthers, Outcome, Counted, Pushed, RatioOf, KindOf;
    FlightAnswered(cfg, s, flight);
  }

  /** A guarded commit of a live and current flight is the engine's own; any other one changes no request. */
  lemma GuardedCommit(cfg: Config, s: State, flight: Flight)
    requires cfg.Valid() && RequestsSound(cfg, s) && FlightSound(cfg, s, flight) && AllIn(cfg, flight)
    ensures Answered(flight.candidates, flight.accepted)
    ensures Live(s, flight) && Current(s, flight) ==> Landed(Guarded, s, flight) == Landed(Literal, s, flight)
    ensures !(Live(s, flight) && Current(s, flight)) ==> Landed(Guarded, s, flight).requests == s.requests
  {
    hide RequestsSound, Engine.Commit, Gated, Live, Current;
    FlightAnswered(cfg, s, flight);
    GatePasses(cfg, s, flight);
    GateTouchesStatsOnly(Guarded, s, flight);
    assert Gated(Literal, s, flight) == Reply(s, Ok(())) by { LiteralGate(s, flight); }
  }

  lemma LiteralGate(s: State, flight: Flight)
    requires flight.request in s.requests
    ensures Gated(Literal, s, flight) == Reply(s, Ok(()))
  {
  }

  /** A finished request is left alone with or without the gate. */
  lemma FinishedIsLeftAlone(cfg: Config, s: State, flight: Flight)
    requires cfg.Valid() && FlightSound(cfg, s, flight) && AllIn(cfg, flight) && !Live(s, flight)
    ensures Answered(flight.candidates, flight.accepted)
    ensures Landed(Literal, s, flight).requests == s.requests
  {
    FlightAnswered(cfg, s, flight);
  }

  /**
   * Where the missing check matters: the commit block and the guarded one leave the same requests exactly when the
   * request is finished or still stands where the cycle was prepared.
   */
  lemma GateMattersExactly(cfg: Config, s: State, flight: Flight)
    requires cfg.Valid() && RequestsSound(cfg, s) && FlightSound(cfg, s, flight) && AllIn(cfg, flight)
    ensures Answered(flight.candidates, flight.accepted)
    ensures Landed(Literal, s, flight).requests == Landed(Guarded, s, flight).requests
            <==> !Live(s, flight) || Current(s, flight)
  {
    hide RequestsSound, Landed, Live, Current;
    GuardedCommit(cfg, s, flight);
    if Live(s, flight) {
      LiteralCommit(cfg, s, flight);
    } else {
      FinishedIsLeftAlone(cfg, s, flight);
    }
  }

  // ---------------------------------------------------------------------------
  // A run on which it matters
  // ---------------------------------------------------------------------------

  /** A configuration that speculates on one branch and gates on nothing, and a request it accepts. */
  predicate Speculates(cfg: Config, req: Request) {
    && cfg.Valid() && cfg.BranchCount() == 1 && cfg.executors && cfg.compatible(req.draft, req.target)
    && cfg.policy.speculatingEnabled && cfg.policy.minAcceptanceRatio <= 0.0
    && req.id != 0 && req.deadline == None
  }

  /** The retry gives the request its second attempt while a cycle of the first is in flight. */
  function StaleAttempt(req: Request, f: nat, candidate: seq<Token>): seq<Action> {
    [Submit(req)] + ([Prepare(f, req.id, 0)] + ([Propose(f, candidate)]
    + ([Verify(f, |candidate|)] + ([Retry(req.id)] + ([Commit(f)] + [])))))
  }

  lemma RunStep(cfg: Config, gate: Gate, y: System, a: Action, rest: seq<Action>)
    requires cfg.Valid() && Sound(cfg, y)
    ensures Sound(cfg, Next(cfg, gate, y, a))
    ensures Run(cfg, gate, y, [a] + rest) == Run(cfg, gate, Next(cfg, gate, y, a), rest)
  {
    hide RequestsSound, FlightsSound, BooksBalance, Next;
    NextEvolves(cfg, gate, y, a);
    NextBalances(cfg, gate, y, a);
    assert ([a] + rest)[1..] == rest;
  }

  lemma RunNothing(cfg: Config, gate: Gate, y: System)
    requires cfg.Valid() && Sound(cfg, y)
    ensures Run(cfg, gate, y, []) == y
  {
    hide RequestsSound, FlightsSound, BooksBalance;
  }

  /** A request's authority after some actions, as far as the witness run needs it. */
  predicate Stands(s: State, req: Request, attempt: nat) {
    && req.id in s.requests
    && var rs := s.requests[req.id];
       && rs.req == req && rs.attempt == attempt && rs.authGen == 0 && rs.committed == req.prefix && rs.proposals == []
       && rs.retryCount + 1 == attempt && !rs.cancelled && !rs.terminal
  }

  lemma SubmitStands(cfg: Config, gate: Gate, y: System, req: Request)
    requires Speculates(cfg, req) && Sound(cfg, y) && req.id !in y.state.requests
    ensures var next := Next(cfg, gate, y, Submit(req));
            Stands(next.state, req, 1) && next.flights == y.flights && next.state.history == y.state.history
  {
    hide RequestSound, BooksBalance;
    SubmitEvolves(cfg, y.state, req);
    AdmittedStands(cfg, req);
  }

  lemma AdmittedStands(cfg: Config, req: Request)
    ensures var rs := Admitted(cfg, BLANK, req);
            && rs.req == req && rs.attempt == 1 && rs.authGen == 0 && rs.committed == req.prefix && rs.proposals == []
            && rs.retryCount == 0 && !rs.cancelled && !rs.terminal
  {
  }

  lemma PrepareStands(cfg: Config, gate: Gate, y: System, req: Request, f: nat)
    requires Speculates(cfg, req) && Sound(cfg, y) && Stands(y.state, req, 1) && f !in y.flights
    ensures var next := Next(cfg, gate, y, Prepare(f, req.id, 0));
            && Stands(next.state, req, 1) && f in next.flights
            && next.flights[f].request == req.id && next.flights[f].attempt == 1 && next.flights[f].baseGen == 0
            && next.flights[f].depth == PlannedDepth(cfg.policy, y.state.history)
            && next.flights[f].candidates == [] && next.flights[f].accepted == []
  {
    hide RequestSound, BooksBalance, FlightsSound, PlannedDepth, Dispatched, Lifecycle.IsTerminal, AcceptanceRatio;
    PrepareEvolves(cfg, y.state, req.id, 0);
  }

  lemma AnswersStand(cfg: Config, gate: Gate, y: System, req: Request, f: nat, candidate: seq<Token>)
    requires Speculates(cfg, req) && Sound(cfg, y) && Stands(y.state, req, 1) && f in y.flights
    requires y.flights[f].request == req.id && y.flights[f].candidates == [] && y.flights[f].accepted == []
    requires |candidate| == y.flights[f].depth
    ensures var proposed := Next(cfg, gate, y, Propose(f, candidate));
            && FlightsSound(cfg, proposed)
            && var next := Next(cfg, gate, proposed, Verify(f, |candidate|));
            && next.state == y.state && f in next.flights
            && next.flights[f].request == req.id && next.flights[f].attempt == y.flights[f].attempt
            && next.flights[f].baseGen == y.flights[f].baseGen
            && next.flights[f].candidates == [candidate] && next.flights[f].accepted == [|candidate|]
  {
    hide RequestsSound, BooksBalance;
    NextEvolves(cfg, gate, y, Propose(f, candidate));
  }

  lemma RetryStands(cfg: Config, gate: Gate, y: System, req: Request)
    requires Speculates(cfg, req) && Sound(cfg, y) && Stands(y.state, req, 1)
    ensures var next := Next(cfg, gate, y, Retry(req.id));
            Stands(next.state, req, 2) && next.flights == y.flights
  {
    hide RequestsSound, BooksBalance, FlightsSound;
  }

  /** The first five actions leave a complete flight of the first attempt beside a request on its second. */
  lemma FlightOfAnOlderAttempt(cfg: Config, gate: Gate, y: System, req: Request, f: nat, candidate: seq<Token>)
    returns (z: System)
    requires Speculates(cfg, req) && Sound(cfg, y) && req.id !in y.state.requests && f !in y.flights
    requires |candidate| == PlannedDepth(cfg.policy, y.state.history)
    ensures Sound(cfg, z) && Stands(z.state, req, 2) && f in z.flights
    ensures z.flights[f].request == req.id && z.flights[f].attempt == 1
    ensures z.flights[f].candidates == [candidate] && z.flights[f].accepted == [|candidate|]
    ensures Run(cfg, gate, y, StaleAttempt(req, f, candidate)) == Run(cfg, gate, z, [Commit(f)] + [])
  {
    hide RequestsSound, BooksBalance, FlightsSound, Next, Run, PlannedDepth, Stands, Speculates;
    assert cfg.Valid() by { SpeculatesIsValid(cfg, req); }
    var a1, a2, a3, a4, a5 := Submit(req), Prepare(f, req.id, 0), Propose(f, candidate), Verify(f, |candidate|),
        Retry(req.id);
    var r5 := [Commit(f)] + [];
    var r4 := [a5] + r5;
    var r3 := [a4] + r4;
    var r2 := [a3] + r3;
    RunStep(cfg, gate, y, a1, [a2] + r2);
    SubmitStands(cfg, gate, y, req);
    var y1 := Next(cfg, gate, y, a1);
    RunStep(cfg, gate, y1, a2, r2);
    PrepareStands(cfg, gate, y1, req, f);
    var y2 := Next(cfg, gate, y1, a2);
    RunStep(cfg, gate, y2, a3, r3);
    AnswersStand(cfg, gate, y2, req, f, candidate);
    var y3 := Next(cfg, gate, y2, a3);
    RunStep(cfg, gate, y3, a4, r4);
    var y4 := Next(cfg, gate, y3, a4);
    RunStep(cfg, gate, y4, a5, r5);
    RetryStands(cfg, gate, y4, req);
    z := Next(cfg, gate, y4, a5);
  }

  lemma SpeculatesIsValid(cfg: Config, req: Request)
    requires Speculates(cfg, req)
    ensures cfg.Valid() && cfg.BranchCount() == 1
  {
  }

  lemma OnlyBallot(n: nat)
    ensures Selection.Winner(Ballots([n])) == 0
  {
  }

  /**
   * The missing check has a witness for every such configuration and request: a cycle prepared for the first attempt
   * commits all its tokens although the request is on its second; behind the gate the same run commits none.
   */
  lemma OlderAttemptCommits(cfg: Config, y: System, req: Request, f: nat, candidate: seq<Token>)
    requires Speculates(cfg, req) && Sound(cfg, y) && req.id !in y.state.requests && f !in y.flights
    requires |candidate| == PlannedDepth(cfg.policy, y.state.history)
    ensures cfg.Valid()
    ensures var literal := Run(cfg, Literal, y, StaleAttempt(req, f, candidate)).state;
            && req.id in literal.requests && literal.requests[req.id].attempt == 2
            && literal.requests[req.id].committed == req.prefix + candidate
    ensures var guarded := Run(cfg, Guarded, y, StaleAttempt(req, f, candidate)).state;
            && req.id in guarded.requests && guarded.requests[req.id].attempt == 2
            && guarded.requests[req.id].committed == req.prefix
  {
    hide Sound, RequestsSound, BooksBalance, FlightsSound, FlightSound, Run, PlannedDepth, Speculates,
        StaleAttempt, Landed;
    SpeculatesIsValid(cfg, req);
    OnlyBallot(|candidate|);
    var z := FlightOfAnOlderAttempt(cfg, Literal, y, req, f, candidate);
    LastStep(cfg, Literal, z, f);
    LiteralCommit(cfg, z.state, z.flights[f]);
    var g := FlightOfAnOlderAttempt(cfg, Guarded, y, req, f, candidate);
    LastStep(cfg, Guarded, g, f);
    GuardedCommit(cfg, g.state, g.flights[f]);
  }

  lemma LastStep(cfg: Config, gate: Gate, z: System, f: nat)
    requires cfg.Valid() && Sound(cfg, z) && f in z.flights && AllIn(cfg, z.flights[f])
    ensures RequestsSound(cfg, z.state) && FlightSound(cfg, z.state, z.flights[f])
    ensures Answered(z.flights[f].candidates, z.flights[f].accepted)
    ensures Run(cfg, gate, z, [Commit(f)] + []).state == Landed(gate, z.state, z.flights[f])
    ensures forall id :: id in z.state.requests ==> id in Landed(gate, z.state, z.flights[f]).requests
  {
    hide RequestsSound, BooksBalance, Landed, Run;
    RunStep(cfg, gate, z, Commit(f), []);
    RunNothing(cfg, gate, Next(cfg, gate, z, Commit(f)));
    NextEvolves(cfg, gate, z, Commit(f));
  }
}
