/**
 * Why whole cycles need a policy that forgets the backlog: with an outstanding limit of one, two cycles of a request
 * can be prepared before either commits, both pass the gate and both are recorded, but serially the second is
 * bypassed.
 */
module Backlog {
  import opened Words
  import opened Executors
  import opened Policy
  import opened Engine
  import opened EngineRuns
  import opened AuthorityGate
  import opened Serializability
  import opened CpuCycles
  import Synthetic
  import Ledger
  import Lifecycle

  // ---------------------------------------------------------------------------
  // Runs in pieces
  // ---------------------------------------------------------------------------

  /** What a guarded run does, what its serial counterpart is, and that its answers are the executors' own. */
  lemma OneAction(cfg: Config, x: Pair, y: System, a: Action, rest: seq<Action>)
    requires cfg.Valid() && Sound(cfg, y)
    ensures var next := Next(cfg, Guarded, y, a);
            && Sound(cfg, next)
            && Run(cfg, Guarded, y, [a] + rest) == Run(cfg, Guarded, next, rest)
            && Serial(cfg, WholeCycles, y, [a] + rest)
               == SerialOf(cfg, WholeCycles, y, a) + Serial(cfg, WholeCycles, next, rest)
            && (AnswersOf(cfg, x, y, a) && Driven(cfg, x, next, rest) ==> Driven(cfg, x, y, [a] + rest))
  {
    hide RequestsSound, FlightsSound, BooksBalance, Next, SerialOf, AnswersOf;
    RunStep(cfg, Guarded, y, a, rest);
    assert ([a] + rest)[1..] == rest;
  }

  // ---------------------------------------------------------------------------
  // The witness
  // ---------------------------------------------------------------------------

  /** One branch, a fixed depth, at most one outstanding proposal, and a request that accepts a draft model. */
  predicate OneAtATime(cfg: Config, req: Request) {
    && Speculates(cfg, req) && cfg.policy.maxOutstanding == 1 && !cfg.policy.adaptiveDepthEnabled
    && req.draft.tokenizer != 0
  }

  /** The executors of the witness: nothing is aligned, so every candidate is rejected at its first token. */
  function Misaligned(a: Synthetic.Arithmetic): Pair {
    Promised(a, 0)
  }

  function Depth(cfg: Config): u32
    requires cfg.Valid()
  {
    PlannedDepth(cfg.policy, [])
  }

  function Draft(cfg: Config, a: Synthetic.Arithmetic, req: Request): seq<Token>
    requires cfg.Valid()
  {
    Misaligned(a).propose(ProposalCapture(cfg, Admitted(cfg, BLANK, req), Depth(cfg), 0))
  }

  /** The request as admitted, whatever its phase. */
  predicate AsAdmitted(cfg: Config, s: State, req: Request) {
    req.id in s.requests && SameRequest(s.requests[req.id], Admitted(cfg, BLANK, req))
  }

  /** A complete flight of the first attempt whose candidate was rejected. */
  predicate RejectedFlight(cfg: Config, a: Synthetic.Arithmetic, y: System, req: Request, f: nat)
    requires cfg.Valid()
  {
    && f in y.flights && y.flights[f].request == req.id && y.flights[f].attempt == 1 && y.flights[f].baseGen == 0
    && y.flights[f].prepared == 0 && y.flights[f].depth == Depth(cfg)
    && y.flights[f].candidates == [Draft(cfg, a, req)] && y.flights[f].accepted == [0]
  }

  /** Three actions put such a flight beside whatever is in flight already. */
  function Launching(cfg: Config, a: Synthetic.Arithmetic, req: Request, f: nat, rest: seq<Action>): seq<Action>
    requires cfg.Valid()
  {
    [Prepare(f, req.id, 0)] + ([Propose(f, Draft(cfg, a, req))] + ([Verify(f, 0)] + rest))
  }

  lemma DraftIsRejected(cfg: Config, a: Synthetic.Arithmetic, req: Request)
    requires OneAtATime(cfg, req)
    ensures |Draft(cfg, a, req)| == Depth(cfg)
    ensures Misaligned(a).verify(VerificationCapture(Admitted(cfg, BLANK, req), 0, Draft(cfg, a, req))) == 0
  {
    hide Candidate, VerifySpec, Admitted;
    var rs := Admitted(cfg, BLANK, req);
    AdmittedStands(cfg, req);
    BranchAnswers(cfg, a, 0, rs, Depth(cfg), 0);
    assert Drafts(cfg, Shipped(a, 0), rs, Depth(cfg))[0] == Draft(cfg, a, req);
  }

  lemma CapturesAsAdmitted(cfg: Config, a: Synthetic.Arithmetic, s: State, req: Request)
    requires OneAtATime(cfg, req) && AsAdmitted(cfg, s, req)
    ensures Misaligned(a).propose(ProposalCapture(cfg, s.requests[req.id], Depth(cfg), 0)) == Draft(cfg, a, req)
    ensures Misaligned(a).verify(VerificationCapture(s.requests[req.id], 0, Draft(cfg, a, req))) == 0
  {
    hide Candidate, VerifySpec, Admitted;
    DraftIsRejected(cfg, a, req);
    var rs, admitted := s.requests[req.id], Admitted(cfg, BLANK, req);
    assert ProposalCapture(cfg, rs, Depth(cfg), 0) == ProposalCapture(cfg, admitted, Depth(cfg), 0);
    assert VerificationCapture(rs, 0, Draft(cfg, a, req)) == VerificationCapture(admitted, 0, Draft(cfg, a, req));
  }

  lemma PrepareStep(cfg: Config, y: System, req: Request, f: nat)
    requires OneAtATime(cfg, req) && Sound(cfg, y) && AsAdmitted(cfg, y.state, req) && f !in y.flights
    ensures var next := Next(cfg, Guarded, y, Prepare(f, req.id, 0));
            && AsAdmitted(cfg, next.state, req) && f in next.flights
            && next.flights == y.flights[f := next.flights[f]]
            && next.flights[f] == Flight(req.id, 0, Depth(cfg), next.flights[f].epoch, 1, 0, [], [], [], [])
            && SerialOf(cfg, WholeCycles, y, Prepare(f, req.id, 0)) == []
  {
    hide Ledger.RequestSound, BooksBalance, FlightsSound, PlannedDepth, Dispatched, Lifecycle.IsTerminal,
         AcceptanceRatio;
    PrepareEvolves(cfg, y.state, req.id, 0);
    PlansAreFixed(cfg, y.state.history);
  }

  lemma AnswerSteps(cfg: Config, a: Synthetic.Arithmetic, y: System, req: Request, f: nat)
    requires OneAtATime(cfg, req) && Sound(cfg, y) && AsAdmitted(cfg, y.state, req) && f in y.flights
    requires y.flights[f] == Flight(req.id, 0, Depth(cfg), y.flights[f].epoch, 1, 0, [], [], [], [])
    ensures var propose := Propose(f, Draft(cfg, a, req));
            var proposed := Next(cfg, Guarded, y, propose);
            && AnswersOf(cfg, Misaligned(a), y, propose) && SerialOf(cfg, WholeCycles, y, propose) == []
            && FlightsSound(cfg, proposed)
            && var next := Next(cfg, Guarded, proposed, Verify(f, 0));
            && AnswersOf(cfg, Misaligned(a), proposed, Verify(f, 0))
            && SerialOf(cfg, WholeCycles, proposed, Verify(f, 0)) == []
            && next.state == y.state && RejectedFlight(cfg, a, next, req, f)
            && next.flights == y.flights[f := next.flights[f]]
  {
    hide RequestsSound, BooksBalance, AsAdmitted, Misaligned, Draft, PlannedDepth;
    DraftIsRejected(cfg, a, req);
    CapturesAsAdmitted(cfg, a, y.state, req);
    NextEvolves(cfg, Guarded, y, Propose(f, Draft(cfg, a, req)));
  }

  lemma LaunchRejected(cfg: Config, a: Synthetic.Arithmetic, y: System, req: Request, f: nat, rest: seq<Action>)
    returns (z: System)
    requires OneAtATime(cfg, req) && Sound(cfg, y) && AsAdmitted(cfg, y.state, req) && f !in y.flights
    ensures Sound(cfg, z) && AsAdmitted(cfg, z.state, req) && RejectedFlight(cfg, a, z, req, f)
    ensures forall g :: g in y.flights ==> g in z.flights && z.flights[g] == y.flights[g]
    ensures forall g :: g in z.flights && g != f ==> g in y.flights
    ensures var actions := Launching(cfg, a, req, f, rest);
            && Run(cfg, Guarded, y, actions) == Run(cfg, Guarded, z, rest)
            && Serial(cfg, WholeCycles, y, actions) == Serial(cfg, WholeCycles, z, rest)
            && (Driven(cfg, Misaligned(a), z, rest) ==> Driven(cfg, Misaligned(a), y, actions))
  {
    hide RequestsSound, BooksBalance, FlightsSound, Next, Run, Serial, Driven, AnswersOf, SerialOf, PlannedDepth,
        AsAdmitted, OneAtATime, Misaligned, Draft;
    ValidOneAtATime(cfg, req);
    var x := Misaligned(a);
    var a1, a2, a3 := Prepare(f, req.id, 0), Propose(f, Draft(cfg, a, req)), Verify(f, 0);
    OneAction(cfg, x, y, a1, [a2] + ([a3] + rest));
    PrepareStep(cfg, y, req, f);
    PrepareAnswers(cfg, x, y, f, req.id);
    var y1 := Next(cfg, Guarded, y, a1);
    OneAction(cfg, x, y1, a2, [a3] + rest);
    AnswerSteps(cfg, a, y1, req, f);
    var y2 := Next(cfg, Guarded, y1, a2);
    OneAction(cfg, x, y2, a3, rest);
    z := Next(cfg, Guarded, y2, a3);

  }

  lemma PrepareAnswers(cfg: Config, x: Pair, y: System, f: nat, id: nat)
    requires cfg.Valid() && FlightsSound(cfg, y)
    ensures AnswersOf(cfg, x, y, Prepare(f, id, 0))
  {
  }

  // --- two commits ------------------------------------------------------------

  /** The request with n rejected proposals recorded and nothing else changed. */
  predicate Rejected(s: Engine.State, req: Request, n: nat) {
    && req.id in s.requests
    && var rs := s.requests[req.id];
       && rs.req == req && rs.attempt == 1 && rs.authGen == 0 && rs.committed == req.prefix && |rs.proposals| == n
       && !rs.cancelled && !rs.terminal
  }

  lemma AdmittedIsRejectedZeroTimes(cfg: Config, s: Engine.State, req: Request)
    requires AsAdmitted(cfg, s, req)
    ensures Rejected(s, req, 0)
  {
    AdmittedStands(cfg, req);
  }

  /** Behind the gate each commit records its rejected proposal: attempt and base have not moved. */
  lemma CommitStep(cfg: Config, a: Synthetic.Arithmetic, y: System, req: Request, f: nat, n: nat)
    requires OneAtATime(cfg, req) && Sound(cfg, y) && Rejected(y.state, req, n) && RejectedFlight(cfg, a, y, req, f)
    ensures var next := Next(cfg, Guarded, y, Commit(f));
            && Rejected(next.state, req, n + 1) && next.flights == y.flights - {f}
            && SerialOf(cfg, WholeCycles, y, Commit(f)) == [RunNow(req.id, 0)]
            && AnswersOf(cfg, Misaligned(a), y, Commit(f))
  {
    hide RequestsSound, BooksBalance, FlightSound, Landed, PlannedDepth, Draft;
    var flight := y.flights[f];
    OnlyBallot(0);
    GuardedCommit(cfg, y.state, flight);
    LiteralCommit(cfg, y.state, flight);
  }

  // --- the serial side ----------------------------------------------------------

  /** With nothing recorded the whole cycle is planned and records its proposal. */
  lemma FirstCycleRuns(cfg: Config, a: Synthetic.Arithmetic, s: Engine.State, req: Request)
    requires OneAtATime(cfg, req) && RequestsSound(cfg, s) && Rejected(s, req, 0)
    ensures var after := WholeCycle(cfg, Misaligned(a), s, req.id, 0);
            && req.id in after.requests && |after.requests[req.id].proposals| == 1
            && !after.requests[req.id].cancelled && !after.requests[req.id].terminal
            && after.requests[req.id].req == req
  {
    hide Ledger.RequestSound, AtomicCycle, PlannedDepth, Dispatched, Lifecycle.IsTerminal, AcceptanceRatio, Misaligned,
        Deterministic;
    PrepareEvolves(cfg, s, req.id, 0);
    var prepared := Engine.Prepare(cfg, s, req.id, 0);
    assert Plans(prepared);
    MisalignedIsDeterministic(a);
    DeterministicAnswers(cfg, Misaligned(a), prepared.state.requests[req.id], prepared.value.value.depth);
    CycleCommits(cfg, Misaligned(a), prepared.state, req.id, prepared.value.value.depth);
  }

  lemma MisalignedIsDeterministic(a: Synthetic.Arithmetic)
    ensures Deterministic(Misaligned(a))
  {
    hide Promised, Shipped;
    ShippedAreDeterministic(a, 0);
  }

  /** With one recorded the next whole cycle is bypassed. */
  lemma SecondCycleIsBypassed(cfg: Config, a: Synthetic.Arithmetic, s: Engine.State, req: Request)
    requires OneAtATime(cfg, req) && req.id in s.requests && |s.requests[req.id].proposals| == 1
    requires !s.requests[req.id].cancelled && !s.requests[req.id].terminal && s.requests[req.id].req == req
    ensures var after := WholeCycle(cfg, Misaligned(a), s, req.id, 0);
            req.id in after.requests && |after.requests[req.id].proposals| == 1
  {
    hide AtomicCycle, PlannedDepth, Dispatched, Lifecycle.IsTerminal, AcceptanceRatio, Misaligned;
  }

  lemma SerialTwo(cfg: Config, a: Synthetic.Arithmetic, s: Engine.State, req: Request)
    requires OneAtATime(cfg, req) && RequestsSound(cfg, s) && Rejected(s, req, 0)
    ensures var after := SerialRun(cfg, Misaligned(a), s, [RunNow(req.id, 0)] + ([RunNow(req.id, 0)] + []));
            req.id in after.requests && |after.requests[req.id].proposals| == 1
  {
    hide RequestsSound, WholeCycle, Misaligned, Rejected, OneAtATime;
    ValidOneAtATime(cfg, req);
    var x, run := Misaligned(a), RunNow(req.id, 0);
    FirstCycleRuns(cfg, a, s, req);
    SecondCycleIsBypassed(cfg, a, WholeCycle(cfg, x, s, req.id, 0), req);
    assert [run] + [] == [run];
    SerialSplits(cfg, x, s, [run], [run]);
    SerialOne(cfg, x, s, run);
    SerialOne(cfg, x, SerialNext(cfg, x, s, run), run);
  }

  // --- the two runs -------------------------------------------------------------

  /** Two cycles of one request prepared and answered before either commits. */
  function TwoAtOnce(cfg: Config, a: Synthetic.Arithmetic, req: Request, f: nat, g: nat): seq<Action>
    requires cfg.Valid()
  {
    [Submit(req)] + Launching(cfg, a, req, f, Launching(cfg, a, req, g, [Commit(f)] + ([Commit(g)] + [])))
  }

  /** The two commits at the end, and their serial counterpart. */
  lemma BothCommit(cfg: Config, a: Synthetic.Arithmetic, y: System, req: Request, f: nat, g: nat)
    requires OneAtATime(cfg, req) && Sound(cfg, y) && AsAdmitted(cfg, y.state, req) && f != g
    requires RejectedFlight(cfg, a, y, req, f) && RejectedFlight(cfg, a, y, req, g)
    ensures var actions := [Commit(f)] + ([Commit(g)] + []);
            && Rejected(Run(cfg, Guarded, y, actions).state, req, 2)
            && Serial(cfg, WholeCycles, y, actions) == [RunNow(req.id, 0)] + ([RunNow(req.id, 0)] + [])
            && Driven(cfg, Misaligned(a), y, actions)
  {
    hide RequestsSound, BooksBalance, FlightsSound, Next, Run, AnswersOf, SerialOf, PlannedDepth, Rejected, AsAdmitted,
        Misaligned, Draft;
    var x := Misaligned(a);
    AdmittedIsRejectedZeroTimes(cfg, y.state, req);
    OneAction(cfg, x, y, Commit(f), [Commit(g)] + []);
    CommitStep(cfg, a, y, req, f, 0);
    var y1 := Next(cfg, Guarded, y, Commit(f));
    OneAction(cfg, x, y1, Commit(g), []);
    CommitStep(cfg, a, y1, req, g, 1);
    RunNothing(cfg, Guarded, Next(cfg, Guarded, y1, Commit(g)));
    assert Serial(cfg, WholeCycles, Next(cfg, Guarded, y1, Commit(g)), []) == [];
    assert Driven(cfg, x, Next(cfg, Guarded, y1, Commit(g)), []);
  }

  lemma SubmitStep(cfg: Config, x: Pair, y: System, req: Request)
    requires OneAtATime(cfg, req) && Sound(cfg, y) && req.id !in y.state.requests
    ensures var next := Next(cfg, Guarded, y, Submit(req));
            && AsAdmitted(cfg, next.state, req) && next.flights == y.flights
            && next.state == SerialNext(cfg, x, y.state, SubmitNow(req))
            && SerialOf(cfg, WholeCycles, y, Submit(req)) == [SubmitNow(req)] && AnswersOf(cfg, x, y, Submit(req))
  {
    hide Ledger.RequestSound, BooksBalance, FlightsSound;
    SubmitEvolves(cfg, y.state, req);
  }

  /**
   * For every such configuration, request, model and sound system that does not know the request: the guarded run
   * records two proposals, its serial counterpart of whole cycles only one. So under an outstanding limit guarded runs
   * are not equivalent to runs of whole cycles, although the executors are deterministic and give all the answers.
   */
  lemma WholeCyclesNeedAForgetfulPolicy(
    cfg: Config, a: Synthetic.Arithmetic, y: System, req: Request, f: nat, g: nat)
    requires OneAtATime(cfg, req) && Sound(cfg, y) && y.flights == map[] && req.id !in y.state.requests && f != g
    ensures Deterministic(Misaligned(a)) && Driven(cfg, Misaligned(a), y, TwoAtOnce(cfg, a, req, f, g))
    ensures var guarded := Run(cfg, Guarded, y, TwoAtOnce(cfg, a, req, f, g)).state;
            req.id in guarded.requests && |guarded.requests[req.id].proposals| == 2
    ensures var serial := SerialRun(cfg, Misaligned(a), y.state,
                                    Serial(cfg, WholeCycles, y, TwoAtOnce(cfg, a, req, f, g)));
            req.id in serial.requests && |serial.requests[req.id].proposals| == 1
  {
    hide RequestsSound, BooksBalance, FlightsSound, Next, Run, Serial, SerialRun, Driven, AnswersOf, SerialOf,
        PlannedDepth, AsAdmitted, Misaligned, Draft, Deterministic, Launching, SerialNext, OneAtATime, Speculates;
    ValidOneAtATime(cfg, req);
    var x := Misaligned(a);
    MisalignedIsDeterministic(a);
    var last := [Commit(f)] + ([Commit(g)] + []);
    var second := Launching(cfg, a, req, g, last);
    var first := Launching(cfg, a, req, f, second);
    OneAction(cfg, x, y, Submit(req), first);
    SubmitStep(cfg, x, y, req);
    var y1 := Next(cfg, Guarded, y, Submit(req));
    var y2 := LaunchRejected(cfg, a, y1, req, f, second);
    var y3 := LaunchRejected(cfg, a, y2, req, g, last);
    SameFlight(cfg, a, y2, y3, req, f);
    BothCommit(cfg, a, y3, req, f, g);
    SerialSplits(cfg, x, y.state, [SubmitNow(req)], [RunNow(req.id, 0)] + ([RunNow(req.id, 0)] + []));
    SerialOne(cfg, x, y.state, SubmitNow(req));
    AdmittedIsRejectedZeroTimes(cfg, y1.state, req);
    SerialTwo(cfg, a, y1.state, req);
  }

  lemma ValidOneAtATime(cfg: Config, req: Request)
    requires OneAtATime(cfg, req)
    ensures cfg.Valid()
  {
  }

  lemma SameFlight(cfg: Config, a: Synthetic.Arithmetic, y: System, z: System, req: Request, f: nat)
    requires cfg.Valid() && RejectedFlight(cfg, a, y, req, f) && f in z.flights && z.flights[f] == y.flights[f]
    ensures RejectedFlight(cfg, a, z, req, f)
  {
  }
}
