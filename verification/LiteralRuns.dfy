/**
 * From one commit block to whole runs: exactly when a run of the engine as it is, without the gate, is the run behind
 * the gate, so that everything proved of guarded runs holds of it.
 */
module LiteralRuns {
  import opened Words
  import opened Executors
  import opened Engine
  import opened EngineRuns
  import opened AuthorityGate
  import opened Serializability
  import opened CpuCycles
  import opened CpuRuns
  import Policy
  import Lifecycle
  import Selection

  /** Equal but for the counter of stale results, which only the ungated block raises. */
  predicate AlikeStates(s: State, t: State) {
    t == s.(stats := s.stats.(rejectedStale := t.stats.rejectedStale))
  }

  predicate Alike(y: System, z: System) {
    AlikeStates(y.state, z.state) && z == y.(state := z.state)
  }

  /** A landing, if this is one, finds its request finished or where it stood at the prepare block. */
  predicate LandsCurrent(cfg: Config, y: System, a: Action)
    requires FlightsSound(cfg, y)
  {
    a.Commit? && Allowed(cfg, y, a) ==> !Live(y.state, y.flights[a.flight]) || Current(y.state, y.flights[a.flight])
  }

  /** Along the literal run every landing does: a question each commit block could ask before it appends anything. */
  ghost predicate AlwaysCurrent(cfg: Config, y: System, actions: seq<Action>)
    requires cfg.Valid() && Sound(cfg, y)
    decreases |actions|
  {
    |actions| > 0 ==>
      && LandsCurrent(cfg, y, actions[0])
      && Sound(cfg, Next(cfg, Literal, y, actions[0]))
      && AlwaysCurrent(cfg, Next(cfg, Literal, y, actions[0]), actions[1..])
  }

  /** After every action the run without the gate has the same requests as the one behind it. */
  ghost predicate SameAllAlong(cfg: Config, y: System, z: System, actions: seq<Action>)
    requires cfg.Valid() && Sound(cfg, y) && Sound(cfg, z)
    decreases |actions|
  {
    && y.state.requests == z.state.requests
    && (|actions| > 0 ==>
          && Sound(cfg, Next(cfg, Literal, y, actions[0])) && Sound(cfg, Next(cfg, Guarded, z, actions[0]))
          && SameAllAlong(cfg, Next(cfg, Literal, y, actions[0]), Next(cfg, Guarded, z, actions[0]), actions[1..]))
  }

  // ---------------------------------------------------------------------------
  // One action
  // ---------------------------------------------------------------------------

  lemma PrepareAlike(cfg: Config, s: State, t: State, id: nat, now: nat)
    requires cfg.Valid() && AlikeStates(s, t)
    ensures AlikeStates(Engine.Prepare(cfg, s, id, now).state, Engine.Prepare(cfg, t, id, now).state)
    ensures Engine.Prepare(cfg, s, id, now).value == Engine.Prepare(cfg, t, id, now).value
  {
    hide PlannedDepth, Dispatched, Lifecycle.IsTerminal, Late;
  }

  lemma CommitAlike(s: State, t: State, id: nat, depth: nat, candidates: seq<seq<Token>>, accepted: seq<nat>)
    requires AlikeStates(s, t) && Answered(candidates, accepted)
    ensures AlikeStates(Engine.Commit(s, id, depth, candidates, accepted).state,
                        Engine.Commit(t, id, depth, candidates, accepted).state)
  {
    hide Selection.Winner, Committed, Outcome, Policy.Pushed, RatioOf, KindOf;
  }

  lemma LandingAlike(cfg: Config, s: State, t: State, flight: Flight)
    requires cfg.Valid() && RequestsSound(cfg, s) && RequestsSound(cfg, t) && AlikeStates(s, t)
    requires FlightSound(cfg, s, flight) && FlightSound(cfg, t, flight) && AllIn(cfg, flight)
    requires !Live(s, flight) || Current(s, flight)
    ensures Answered(flight.candidates, flight.accepted)
    ensures AlikeStates(Landed(Literal, s, flight), Landed(Guarded, t, flight))
  {
    hide RequestsSound, Engine.Commit, Gated, FlightSound;
    FlightAnswered(cfg, s, flight);
    FlightKnown(cfg, s, flight);
    LiteralGate(s, flight);
    if Live(s, flight) {
      GuardedCommit(cfg, t, flight);
      LiteralGate(t, flight);
      CommitAlike(s, t, flight.request, flight.depth, flight.candidates, flight.accepted);
    } else {
      FinishedLandings(s, t, flight);
    }
  }

  lemma FinishedLandings(s: State, t: State, flight: Flight)
    requires flight.request in s.requests && flight.request in t.requests && AlikeStates(s, t) && !Live(s, flight)
    requires Answered(flight.candidates, flight.accepted)
    ensures AlikeStates(Landed(Literal, s, flight), Landed(Guarded, t, flight))
  {
  }

  lemma ControlAlike(cfg: Config, s: State, t: State)
    requires AlikeStates(s, t)
    ensures forall req :: && AlikeStates(Engine.Submit(cfg, s, req).state, Engine.Submit(cfg, t, req).state)
                          && Engine.Submit(cfg, s, req).value == Engine.Submit(cfg, t, req).value
    ensures forall id :: AlikeStates(Engine.Cancel(s, id).state, Engine.Cancel(t, id).state)
    ensures forall id :: AlikeStates(Engine.Complete(s, id).state, Engine.Complete(t, id).state)
    ensures forall id :: AlikeStates(Engine.Retry(s, id).state, Engine.Retry(t, id).state)
    ensures forall id :: && AlikeStates(Engine.Rollback(s, id).state, Engine.Rollback(t, id).state)
                         && Engine.Rollback(s, id).value == Engine.Rollback(t, id).value
  {
    hide Admitted, Moved, AllRetired, UncommittedTokens, ActiveCount;
  }

  /** An action whose landing is current does the same with the gate and without. */
  lemma NextAlike(cfg: Config, y: System, z: System, a: Action)
    requires cfg.Valid() && RequestsSound(cfg, y.state) && FlightsSound(cfg, y)
    requires RequestsSound(cfg, z.state) && FlightsSound(cfg, z) && Alike(y, z) && LandsCurrent(cfg, y, a)
    ensures Alike(Next(cfg, Literal, y, a), Next(cfg, Guarded, z, a))
  {
    hide RequestsSound, FlightSound, Landed, Live, Current, Engine.Submit, Engine.Cancel, Engine.Complete,
         Engine.Retry, Engine.Rollback, Engine.Prepare;
    ControlAlike(cfg, y.state, z.state);
    if Allowed(cfg, y, a) {
      match a {
        case Prepare(f, id, now) =>
          PrepareAlike(cfg, y.state, z.state, id, now);
        case Commit(f) =>
          LandingAlike(cfg, y.state, z.state, y.flights[f]);
        case _ =>
      }
    }
  }

  /** And one whose landing is not leaves other requests. */
  lemma NextDiffers(cfg: Config, y: System, z: System, a: Action)
    requires cfg.Valid() && RequestsSound(cfg, y.state) && FlightsSound(cfg, y)
    requires RequestsSound(cfg, z.state) && FlightsSound(cfg, z) && Alike(y, z) && !LandsCurrent(cfg, y, a)
    ensures Next(cfg, Literal, y, a).state.requests != Next(cfg, Guarded, z, a).state.requests
  {
    hide RequestsSound, FlightSound, Landed;
    var flight := y.flights[a.flight];
    LiteralCommit(cfg, y.state, flight);
    GuardedCommit(cfg, z.state, flight);
  }

  // ---------------------------------------------------------------------------
  // Every run
  // ---------------------------------------------------------------------------

  /**
   * From one and the same system, the run of the engine as it is has the requests of the run behind the gate after
   * every action exactly when every landing is finished or current.
   */
  lemma {:induction false} GateNeverMattersIff(cfg: Config, y: System, z: System, actions: seq<Action>)
    requires cfg.Valid() && Sound(cfg, y) && Sound(cfg, z) && Alike(y, z)
    ensures SameAllAlong(cfg, y, z, actions) <==> AlwaysCurrent(cfg, y, actions)
    decreases |actions|
  {
    hide RequestsSound, FlightsSound, BooksBalance, Next, LandsCurrent, Alike;
    AlikeRequests(y, z);
    if |actions| > 0 {
      var a := actions[0];
      NextEvolves(cfg, Literal, y, a);
      NextBalances(cfg, Literal, y, a);
      NextEvolves(cfg, Guarded, z, a);
      NextBalances(cfg, Guarded, z, a);
      if LandsCurrent(cfg, y, a) {
        NextAlike(cfg, y, z, a);
        GateNeverMattersIff(cfg, Next(cfg, Literal, y, a), Next(cfg, Guarded, z, a), actions[1..]);
      } else {
        NextDiffers(cfg, y, z, a);
      }
    }
  }

  lemma AlikeRequests(y: System, z: System)
    requires Alike(y, z)
    ensures y.state.requests == z.state.requests
  {
  }

  /** Such a run ends in the very same state, but for the counter of stale results. */
  lemma {:induction false} CurrentRunsAreGuarded(cfg: Config, y: System, z: System, actions: seq<Action>)
    requires cfg.Valid() && Sound(cfg, y) && Sound(cfg, z) && Alike(y, z) && AlwaysCurrent(cfg, y, actions)
    ensures Alike(Run(cfg, Literal, y, actions), Run(cfg, Guarded, z, actions))
    decreases |actions|
  {
    hide RequestsSound, FlightsSound, BooksBalance, Next, LandsCurrent, Alike;
    if |actions| > 0 {
      NextEvolves(cfg, Guarded, z, actions[0]);
      NextBalances(cfg, Guarded, z, actions[0]);
      NextAlike(cfg, y, z, actions[0]);
      CurrentRunsAreGuarded(cfg, Next(cfg, Literal, y, actions[0]), Next(cfg, Guarded, z, actions[0]), actions[1..]);
    }
  }

  // ---------------------------------------------------------------------------
  // What such runs inherit
  // ---------------------------------------------------------------------------

  /** All answers along the literal run are the executors' own. */
  ghost predicate DrivenLiterally(cfg: Config, x: Pair, y: System, actions: seq<Action>)
    requires cfg.Valid() && Sound(cfg, y)
    decreases |actions|
  {
    |actions| > 0 ==>
      && AnswersOf(cfg, x, y, actions[0])
      && Sound(cfg, Next(cfg, Literal, y, actions[0]))
      && DrivenLiterally(cfg, x, Next(cfg, Literal, y, actions[0]), actions[1..])
  }

  lemma AnswersAlike(cfg: Config, x: Pair, y: System, z: System, a: Action)
    requires FlightsSound(cfg, y) && FlightsSound(cfg, z) && Alike(y, z) && AnswersOf(cfg, x, y, a)
    ensures AnswersOf(cfg, x, z, a)
  {
    hide FlightSound;
  }

  lemma {:induction false} DrivenAlike(cfg: Config, x: Pair, y: System, z: System, actions: seq<Action>)
    requires cfg.Valid() && Sound(cfg, y) && Sound(cfg, z) && Alike(y, z)
    requires AlwaysCurrent(cfg, y, actions) && DrivenLiterally(cfg, x, y, actions)
    ensures Driven(cfg, x, z, actions)
    decreases |actions|
  {
    hide RequestsSound, FlightsSound, BooksBalance, Next, LandsCurrent, Alike, AnswersOf;
    if |actions| > 0 {
      NextEvolves(cfg, Guarded, z, actions[0]);
      NextBalances(cfg, Guarded, z, actions[0]);
      AnswersAlike(cfg, x, y, z, actions[0]);
      NextAlike(cfg, y, z, actions[0]);
      DrivenAlike(cfg, x, Next(cfg, Literal, y, actions[0]), Next(cfg, Guarded, z, actions[0]), actions[1..]);
    }
  }

  /**
   * So a run of the engine as it is, with deterministic executors and every landing finished or current, leaves
   * requests, counters of work done and history as its successful commits run one after another.
   */
  lemma CurrentRunsAreSerializable(cfg: Config, x: Pair, grain: Grain, y: System, actions: seq<Action>)
    requires Deterministic(x) && cfg.Valid() && Sound(cfg, y) && y.flights == map[]
    requires AlwaysCurrent(cfg, y, actions) && DrivenLiterally(cfg, x, y, actions)
    requires grain == WholeCycles ==> HistoryFree(cfg)
    ensures Same(Run(cfg, Literal, y, actions).state, SerialRun(cfg, x, y.state, Serial(cfg, grain, y, actions)))
  {
    hide RequestsSound, FlightsSound, BooksBalance, Next, SerialRun, Run, Serial, Driven, DrivenLiterally,
         AlwaysCurrent, Deterministic, HistoryFree;
    CurrentRunsAreGuarded(cfg, y, y, actions);
    DrivenAlike(cfg, x, y, y, actions);
    QuietSystemsSerialize(cfg, x, grain, y, actions);
    var literal, guarded := Run(cfg, Literal, y, actions).state, Run(cfg, Guarded, y, actions).state;
    assert Same(literal, guarded);
    SameTransitively(literal, guarded, SerialRun(cfg, x, y.state, Serial(cfg, grain, y, actions)));
  }

  /** And with the CPU executors it tells the same story of target paths. */
  lemma CurrentRunsTellTheStory(
    cfg: Config, w: Setting, start: RequestState, y: System, actions: seq<Action>, id: nat)
    requires Fits(cfg, w) && Sound(cfg, y) && y.flights == map[] && Telling(w, start, y.state, id)
    requires AlwaysCurrent(cfg, y, actions) && DrivenLiterally(cfg, w.Pair(), y, actions)
    ensures Telling(w, start, Run(cfg, Literal, y, actions).state, id)
  {
    hide RequestsSound, FlightsSound, BooksBalance, Next, Run, Driven, DrivenLiterally, AlwaysCurrent,
         PlannedDepth, Tells, Promised, Shipped;
    CurrentRunsAreGuarded(cfg, y, y, actions);
    DrivenAlike(cfg, w.Pair(), y, y, actions);
    ConcurrentRunsTellTheStory(cfg, w, start, y, actions, id);
  }

  /** And no branch that lost a cycle commits later. */
  lemma CurrentRunsKeepLosersOut(cfg: Config, w: Setting, y: System, actions: seq<Action>)
    requires Fits(cfg, w) && Sound(cfg, y) && y.flights == map[] && OnlyBranchOne(y.state)
    requires AlwaysCurrent(cfg, y, actions) && DrivenLiterally(cfg, w.Pair(), y, actions)
    ensures OnlyBranchOne(Run(cfg, Literal, y, actions).state)
  {
    hide RequestsSound, FlightsSound, BooksBalance, Next, Run, Driven, DrivenLiterally, AlwaysCurrent, PlannedDepth,
         Promised, Shipped;
    CurrentRunsAreGuarded(cfg, y, y, actions);
    DrivenAlike(cfg, w.Pair(), y, y, actions);
    BranchOneAlwaysWins(cfg, w, y, actions);
  }
}
