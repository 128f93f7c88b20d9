/** What the engine guarantees over every run, and exactly where its declared authority gate would matter. */
module EngineGuarantees {
  import opened Words
  import opened Executors
  import opened Policy
  import opened Engine
  import opened Ledger
  import opened EngineRuns
  import Selection
  import Lifecycle

  /** The accepted prefixes of a request's recorded proposals, in order. */
  function Accepted(cfg: Config, rs: RequestState): seq<Token>
    requires TokensSound(cfg, rs)
  {
    Replay(rs.proposals, rs.authState.id, cfg.policy.maxDepth, rs.authGen)
  }

  /** Some interleaving of actions leads from a sound system, such as the empty engine, to this one. */
  ghost predicate Reachable(cfg: Config, gate: Gate, start: System, y: System)
    requires cfg.Valid() && Sound(cfg, start)
  {
    exists actions :: Run(cfg, gate, start, actions) == y
  }

  lemma ReachableIsSound(cfg: Config, gate: Gate, start: System, y: System)
    requires cfg.Valid() && Sound(cfg, start) && Reachable(cfg, gate, start, y)
    ensures Sound(cfg, y)
  {
    hide RequestsSound, FlightsSound, BooksBalance;
  }

  /** What holds of every request of a reachable system. */
  predicate Guaranteed(cfg: Config, rs: RequestState) {
    && TokensSound(cfg, rs)
    && rs.committed == rs.req.prefix + Accepted(cfg, rs)
    && rs.authGen == rs.authState.generation == rs.authStateGen == |rs.committed| - |rs.req.prefix|
    && (forall i :: 0 <= i < |rs.proposals| ==> rs.proposals[i].id == rs.proposals[i].generation == i + 1)
    && ActiveCount(rs.branches) <= 1 && (rs.cancelled ==> ActiveCount(rs.branches) == 0)
    && rs.attempt == 1 + rs.retryCount && (rs.req.maxAttempts != 0 ==> rs.retryCount <= rs.req.maxAttempts)
    && (!cfg.compatible(rs.req.draft, rs.req.target) ==> rs.committed == rs.req.prefix)
    && rs.phase in [Lifecycle.Ready, Lifecycle.ProposalDispatched, Lifecycle.CancelRequested]
  }

  /**
   * Every request of every reachable system, whatever interleaving of blocks led to it: its tokens are its prefix and
   * the accepted prefixes of its proposals; its three generations count them; its proposals are numbered; at most one
   * branch is active; attempts count retries; an incompatible pair commits nothing.
   */
  lemma EveryReachableRequest(cfg: Config, gate: Gate, start: System, y: System, id: nat)
    requires cfg.Valid() && Sound(cfg, start) && Reachable(cfg, gate, start, y) && id in y.state.requests
    ensures Guaranteed(cfg, y.state.requests[id])
  {
    hide Reachable, FlightsSound, BooksBalance, ActiveCount, Chain, Replay;
    ReachableIsSound(cfg, gate, start, y);
    ReadLedger(cfg, y.state.requests[id]);
  }

  /** In particular every run of an engine that starts empty. */
  lemma EveryRunFromTheEmptyEngine(cfg: Config, gate: Gate, start: System, actions: seq<Action>, id: nat)
    requires cfg.Valid() && start == INITIAL
    ensures Sound(cfg, start)
    ensures var y := Run(cfg, gate, start, actions);
            id in y.state.requests ==> Guaranteed(cfg, y.state.requests[id])
  {
    hide Sound, Guaranteed, Run, INITIAL;
    InitialIsSound(cfg);
    var y := Run(cfg, gate, start, actions);
    if id in y.state.requests {
      assert Reachable(cfg, gate, start, y);
      EveryReachableRequest(cfg, gate, start, y, id);
    }
  }

  lemma ReadLedger(cfg: Config, rs: RequestState)
    requires RequestSound(cfg, rs)
    ensures forall i :: 0 <= i < |rs.proposals| ==> rs.proposals[i].id == rs.proposals[i].generation == i + 1
    ensures rs.proposals == [] ==> rs.committed == rs.req.prefix
  {
    forall i | 0 <= i < |rs.proposals|
      ensures rs.proposals[i].id == rs.proposals[i].generation == i + 1
    {
      EachProposal(rs.proposals, rs.authState.id, cfg.policy.maxDepth, rs.authGen, i);
    }
  }

  /** The base a proposal records is the number of tokens accepted before it, and those tokens are still committed. */
  lemma EveryReachableProposal(cfg: Config, gate: Gate, start: System, y: System, id: nat, i: nat)
    requires cfg.Valid() && Sound(cfg, start) && Reachable(cfg, gate, start, y)
    requires id in y.state.requests && i < |y.state.requests[id].proposals|
    ensures var rs, p := y.state.requests[id], y.state.requests[id].proposals[i];
            && Chain(rs.proposals[..i], rs.authState.id, cfg.policy.maxDepth, p.baseStateGeneration)
            && var before := Replay(rs.proposals[..i], rs.authState.id, cfg.policy.maxDepth, p.baseStateGeneration);
               p.baseStateGeneration == |before| && rs.req.prefix + before <= rs.committed
  {
    hide Reachable, FlightsSound, BooksBalance, ActiveCount, Chain, Replay;
    ReachableIsSound(cfg, gate, start, y);
    var rs := y.state.requests[id];
    EachProposal(rs.proposals, rs.authState.id, cfg.policy.maxDepth, rs.authGen, i);
  }

  /** Across all requests and all interleavings the counters add up. */
  lemma CountersAddUp(cfg: Config, gate: Gate, start: System, y: System)
    requires cfg.Valid() && Sound(cfg, start) && Reachable(cfg, gate, start, y)
    ensures IdsSound(y.ids, y.state.requests)
    ensures Books(y.state.stats, Total(y.ids, y.state.requests, |y.ids|), |y.ids|, y.handRollbacks)
  {
    hide Reachable, FlightsSound, RequestsSound, Total, Books;
    ReachableIsSound(cfg, gate, start, y);
  }

  // ---------------------------------------------------------------------------
  // Monotonicity and finality
  // ---------------------------------------------------------------------------

  /** From any point of a run to any later one requests only move forward. */
  lemma {:induction false} RunAdvances(cfg: Config, gate: Gate, y: System, actions: seq<Action>, id: nat)
    requires cfg.Valid() && Sound(cfg, y) && id in y.state.requests
    ensures var after := Run(cfg, gate, y, actions);
            id in after.state.requests && Advances(y.state.requests[id], after.state.requests[id])
    decreases |actions|
  {
    hide RequestSound, Next, BooksBalance;
    if |actions| > 0 {
      NextEvolves(cfg, gate, y, actions[0]);
      NextBalances(cfg, gate, y, actions[0]);
      var next := Next(cfg, gate, y, actions[0]);
      RunAdvances(cfg, gate, next, actions[1..], id);
      AdvancesTransitively(y.state.requests[id], next.state.requests[id],
                           Run(cfg, gate, next, actions[1..]).state.requests[id]);
    }
  }

  /** Once cancelled or completed, a request never changes its tokens, generation, attempt or proposals again. */
  lemma FinishedIsFrozen(cfg: Config, gate: Gate, y: System, actions: seq<Action>, id: nat)
    requires cfg.Valid() && Sound(cfg, y) && id in y.state.requests
    requires y.state.requests[id].cancelled || y.state.requests[id].terminal
    ensures var rs, after := y.state.requests[id], Run(cfg, gate, y, actions).state;
            && id in after.requests
            && after.requests[id].committed == rs.committed && after.requests[id].authGen == rs.authGen
            && after.requests[id].attempt == rs.attempt && after.requests[id].proposals == rs.proposals
  {
    RunAdvances(cfg, gate, y, actions, id);
  }

  // ---------------------------------------------------------------------------
  // The outstanding limit
  // ---------------------------------------------------------------------------

  function FlightsOf(y: System, id: nat): set<nat> {
    set f | f in y.flights && y.flights[f].request == id
  }

  /** At no point of the run are more than c cycles of the request in flight. */
  ghost predicate AtMostInFlight(cfg: Config, gate: Gate, y: System, actions: seq<Action>, id: nat, c: nat)
    requires cfg.Valid() && Sound(cfg, y)
    decreases |actions|
  {
    && |FlightsOf(y, id)| <= c
    && (|actions| > 0 ==>
          && Sound(cfg, Next(cfg, gate, y, actions[0]))
          && AtMostInFlight(cfg, gate, Next(cfg, gate, y, actions[0]), actions[1..], id, c))
  }

  function Recorded(y: System, id: nat): nat {
    if id in y.state.requests then |y.state.requests[id].proposals| else 0
  }

  /** Proposals recorded and in flight together stay under the bound. */
  predicate Within(y: System, id: nat, bound: int) {
    Recorded(y, id) + |FlightsOf(y, id)| <= bound
  }

  lemma CardinalityOfSubset<T>(a: set<T>, b: set<T>)
    requires a <= b
    ensures |a| <= |b|
    decreases b
  {
    if x :| x in b && x !in a {
      CardinalityOfSubset(a, b - {x});
    } else {
      assert a == b;
    }
  }

  lemma LaunchWithin(cfg: Config, y: System, f: nat, id: nat, now: nat, watched: nat, c: nat, bound: int)
    requires cfg.Valid() && RequestsSound(cfg, y.state) && FlightsSound(cfg, y) && id in y.state.requests
    requires cfg.policy.maxOutstanding != 0 && bound >= cfg.policy.maxOutstanding - 1 + c && Within(y, watched, bound)
    requires f !in y.flights
    requires |FlightsOf(Launched(y, Engine.Prepare(cfg, y.state, id, now), f, id, now), watched)| <= c
    ensures Within(Launched(y, Engine.Prepare(cfg, y.state, id, now), f, id, now), watched, bound)
  {
    hide RequestSound, Engine.Prepare, PlannedDepth, AcceptanceRatio;
    PrepareEvolves(cfg, y.state, id, now);
    var reply := Engine.Prepare(cfg, y.state, id, now);
    var after := Launched(y, reply, f, id, now);
    assert Recorded(after, watched) == Recorded(y, watched);
    if !(reply.value.Ok? && reply.value.value.Planned? && id == watched) {
      assert FlightsOf(after, watched) == FlightsOf(y, watched);
    }
  }

  lemma LandingWithin(cfg: Config, gate: Gate, y: System, f: nat, watched: nat, bound: int)
    requires cfg.Valid() && RequestsSound(cfg, y.state) && FlightsSound(cfg, y) && f in y.flights
    requires Allowed(cfg, y, Commit(f)) && Within(y, watched, bound)
    ensures Within(Next(cfg, gate, y, Commit(f)), watched, bound)
  {
    hide RequestSound, Landed;
    var flight := y.flights[f];
    LandingRecordsOne(cfg, gate, y.state, flight, watched);
    var after := Next(cfg, gate, y, Commit(f));
    if flight.request == watched {
      assert FlightsOf(after, watched) == FlightsOf(y, watched) - {f};
      assert f in FlightsOf(y, watched);
    } else {
      assert FlightsOf(after, watched) == FlightsOf(y, watched);
    }
  }

  lemma LandingRecordsOne(cfg: Config, gate: Gate, s: State, flight: Flight, watched: nat)
    requires flight.request in s.requests && Answered(flight.candidates, flight.accepted)
    ensures var after := Landed(gate, s, flight);
            && (watched in after.requests <==> watched in s.requests)
            && (watched in s.requests ==>
                  |after.requests[watched].proposals|
                  <= |s.requests[watched].proposals| + (if flight.request == watched then 1 else 0))
  {
    hide Gated, Selection.Winner, RetireOthers, Outcome, Counted, Pushed, RatioOf, KindOf;
    GateTouchesStatsOnly(gate, s, flight);
  }

  lemma SameProposals(cfg: Config, gate: Gate, y: System, a: Action, watched: nat)
    requires cfg.Valid() && RequestsSound(cfg, y.state) && FlightsSound(cfg, y)
    requires !a.Prepare? && !a.Commit?
    ensures Recorded(Next(cfg, gate, y, a), watched) == Recorded(y, watched)
    ensures FlightsOf(Next(cfg, gate, y, a), watched) <= FlightsOf(y, watched)
  {
    hide RequestSound, Moved, AllRetired, UncommittedTokens, ActiveCount;
    if a.Submit? && a.req.id != 0 {
      SubmitEvolves(cfg, y.state, a.req);
    }
  }

  lemma {:induction false} RunWithin(
    cfg: Config, gate: Gate, y: System, actions: seq<Action>, id: nat, c: nat, bound: int)
    requires cfg.Valid() && Sound(cfg, y) && AtMostInFlight(cfg, gate, y, actions, id, c)
    requires cfg.policy.maxOutstanding != 0 && bound >= cfg.policy.maxOutstanding - 1 + c && Within(y, id, bound)
    ensures Within(Run(cfg, gate, y, actions), id, bound)
    decreases |actions|
  {
    hide RequestSound, BooksBalance, Next, Within, FlightsOf;
    if |actions| > 0 {
      NextWithin(cfg, gate, y, actions[0], id, c, bound);
      RunWithin(cfg, gate, Next(cfg, gate, y, actions[0]), actions[1..], id, c, bound);
    }
  }

  lemma NextWithin(cfg: Config, gate: Gate, y: System, a: Action, id: nat, c: nat, bound: int)
    requires cfg.Valid() && RequestsSound(cfg, y.state) && FlightsSound(cfg, y)
    requires cfg.policy.maxOutstanding != 0 && bound >= cfg.policy.maxOutstanding - 1 + c && Within(y, id, bound)
    requires |FlightsOf(Next(cfg, gate, y, a), id)| <= c
    ensures Within(Next(cfg, gate, y, a), id, bound)
  {
    hide RequestSound, Engine.Prepare, Launched, Landed, FlightsOf;
    if Allowed(cfg, y, a) {
      match a {
        case Prepare(f, request, now) =>
          if request in y.state.requests {
            LaunchWithin(cfg, y, f, request, now, id, c, bound);
          }
        case Commit(f) =>
          LandingWithin(cfg, gate, y, f, id, bound);
        case _ =>
          SameProposals(cfg, gate, y, a, id);
          CardinalityOfSubset(FlightsOf(Next(cfg, gate, y, a), id), FlightsOf(y, id));
      }
    }
  }

  /**
   * With an outstanding limit m and never more than c cycles of a request in flight, the request records at most
   * m - 1 + c proposals, and so commits at most that many times the maximal depth.
   */
  lemma OutstandingBound(cfg: Config, gate: Gate, start: System, actions: seq<Action>, id: nat, c: nat)
    requires cfg.Valid() && cfg.policy.maxOutstanding != 0 && c >= 1
    requires Sound(cfg, start) && Recorded(start, id) == 0 && FlightsOf(start, id) == {}
    requires AtMostInFlight(cfg, gate, start, actions, id, c)
    ensures var y := Run(cfg, gate, start, actions);
            id in y.state.requests ==>
              && |y.state.requests[id].proposals| <= cfg.policy.maxOutstanding - 1 + c
              && |y.state.requests[id].committed| - |y.state.requests[id].req.prefix|
                 <= (cfg.policy.maxOutstanding - 1 + c) * cfg.policy.maxDepth
  {
    hide FlightsSound, BooksBalance, AtMostInFlight, Run, ActiveCount, Chain, Replay, FlightsOf;
    var bound := cfg.policy.maxOutstanding - 1 + c;
    RunWithin(cfg, gate, start, actions, id, c, bound);
    var y := Run(cfg, gate, start, actions);
    if id in y.state.requests {
      var rs := y.state.requests[id];
      ReplayIsShort(rs.proposals, rs.authState.id, cfg.policy.maxDepth, rs.authGen);
      MoreTimes(|rs.proposals|, bound, cfg.policy.maxDepth);
    }
  }

  lemma MoreTimes(a: nat, b: nat, m: nat)
    requires a <= b
    ensures a * m <= b * m
  {
  }

  // ---------------------------------------------------------------------------
  // The null id
  // ---------------------------------------------------------------------------

  /**
   * The duplicate check works exactly for ids that are not null: a request whose id is null can be submitted again and
   * again, which resets its tokens and cycle count beside the proposals, branches and retries it already has.
   */
  lemma DuplicatesAreCaughtIffNotNull(cfg: Config, s: State, req: Request)
    requires forall id :: id in s.requests ==> s.requests[id].req.id == id
    ensures var reply := Engine.Submit(cfg, s, req);
            && (reply.value.Err? <==> req.id in s.requests && req.id != 0)
            && (req.id in s.requests && req.id == 0 ==>
                  var before, after := s.requests[0], reply.state.requests[0];
                  && after.committed == req.prefix && after.completedCycles == 0 && after.attempt == 1
                  && after.phase == Lifecycle.Ready && !after.cancelled && !after.terminal && after.authGen == 0
                  && after.proposals == before.proposals && after.branches == before.branches
                  && after.retryCount == before.retryCount)
  {
  }
}
