/**
 * Whether a branch that lost a cycle can win a later one. It can exactly when an engine that speculates at all runs
 * more than one branch; with faithful executors it never does, because branch 1 wins every cycle.
 */
module Losers {
  import opened Words
  import opened Executors
  import opened Engine
  import opened Ledger
  import opened Branches
  import opened EngineRuns
  import opened AuthorityGate
  import Policy
  import Selection
  import Lifecycle

  /**
   * Every cycle proposes all branches, records the one that wins it and retires the others. A branch that lost a cycle
   * and commits later shows as two proposals of different branches, the later of which was committed.
   */
  predicate NoLoserCommits(proposals: seq<Proposal>) {
    forall i, j :: 0 <= i < j < |proposals| && proposals[j].committed ==> proposals[i].branch == proposals[j].branch
  }

  // ---------------------------------------------------------------------------
  // Two cycles
  // ---------------------------------------------------------------------------

  /** A live request of the engine, ready for the answers of all its branches. */
  predicate Answerable(cfg: Config, s: State, id: nat, depth: nat, candidates: seq<seq<Token>>, accepted: seq<nat>) {
    && id in s.requests && RequestSound(cfg, s.requests[id])
    && !s.requests[id].cancelled && !s.requests[id].terminal
    && cfg.compatible(s.requests[id].req.draft, s.requests[id].req.target)
    && Answered(candidates, accepted) && |candidates| == cfg.BranchCount() && 1 <= depth <= cfg.policy.maxDepth
    && forall i :: 0 <= i < |candidates| ==> |candidates[i]| == depth
  }

  function WinnerAmong(accepted: seq<nat>): (w: nat)
    requires |accepted| > 0
    ensures w < |accepted|
  {
    Selection.Winner(Ballots(accepted))
  }

  /** A commit block in terms of what it leaves. */
  lemma CommitLeaves(cfg: Config, s: State, id: nat, depth: nat, candidates: seq<seq<Token>>, accepted: seq<nat>)
    requires Answerable(cfg, s, id, depth, candidates, accepted)
    ensures var w, rs := WinnerAmong(accepted), s.requests[id];
            var after := Engine.Commit(s, id, depth, candidates, accepted).state;
            && id in after.requests
            && var later := after.requests[id];
               && RequestSound(cfg, later) && later.req == rs.req && !later.cancelled && !later.terminal
               && later.committed == rs.committed + candidates[w][..accepted[w]]
               && |later.proposals| == |rs.proposals| + 1 && rs.proposals <= later.proposals
               && later.proposals[|rs.proposals|].branch == w + 1
               && (later.proposals[|rs.proposals|].committed <==> accepted[w] > 0)
               && Numbered(later.branches, cfg.BranchCount())
               && (forall b :: 0 <= b < cfg.BranchCount() && b != w ==> later.branches[b].retired)
               && (!later.branches[w].retired <==> rs.proposals == [] || !rs.branches[w].retired)
  {
    hide Selection.Winner, RetireOthers, Outcome, Counted, Policy.Pushed, RatioOf, KindOf, RequestSound;
    var w, rs := WinnerAmong(accepted), s.requests[id];
    CommittedSound(cfg, rs, w, candidates[w], accepted[w]);
    CommittedBranches(cfg, rs, w, candidates[w], accepted[w], depth);
  }

  /**
   * Two commit blocks of a request, whatever came before: when another branch wins the second, that branch was retired
   * by the first, its tokens are appended all the same, and no branch is active after it, not even the winner.
   */
  lemma LoserCommits(
    cfg: Config, s: State, id: nat, depth1: nat, candidates1: seq<seq<Token>>, accepted1: seq<nat>,
    depth2: nat, candidates2: seq<seq<Token>>, accepted2: seq<nat>)
    requires Answerable(cfg, s, id, depth1, candidates1, accepted1)
    requires var first := Engine.Commit(s, id, depth1, candidates1, accepted1).state;
             Answerable(cfg, first, id, depth2, candidates2, accepted2)
    requires WinnerAmong(accepted1) != WinnerAmong(accepted2)
    ensures var w := WinnerAmong(accepted2);
            var first := Engine.Commit(s, id, depth1, candidates1, accepted1).state;
            var second := Engine.Commit(first, id, depth2, candidates2, accepted2).state;
            && w < |first.requests[id].branches| && first.requests[id].branches[w].retired && id in second.requests
            && second.requests[id].committed == first.requests[id].committed + candidates2[w][..accepted2[w]]
            && forall b :: 0 <= b < |second.requests[id].branches| ==> second.requests[id].branches[b].retired
  {
    hide Engine.Commit, RequestSound, WinnerAmong;
    CommitLeaves(cfg, s, id, depth1, candidates1, accepted1);
    var first := Engine.Commit(s, id, depth1, candidates1, accepted1).state;
    CommitLeaves(cfg, first, id, depth2, candidates2, accepted2);
  }

  // ---------------------------------------------------------------------------
  // Engines that never plan a cycle
  // ---------------------------------------------------------------------------

  /** A configuration with which some request is planned a cycle. */
  ghost predicate Speculating(cfg: Config) {
    && cfg.executors && cfg.policy.speculatingEnabled && cfg.policy.minAcceptanceRatio <= 1.0
    && exists draft, target :: cfg.compatible(draft, target)
  }

  /** Nothing in flight, nothing proposed. */
  predicate Idle(y: System) {
    y.flights == map[] && forall id :: id in y.state.requests ==> y.state.requests[id].proposals == []
  }

  lemma RatioIsAtMostOne(y: System)
    requires BooksBalance(y)
    ensures AcceptanceRatio(y.state.stats) <= 1.0
  {
    var stats := y.state.stats;
    if stats.tokensProposed != 0 {
      Fraction(stats.tokensAccepted as real, stats.tokensProposed as real);
    }
  }

  lemma Fraction(a: real, b: real)
    requires 0.0 <= a <= b && b > 0.0
    ensures a / b <= 1.0
  {
  }

  lemma NothingIsPlanned(cfg: Config, y: System, f: nat, id: nat, now: nat)
    requires cfg.Valid() && Sound(cfg, y) && !Speculating(cfg) && Idle(y) && id in y.state.requests
    ensures Idle(Launched(y, Engine.Prepare(cfg, y.state, id, now), f, id, now))
  {
    hide RequestsSound, FlightsSound, BooksBalance, Engine.Prepare, AcceptanceRatio, PlannedDepth;
    PrepareEvolves(cfg, y.state, id, now);
    RatioIsAtMostOne(y);
  }

  lemma StaysIdle(cfg: Config, gate: Gate, y: System, a: Action)
    requires cfg.Valid() && Sound(cfg, y) && !Speculating(cfg) && Idle(y)
    ensures Idle(Next(cfg, gate, y, a))
  {
    hide RequestSound, BooksBalance, Speculating, Launched, Engine.Prepare, Moved, AllRetired, UncommittedTokens,
         ActiveCount, Admitted;
    if a.Submit? && a.req.id != 0 {
      SubmitEvolves(cfg, y.state, a.req);
      AdmittedStands(cfg, a.req);
    } else if Allowed(cfg, y, a) && a.Prepare? && a.id in y.state.requests {
      NothingIsPlanned(cfg, y, a.flight, a.id, a.now);
    }
  }

  lemma {:induction false} IdleRun(cfg: Config, gate: Gate, y: System, actions: seq<Action>)
    requires cfg.Valid() && Sound(cfg, y) && !Speculating(cfg) && Idle(y)
    ensures Idle(Run(cfg, gate, y, actions))
    decreases |actions|
  {
    hide RequestsSound, FlightsSound, BooksBalance, Speculating, Idle, Next;
    if |actions| > 0 {
      StaysIdle(cfg, gate, y, actions[0]);
      NextEvolves(cfg, gate, y, actions[0]);
      NextBalances(cfg, gate, y, actions[0]);
      IdleRun(cfg, gate, Next(cfg, gate, y, actions[0]), actions[1..]);
    }
  }

  // ---------------------------------------------------------------------------
  // A run in which a loser commits
  // ---------------------------------------------------------------------------

  /** A request that is planned a cycle as long as nothing has been proposed. */
  predicate Planable(cfg: Config, req: Request) {
    && cfg.Valid() && cfg.executors && cfg.policy.speculatingEnabled && cfg.policy.minAcceptanceRatio <= 1.0
    && cfg.compatible(req.draft, req.target) && req.id != 0 && req.deadline == None
  }

  /** The request as submitted, in an engine that has proposed nothing. */
  predicate Fresh(s: State, req: Request) {
    Stands(s, req, 1) && s.stats.tokensProposed == 0 && s.history == []
  }

  function Depth(cfg: Config): (d: u32)
    requires cfg.Valid()
    ensures d >= 1
  {
    PlannedDepth(cfg.policy, [])
  }

  lemma SubmitFresh(cfg: Config, gate: Gate, y: System, req: Request)
    requires Planable(cfg, req) && Sound(cfg, y) && req.id !in y.state.requests
    requires y.state.stats.tokensProposed == 0 && y.state.history == []
    ensures var next := Next(cfg, gate, y, Submit(req));
            Fresh(next.state, req) && next.flights == y.flights
  {
    hide RequestSound, BooksBalance;
    SubmitEvolves(cfg, y.state, req);
    AdmittedStands(cfg, req);
  }

  /** A flight of the first attempt with these answers so far. */
  predicate Flying(cfg: Config, flight: Flight, req: Request, candidates: seq<seq<Token>>, accepted: seq<nat>)
    requires cfg.Valid()
  {
    && flight.request == req.id && flight.attempt == 1 && flight.baseGen == 0 && flight.depth == Depth(cfg)
    && flight.candidates == candidates && flight.accepted == accepted
  }

  lemma PrepareFresh(cfg: Config, gate: Gate, y: System, req: Request, f: nat)
    requires Planable(cfg, req) && Sound(cfg, y) && Fresh(y.state, req) && f !in y.flights
    ensures var next := Next(cfg, gate, y, Prepare(f, req.id, 0));
            && Fresh(next.state, req) && f in next.flights && next.flights == y.flights[f := next.flights[f]]
            && Flying(cfg, next.flights[f], req, [], [])
  {
    hide RequestSound, BooksBalance, FlightsSound, PlannedDepth, Dispatched, Lifecycle.IsTerminal;
    PrepareEvolves(cfg, y.state, req.id, 0);
  }

  /** The same candidate for the next m branches. */
  function Proposing(f: nat, candidate: seq<Token>, m: nat): (actions: seq<Action>)
    ensures |actions| == m
  {
    if m == 0 then [] else [Propose(f, candidate)] + Proposing(f, candidate, m - 1)
  }

  function Verifying(f: nat, votes: seq<nat>): (actions: seq<Action>)
    ensures |actions| == |votes|
  {
    if |votes| == 0 then [] else [Verify(f, votes[0])] + Verifying(f, votes[1..])
  }

  function Copies(candidate: seq<Token>, n: nat): (c: seq<seq<Token>>)
    ensures |c| == n && forall i :: 0 <= i < n ==> c[i] == candidate
  {
    seq(n, i requires 0 <= i < n => candidate)
  }

  /** Only the given flight moves. */
  predicate OnlyFlight(y: System, z: System, f: nat) {
    z.state == y.state && f in z.flights && z.flights == y.flights[f := z.flights[f]]
  }

  lemma {:induction false} ProposeAll(
    cfg: Config, gate: Gate, y: System, req: Request, f: nat, candidate: seq<Token>, n: nat, m: nat)
    requires cfg.Valid() && Sound(cfg, y) && f in y.flights && n + m == cfg.BranchCount()
    requires Flying(cfg, y.flights[f], req, Copies(candidate, n), []) && |candidate| == Depth(cfg)
    ensures var z := Run(cfg, gate, y, Proposing(f, candidate, m));
            OnlyFlight(y, z, f) && Flying(cfg, z.flights[f], req, Copies(candidate, n + m), [])
    decreases m
  {
    hide RequestsSound, BooksBalance, FlightsSound, Run, Depth, Next;
    if m == 0 {
      RunNothing(cfg, gate, y);
    } else {
      var a, rest := Propose(f, candidate), Proposing(f, candidate, m - 1);
      RunStep(cfg, gate, y, a, rest);
      ProposeOne(cfg, gate, y, req, f, candidate, n);
      ProposeAll(cfg, gate, Next(cfg, gate, y, a), req, f, candidate, n + 1, m - 1);
    }
  }

  lemma ProposeOne(cfg: Config, gate: Gate, y: System, req: Request, f: nat, candidate: seq<Token>, n: nat)
    requires cfg.Valid() && FlightsSound(cfg, y) && f in y.flights && n < cfg.BranchCount()
    requires Flying(cfg, y.flights[f], req, Copies(candidate, n), []) && |candidate| == Depth(cfg)
    ensures var z := Next(cfg, gate, y, Propose(f, candidate));
            OnlyFlight(y, z, f) && Flying(cfg, z.flights[f], req, Copies(candidate, n + 1), [])
  {
    hide Depth;
    assert Copies(candidate, n + 1) == Copies(candidate, n) + [candidate];
  }

  lemma {:induction false} VerifyAll(
    cfg: Config, gate: Gate, y: System, req: Request, f: nat, candidates: seq<seq<Token>>, before: seq<nat>,
    votes: seq<nat>)
    requires cfg.Valid() && Sound(cfg, y) && f in y.flights && Flying(cfg, y.flights[f], req, candidates, before)
    requires |before| + |votes| == |candidates| == cfg.BranchCount()
    requires forall i :: 0 <= i < |votes| ==> votes[i] <= |candidates[|before| + i]|
    ensures var z := Run(cfg, gate, y, Verifying(f, votes));
            OnlyFlight(y, z, f) && Flying(cfg, z.flights[f], req, candidates, before + votes)
    decreases |votes|
  {
    hide RequestsSound, BooksBalance, FlightsSound, Run, Depth, Next;
    if |votes| == 0 {
      RunNothing(cfg, gate, y);
      assert before + votes == before;
    } else {
      var a := Verify(f, votes[0]);
      RunStep(cfg, gate, y, a, Verifying(f, votes[1..]));
      VerifyOne(cfg, gate, y, req, f, candidates, before, votes[0]);
      assert (before + [votes[0]]) + votes[1..] == before + votes;
      VerifyAll(cfg, gate, Next(cfg, gate, y, a), req, f, candidates, before + [votes[0]], votes[1..]);
    }
  }

  lemma VerifyOne(
    cfg: Config, gate: Gate, y: System, req: Request, f: nat, candidates: seq<seq<Token>>, before: seq<nat>, vote: nat)
    requires cfg.Valid() && FlightsSound(cfg, y) && f in y.flights && Flying(cfg, y.flights[f], req, candidates, before)
    requires |before| < |candidates| == cfg.BranchCount() && vote <= |candidates[|before|]|
    ensures var z := Next(cfg, gate, y, Verify(f, vote));
            OnlyFlight(y, z, f) && Flying(cfg, z.flights[f], req, candidates, before + [vote])
  {
    hide Depth;
  }

  lemma {:induction false} RunSplits(cfg: Config, gate: Gate, y: System, p: seq<Action>, q: seq<Action>)
    requires cfg.Valid() && Sound(cfg, y)
    ensures Run(cfg, gate, y, p + q) == Run(cfg, gate, Run(cfg, gate, y, p), q)
    decreases |p|
  {
    hide RequestsSound, FlightsSound, BooksBalance, Next;
    if |p| == 0 {
      assert p + q == q;
    } else {
      assert (p + q)[1..] == p[1..] + q;
      RunStep(cfg, gate, y, p[0], p[1..]);
      RunSplits(cfg, gate, Next(cfg, gate, y, p[0]), p[1..], q);
    }
  }

  /** A cycle put in flight with all its answers: one candidate for every branch, and the given votes. */
  function Launching(req: Request, f: nat, candidate: seq<Token>, votes: seq<nat>): seq<Action> {
    [Prepare(f, req.id, 0)] + (Proposing(f, candidate, |votes|) + Verifying(f, votes))
  }

  lemma LaunchFresh(cfg: Config, gate: Gate, y: System, req: Request, f: nat, candidate: seq<Token>, votes: seq<nat>)
    requires Planable(cfg, req) && Sound(cfg, y) && Fresh(y.state, req) && f !in y.flights
    requires |candidate| == Depth(cfg) && |votes| == cfg.BranchCount()
    requires forall i :: 0 <= i < |votes| ==> votes[i] <= Depth(cfg)
    ensures var z := Run(cfg, gate, y, Launching(req, f, candidate, votes));
            && Fresh(z.state, req) && f in z.flights && z.flights == y.flights[f := z.flights[f]]
            && Flying(cfg, z.flights[f], req, Copies(candidate, |votes|), votes)
  {
    hide RequestsSound, BooksBalance, FlightsSound, Run, Depth, Next, Fresh, Planable, Flying;
    PlanableIsValid(cfg, req);
    var proposing, verifying := Proposing(f, candidate, |votes|), Verifying(f, votes);
    RunStep(cfg, gate, y, Prepare(f, req.id, 0), proposing + verifying);
    PrepareFresh(cfg, gate, y, req, f);
    var y1 := Next(cfg, gate, y, Prepare(f, req.id, 0));
    RunSplits(cfg, gate, y1, proposing, verifying);
    assert Copies(candidate, 0) == [];
    ProposeAll(cfg, gate, y1, req, f, candidate, 0, |votes|);
    var y2 := Run(cfg, gate, y1, proposing);
    assert [] + votes == votes;
    VerifyAll(cfg, gate, y2, req, f, Copies(candidate, |votes|), [], votes);
  }

  lemma PlanableIsValid(cfg: Config, req: Request)
    requires Planable(cfg, req)
    ensures cfg.Valid()
  {
  }

  /** A live request on its first attempt and base. */
  predicate Open(s: State, req: Request) {
    && req.id in s.requests && s.requests[req.id].req == req && s.requests[req.id].attempt == 1
    && s.requests[req.id].authGen == 0 && !s.requests[req.id].cancelled && !s.requests[req.id].terminal
  }

  /** With or without the gate such a flight commits. */
  lemma CommitOpen(
    cfg: Config, gate: Gate, y: System, req: Request, f: nat, candidates: seq<seq<Token>>, votes: seq<nat>)
    requires cfg.Valid() && Sound(cfg, y) && Open(y.state, req) && f in y.flights
    requires |votes| == |candidates| == cfg.BranchCount() && Flying(cfg, y.flights[f], req, candidates, votes)
    ensures var w, next := WinnerAmong(votes), Next(cfg, gate, y, Commit(f));
            && next.flights == y.flights - {f} && req.id in next.state.requests
            && (votes[w] == 0 ==> Open(next.state, req))
            && var before, after := y.state.requests[req.id].proposals, next.state.requests[req.id].proposals;
               && |after| == |before| + 1 && before <= after
               && after[|before|].branch == w + 1 && (after[|before|].committed <==> votes[w] > 0)
  {
    hide RequestsSound, BooksBalance, FlightSound, Landed, Depth;
    var flight := y.flights[f];
    assert FlightSound(cfg, y.state, flight);
    LiteralCommit(cfg, y.state, flight);
    if gate == Guarded {
      GuardedCommit(cfg, y.state, flight);
    }
  }

  /** No branch accepts anything; or only branch 2 does, and everything. */
  function NoVotes(n: nat): (votes: seq<nat>)
    ensures |votes| == n
  {
    seq<nat>(n, i requires 0 <= i < n => 0)
  }

  function VotesForTwo(n: nat, depth: nat): (votes: seq<nat>)
    ensures |votes| == n
  {
    seq<nat>(n, i requires 0 <= i < n => if i == 1 then depth else 0)
  }

  lemma VotesDecide(n: nat, depth: nat)
    requires n >= 2 && depth >= 1
    ensures WinnerAmong(NoVotes(n)) == 0 && NoVotes(n)[0] == 0
    ensures WinnerAmong(VotesForTwo(n, depth)) == 1 && VotesForTwo(n, depth)[1] == depth
  {
    hide Selection.Winner;
    Selection.FirstOfTheBest(Ballots(NoVotes(n)), 0);
    Selection.WinnerIsUnbeaten(Ballots(VotesForTwo(n, depth)), 1);
  }

  /** Two cycles in flight at once, so that no outstanding limit and no ratio stops the second; then both commit. */
  function TwoCycles(cfg: Config, req: Request, candidate: seq<Token>): seq<Action>
    requires cfg.Valid()
  {
    [Submit(req)] + (Launching(req, 0, candidate, NoVotes(cfg.BranchCount()))
    + (Launching(req, 1, candidate, VotesForTwo(cfg.BranchCount(), Depth(cfg))) + ([Commit(0)] + ([Commit(1)] + []))))
  }

  lemma BothInFlight(cfg: Config, gate: Gate, y: System, req: Request, candidate: seq<Token>) returns (z: System)
    requires Planable(cfg, req) && cfg.BranchCount() >= 2 && |candidate| == Depth(cfg)
    requires Sound(cfg, y) && y.flights == map[] && req.id !in y.state.requests
    requires y.state.stats.tokensProposed == 0 && y.state.history == []
    ensures Sound(cfg, z) && Fresh(z.state, req) && 0 in z.flights && 1 in z.flights
    ensures var n := cfg.BranchCount();
            && Flying(cfg, z.flights[0], req, Copies(candidate, n), NoVotes(n))
            && Flying(cfg, z.flights[1], req, Copies(candidate, n), VotesForTwo(n, Depth(cfg)))
    ensures Run(cfg, gate, y, TwoCycles(cfg, req, candidate)) == Run(cfg, gate, z, [Commit(0)] + ([Commit(1)] + []))
  {
    hide RequestsSound, BooksBalance, FlightsSound, Run, Next, Fresh, Planable, Flying, Depth, Launching;
    PlanableIsValid(cfg, req);
    var n := cfg.BranchCount();
    var last := [Commit(0)] + ([Commit(1)] + []);
    var first := Launching(req, 0, candidate, NoVotes(n));
    var second := Launching(req, 1, candidate, VotesForTwo(n, Depth(cfg)));
    RunStep(cfg, gate, y, Submit(req), first + (second + last));
    SubmitFresh(cfg, gate, y, req);
    var y1 := Next(cfg, gate, y, Submit(req));
    RunSplits(cfg, gate, y1, first, second + last);
    LaunchFresh(cfg, gate, y1, req, 0, candidate, NoVotes(n));
    var y2 := Run(cfg, gate, y1, first);
    RunSplits(cfg, gate, y2, second, last);
    LaunchFresh(cfg, gate, y2, req, 1, candidate, VotesForTwo(n, Depth(cfg)));
    z := Run(cfg, gate, y2, second);
  }

  /**
   * Branch 1 wins the first of these cycles and branch 2, which it retired, commits in the second, gate or no gate.
   */
  lemma LoserCommitsInTheEnd(cfg: Config, gate: Gate, y: System, req: Request, candidate: seq<Token>)
    requires Planable(cfg, req) && cfg.BranchCount() >= 2 && |candidate| == Depth(cfg)
    requires Sound(cfg, y) && y.flights == map[] && req.id !in y.state.requests
    requires y.state.stats.tokensProposed == 0 && y.state.history == []
    ensures var after := Run(cfg, gate, y, TwoCycles(cfg, req, candidate)).state;
            && req.id in after.requests
            && var proposals := after.requests[req.id].proposals;
               && |proposals| == 2 && proposals[0].branch == 1 && proposals[1].branch == 2 && proposals[1].committed
               && !NoLoserCommits(proposals)
  {
    hide RequestsSound, BooksBalance, FlightsSound, Run, Next, Planable, Depth, TwoCycles, NoVotes, VotesForTwo,
         Copies;
    PlanableIsValid(cfg, req);
    var n := cfg.BranchCount();
    VotesDecide(n, Depth(cfg));
    var z := BothInFlight(cfg, gate, y, req, candidate);
    RunStep(cfg, gate, z, Commit(0), [Commit(1)] + []);
    CommitOpen(cfg, gate, z, req, 0, Copies(candidate, n), NoVotes(n));
    var z1 := Next(cfg, gate, z, Commit(0));
    RunStep(cfg, gate, z1, Commit(1), []);
    CommitOpen(cfg, gate, z1, req, 1, Copies(candidate, n), VotesForTwo(n, Depth(cfg)));
    RunNothing(cfg, gate, Next(cfg, gate, z1, Commit(1)));
  }

  // ---------------------------------------------------------------------------
  // Exactly when losers stay out
  // ---------------------------------------------------------------------------

  /** In no run does a branch that lost a cycle commit later. */
  ghost predicate LosersStayOut(cfg: Config, gate: Gate, start: System)
    requires cfg.Valid() && Sound(cfg, start)
  {
    forall actions, id :: id in Run(cfg, gate, start, actions).state.requests ==>
      NoLoserCommits(Run(cfg, gate, start, actions).state.requests[id].proposals)
  }

  lemma OneBranchNeverLoses(cfg: Config, y: System, id: nat)
    requires Sound(cfg, y) && cfg.BranchCount() == 1 && id in y.state.requests
    ensures NoLoserCommits(y.state.requests[id].proposals)
  {
    hide FlightsSound, BooksBalance, TokensSound, CountersSound, PhaseSound;
    assert RequestSound(cfg, y.state.requests[id]);
  }

  lemma EmptyEngine(start: System)
    requires start == INITIAL
    ensures Idle(start) && start.state.requests == map[] && start.flights == map[]
    ensures start.state.stats.tokensProposed == 0 && start.state.history == []
  {
  }

  /**
   * Over every run of an engine that starts empty, with executors that keep to their contract, with the gate and
   * without: losing branches cannot later commit exactly when the engine runs one branch or never plans a cycle at
   * all.
   */
  lemma LosersStayOutIff(cfg: Config, gate: Gate, start: System)
    requires cfg.Valid() && start == INITIAL
    ensures Sound(cfg, start)
    ensures LosersStayOut(cfg, gate, start) <==> cfg.BranchCount() == 1 || !Speculating(cfg)
  {
    hide Sound, Run, INITIAL, NoLoserCommits, Idle, TwoCycles, Planable;
    InitialIsSound(cfg);
    EmptyEngine(start);
    if cfg.BranchCount() == 1 || !Speculating(cfg) {
      forall actions, id | id in Run(cfg, gate, start, actions).state.requests
        ensures NoLoserCommits(Run(cfg, gate, start, actions).state.requests[id].proposals)
      {
        NoLosersIn(cfg, gate, start, actions, id);
      }
    } else {
      var draft, target :| cfg.compatible(draft, target);
      var req := Request(1, 0, [], draft, target, 0, None);
      PlanableRequest(cfg, req);
      var candidate := seq(Depth(cfg), i requires 0 <= i < Depth(cfg) => 0);
      LoserCommitsInTheEnd(cfg, gate, start, req, candidate);
    }
  }

  lemma NoLosersIn(cfg: Config, gate: Gate, start: System, actions: seq<Action>, id: nat)
    requires cfg.Valid() && Sound(cfg, start) && Idle(start) && (cfg.BranchCount() == 1 || !Speculating(cfg))
    requires id in Run(cfg, gate, start, actions).state.requests
    ensures NoLoserCommits(Run(cfg, gate, start, actions).state.requests[id].proposals)
  {
    hide Sound, Run, Speculating;
    if cfg.BranchCount() == 1 {
      OneBranchNeverLoses(cfg, Run(cfg, gate, start, actions), id);
    } else {
      IdleRun(cfg, gate, start, actions);
    }
  }

  lemma PlanableRequest(cfg: Config, req: Request)
    requires cfg.Valid() && Speculating(cfg)
    requires cfg.compatible(req.draft, req.target) && req.id != 0 && req.deadline == None
    ensures Planable(cfg, req)
  {
  }
}
