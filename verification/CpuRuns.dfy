/**
 * Whole runs with the CPU executors: not only how many tokens become authoritative but which ones. With faithful
 * acceptance they are the target paths of the bases the cycles started from, in every serial run and in every
 * concurrent run behind the authority gate.
 */
module CpuRuns {
  import opened Words
  import opened Executors
  import opened Policy
  import opened Engine
  import opened EngineRuns
  import opened Serializability
  import opened CpuCycles
  import Synthetic
  import Production
  import Lifecycle
  import Selection

  /** The target tokens of n cycles of m tokens each, every cycle based on where the one before it ended. */
  function Story(a: Synthetic.Arithmetic, start: RequestState, depth: u32, m: nat, n: nat): (tokens: seq<Token>)
    ensures |tokens| == n * m
  {
    if n == 0 then []
    else
      var done: nat := (n - 1) * m;
      OneMore(n - 1, m);
      Story(a, start, depth, m, n - 1)
      + SourceOf(
          a, StateRef(start.authState.id, start.authState.generation + done), start.authGen + done, start.req.draft,
          depth)
          .TargetPath(m)
  }

  lemma OneMore(n: int, m: int)
    ensures (n + 1) * m == n * m + m
  {
  }

  /** Cycles completed since the start. */
  function Since(start: RequestState, rs: RequestState): int {
    rs.completedCycles - start.completedCycles
  }

  /**
   * A request some cycles after the start: the tokens appended are the story of those cycles, the generations stand at
   * its end, and every proposal recorded since is branch 1's.
   */
  predicate Tells(a: Synthetic.Arithmetic, start: RequestState, depth: u32, m: nat, rs: RequestState) {
    var n := Since(start, rs);
    && n >= 0 && rs.req == start.req
    && rs.committed == start.committed + Story(a, start, depth, m, n)
    && rs.authGen == start.authGen + n * m
    && rs.authState == StateRef(start.authState.id, start.authState.generation + n * m)
    && |rs.proposals| == |start.proposals| + n && start.proposals <= rs.proposals
    && forall i :: |start.proposals| <= i < |rs.proposals| ==> rs.proposals[i].branch == 1
  }

  lemma TellsItself(a: Synthetic.Arithmetic, start: RequestState, depth: u32, m: nat)
    ensures Tells(a, start, depth, m, start)
  {
    assert start.committed + [] == start.committed;
  }

  lemma TellsOneMore(
    a: Synthetic.Arithmetic, start: RequestState, depth: u32, m: nat, rs: RequestState, after: RequestState)
    requires Tells(a, start, depth, m, rs) && AppendedExactly(rs, after, BaseOf(a, rs, depth).TargetPath(m))
    ensures Tells(a, start, depth, m, after)
  {
    hide Source.TargetPath;
    var n := Since(start, rs);
    OneMore(n, m);
    var block := BaseOf(a, rs, depth).TargetPath(m);
    assert Story(a, start, depth, m, n + 1) == Story(a, start, depth, m, n) + block;
    assert (start.committed + Story(a, start, depth, m, n)) + block
           == start.committed + (Story(a, start, depth, m, n) + block);
  }

  /** The tellable part of a request is all a step must keep. */
  lemma TellsStill(
    a: Synthetic.Arithmetic, start: RequestState, depth: u32, m: nat, rs: RequestState, after: RequestState)
    requires Tells(a, start, depth, m, rs)
    requires after.req == rs.req && after.committed == rs.committed && after.authGen == rs.authGen
    requires after.authState == rs.authState && after.completedCycles == rs.completedCycles
    requires after.proposals == rs.proposals
    ensures Tells(a, start, depth, m, after)
  {
    hide Story;
  }

  // ---------------------------------------------------------------------------
  // Serial steps
  // ---------------------------------------------------------------------------

  /** Everything a run is about: the model, how much is aligned, what counts as accepted, and the depth. */
  datatype Setting = Setting(a: Synthetic.Arithmetic, aligned: u32, acceptance: Acceptance, depth: u32) {
    predicate Good(cfg: Config) {
      && cfg.Valid() && 1 <= depth <= MAX_DEPTH && cfg.BranchCount() < Synthetic.VOCAB
      && Faithful(acceptance, aligned, depth)
    }

    function Pair(): Serializability.Pair {
      Cpu(a, aligned, acceptance)
    }

    function Block(): nat {
      Min(aligned, depth)
    }
  }

  /** The steps run their cycles at the setting's depth; whole cycles do when the policy does not adapt it. */
  predicate AtDepth(cfg: Config, depth: u32, action: SerialAction) {
    && (action.CycleNow? ==> action.depth == depth)
    && (action.RunNow? ==> !cfg.policy.adaptiveDepthEnabled && FixedDepth(cfg, depth))
  }

  /** A request of a state that tells the story since the start, with a real id and tokenizer. */
  predicate Telling(w: Setting, start: RequestState, s: Engine.State, id: nat) {
    && id in s.requests && start.req.id != 0 && start.req.draft.tokenizer != 0
    && Tells(w.a, start, w.depth, w.Block(), s.requests[id])
  }

  lemma FinishedCycle(cfg: Config, x: Serializability.Pair, s: Engine.State, id: nat, depth: u32)
    requires id in s.requests && (s.requests[id].cancelled || s.requests[id].terminal)
    ensures AtomicCycle(cfg, x, s, id, depth).requests == s.requests
  {
  }

  lemma OtherCycle(cfg: Config, x: Serializability.Pair, s: Engine.State, id: nat, depth: u32)
    ensures var after := AtomicCycle(cfg, x, s, id, depth).requests;
            forall other :: other in s.requests && other != id ==> other in after && after[other] == s.requests[other]
  {
    hide Selection.Winner, Committed, Outcome, Counted, Pushed, RatioOf, KindOf, Drafts, Verdicts;
  }

  lemma CycleTells(cfg: Config, w: Setting, start: RequestState, s: Engine.State, id: nat, of: nat)
    requires w.Good(cfg) && Telling(w, start, s, id)
    ensures Telling(w, start, AtomicCycle(cfg, w.Pair(), s, of, w.depth), id)
  {
    hide AtomicCycle, Tells, Min, Cpu, Faithful;
    if of != id {
      OtherCycle(cfg, w.Pair(), s, of, w.depth);
    } else if s.requests[id].cancelled || s.requests[id].terminal {
      FinishedCycle(cfg, w.Pair(), s, id, w.depth);
    } else {
      SameDraftModel(w, start, s.requests[id]);
      FaithfulCycleAppendsExactly(cfg, w.a, w.aligned, w.acceptance, s, id, w.depth);
      TellsOneMore(w.a, start, w.depth, w.Block(), s.requests[id],
                   AtomicCycle(cfg, w.Pair(), s, id, w.depth).requests[id]);
    }
  }

  lemma SameDraftModel(w: Setting, start: RequestState, rs: RequestState)
    requires Tells(w.a, start, w.depth, w.Block(), rs)
    ensures rs.req == start.req
  {
  }

  /** A prepare block changes at most a phase, and plans the fixed depth. */
  lemma PrepareTells(cfg: Config, w: Setting, start: RequestState, s: Engine.State, id: nat, of: nat, now: nat)
    requires cfg.Valid() && Telling(w, start, s, id)
    ensures var prepared := Engine.Prepare(cfg, s, of, now);
            && Telling(w, start, prepared.state, id)
            && (Plans(prepared) && !cfg.policy.adaptiveDepthEnabled ==> FixedDepth(cfg, prepared.value.value.depth))
  {
    hide Tells, Dispatched, Backpressure, AcceptanceRatio, Lifecycle.IsTerminal, Late;
    var prepared := Engine.Prepare(cfg, s, of, now).state;
    if of == id {
      TellsStill(w.a, start, w.depth, w.Block(), s.requests[id], prepared.requests[id]);
    }
  }

  lemma ControlTells(cfg: Config, w: Setting, start: RequestState, s: Engine.State, id: nat, action: SerialAction)
    requires cfg.Valid() && Telling(w, start, s, id) && !action.CycleNow? && !action.RunNow?
    ensures Telling(w, start, SerialNext(cfg, w.Pair(), s, action), id)
  {
    hide Tells, Moved, AllRetired, UncommittedTokens, ActiveCount, Admitted, AtomicCycle, WholeCycle;
    SameDraftModel(w, start, s.requests[id]);
    var after := SerialNext(cfg, w.Pair(), s, action);
    TellsStill(w.a, start, w.depth, w.Block(), s.requests[id], after.requests[id]);
  }

  lemma StepTells(cfg: Config, w: Setting, start: RequestState, s: Engine.State, id: nat, action: SerialAction)
    requires w.Good(cfg) && Telling(w, start, s, id) && AtDepth(cfg, w.depth, action)
    ensures Telling(w, start, SerialNext(cfg, w.Pair(), s, action), id)
  {
    hide Telling, AtomicCycle, Engine.Prepare, PlannedDepth;
    match action {
      case CycleNow(of, depth) =>
        CycleTells(cfg, w, start, s, id, of);
      case RunNow(of, now) =>
        PrepareTells(cfg, w, start, s, id, of, now);
        CycleTells(cfg, w, start, Engine.Prepare(cfg, s, of, now).state, id, of);
      case _ =>
        ControlTells(cfg, w, start, s, id, action);
    }
  }

  // ---------------------------------------------------------------------------
  // Every run
  // ---------------------------------------------------------------------------

  predicate AllAtDepth(cfg: Config, depth: u32, actions: seq<SerialAction>) {
    forall i :: 0 <= i < |actions| ==> AtDepth(cfg, depth, actions[i])
  }

  /**
   * Over every serial run, whatever submissions, cancellations, retries and rollbacks happen in it, the tokens a
   * request has gained are exactly the target paths of its completed cycles' bases, one after another.
   */
  lemma {:induction false} RunsTellTheStory(
    cfg: Config, w: Setting, start: RequestState, s: Engine.State, id: nat, actions: seq<SerialAction>)
    requires w.Good(cfg) && Telling(w, start, s, id) && AllAtDepth(cfg, w.depth, actions)
    ensures Telling(w, start, SerialRun(cfg, w.Pair(), s, actions), id)
    decreases |actions|
  {
    hide Telling, SerialNext, AtDepth;
    if |actions| > 0 {
      StepTells(cfg, w, start, s, id, actions[0]);
      RunsTellTheStory(cfg, w, start, SerialNext(cfg, w.Pair(), s, actions[0]), id, actions[1..]);
    }
  }

  /** The serial counterpart of a run under a policy that does not adapt its depth. */
  lemma {:induction false} SerialAtDepth(cfg: Config, grain: Grain, y: System, actions: seq<Action>, depth: u32)
    requires cfg.Valid() && !cfg.policy.adaptiveDepthEnabled && FixedDepth(cfg, depth) && Sound(cfg, y)
    ensures AllAtDepth(cfg, depth, Serial(cfg, grain, y, actions))
    decreases |actions|
  {
    hide RequestsSound, BooksBalance, Next, PlannedDepth;
    if |actions| > 0 {
      NextEvolves(cfg, Guarded, y, actions[0]);
      NextBalances(cfg, Guarded, y, actions[0]);
      SerialAtDepth(cfg, grain, Next(cfg, Guarded, y, actions[0]), actions[1..], depth);
    }
  }

  /** The setting fits the configuration: the policy plans its depth and nothing else. */
  predicate Fits(cfg: Config, w: Setting) {
    w.Good(cfg) && !cfg.policy.adaptiveDepthEnabled && FixedDepth(cfg, w.depth)
  }

  /**
   * And over every concurrent run behind the authority gate, however the blocks of any number of cycles interleave.
   * With the shipped counter this needs a depth that exceeds the alignment by at most one.
   */
  lemma ConcurrentRunsTellTheStory(
    cfg: Config, w: Setting, start: RequestState, y: System, actions: seq<Action>, id: nat)
    requires Fits(cfg, w) && Sound(cfg, y) && y.flights == map[]
    requires Driven(cfg, w.Pair(), y, actions) && Telling(w, start, y.state, id)
    ensures Telling(w, start, Run(cfg, Guarded, y, actions).state, id)
  {
    hide RequestsSound, BooksBalance, Next, SerialRun, Run, Serial, Driven, Deterministic, PlannedDepth,
        Promised, Shipped, Tells;
    ShippedAreDeterministic(w.a, w.aligned);
    QuietSystemsSerialize(cfg, w.Pair(), AfterPrepare, y, actions);
    SerialAtDepth(cfg, AfterPrepare, y, actions, w.depth);
    RunsTellTheStory(cfg, w, start, y.state, id, Serial(cfg, AfterPrepare, y, actions));
    var serial := SerialRun(cfg, w.Pair(), y.state, Serial(cfg, AfterPrepare, y, actions));
    var after := Run(cfg, Guarded, y, actions).state;
    assert SameRequest(after.requests[id], serial.requests[id]);
    TellsStill(w.a, start, w.depth, w.Block(), serial.requests[id], after.requests[id]);
  }

  // ---------------------------------------------------------------------------
  // One branch wins them all
  // ---------------------------------------------------------------------------

  /** Every recorded proposal is branch 1's: no branch has lost a cycle and won another. */
  predicate OnlyBranchOne(s: Engine.State) {
    forall id :: id in s.requests ==> AllFromOne(s.requests[id].proposals)
  }

  predicate AllFromOne(proposals: seq<Proposal>) {
    forall i :: 0 <= i < |proposals| ==> proposals[i].branch == 1
  }

  /** Without a tokenizer the verifier fails, which accepts nothing. */
  lemma NoTokenizerNothingAccepted(cfg: Config, w: Setting, rs: RequestState, depth: u32, drafts: seq<seq<Token>>)
    requires rs.req.draft.tokenizer == 0 && |drafts| == cfg.BranchCount()
    ensures forall b :: 0 <= b < |drafts| ==> Verdicts(cfg, w.Pair(), rs, drafts)[b] == 0
  {
    hide VerifySpec, Candidate;
    forall b: nat | b < |drafts|
      ensures Verdicts(cfg, w.Pair(), rs, drafts)[b] == 0
    {
      FailedVerdict(w.a, VerificationCapture(rs, b, drafts[b]));
    }
  }

  lemma FailedVerdict(a: Synthetic.Arithmetic, v: VerificationInput)
    requires v.tokenizer == 0
    ensures VerifySpec(a, v).acceptedPrefix == VerifySpec(a, v).firstRejection == 0
  {
    hide Flags;
  }

  lemma FaithfulWinnerIsOne(cfg: Config, w: Setting, s: Engine.State, id: nat)
    requires w.Good(cfg) && id in s.requests && !s.requests[id].cancelled && !s.requests[id].terminal
    ensures var rs, after := s.requests[id], AtomicCycle(cfg, w.Pair(), s, id, w.depth);
            && id in after.requests && |after.requests[id].proposals| == |rs.proposals| + 1
            && rs.proposals <= after.requests[id].proposals
            && after.requests[id].proposals[|rs.proposals|].branch == 1
  {
    hide AtomicCycle, Selection.Winner, Shipped, Promised, Min, Source.TargetPath;
    var rs := s.requests[id];
    if rs.req.draft.tokenizer != 0 {
      FaithfulCycleAppendsExactly(cfg, w.a, w.aligned, w.acceptance, s, id, w.depth);
    } else {
      var drafts := Drafts(cfg, w.Pair(), rs, w.depth);
      var verdicts := Verdicts(cfg, w.Pair(), rs, drafts);
      NoTokenizerNothingAccepted(cfg, w, rs, w.depth, drafts);
      CycleCommits(cfg, w.Pair(), s, id, w.depth);
      AllEqualFirstWins(verdicts, 0);
    }
  }

  lemma CycleKeepsBranchOne(cfg: Config, w: Setting, s: Engine.State, id: nat)
    requires w.Good(cfg) && OnlyBranchOne(s)
    ensures OnlyBranchOne(AtomicCycle(cfg, w.Pair(), s, id, w.depth))
  {
    hide AtomicCycle;
    if id !in s.requests {
      UnknownCycle(cfg, w.Pair(), s, id, w.depth);
    } else if s.requests[id].cancelled || s.requests[id].terminal {
      FinishedCycle(cfg, w.Pair(), s, id, w.depth);
    } else {
      FaithfulWinnerIsOne(cfg, w, s, id);
      OtherCycle(cfg, w.Pair(), s, id, w.depth);
      var after := AtomicCycle(cfg, w.Pair(), s, id, w.depth);
      forall other | other in after.requests
        ensures AllFromOne(after.requests[other].proposals)
      {
        NoNewRequest(cfg, w.Pair(), s, id, w.depth);
        assert other in s.requests && AllFromOne(s.requests[other].proposals);
      }
    }
  }

  lemma UnknownCycle(cfg: Config, x: Serializability.Pair, s: Engine.State, id: nat, depth: u32)
    requires id !in s.requests
    ensures AtomicCycle(cfg, x, s, id, depth) == s
  {
  }

  lemma NoNewRequest(cfg: Config, x: Serializability.Pair, s: Engine.State, id: nat, depth: u32)
    ensures AtomicCycle(cfg, x, s, id, depth).requests.Keys == s.requests.Keys
  {
    hide Selection.Winner, Committed, Outcome, Counted, Pushed, RatioOf, KindOf, Drafts, Verdicts;
  }

  lemma ControlKeepsBranchOne(cfg: Config, w: Setting, s: Engine.State, action: SerialAction)
    requires cfg.Valid() && OnlyBranchOne(s) && !action.CycleNow? && !action.RunNow?
    ensures OnlyBranchOne(SerialNext(cfg, w.Pair(), s, action))
  {
    hide Moved, AllRetired, UncommittedTokens, ActiveCount, AtomicCycle, WholeCycle;
  }

  lemma PrepareKeepsBranchOne(cfg: Config, s: Engine.State, id: nat, now: nat)
    requires cfg.Valid() && OnlyBranchOne(s)
    ensures var prepared := Engine.Prepare(cfg, s, id, now);
            && OnlyBranchOne(prepared.state)
            && (Plans(prepared) && !cfg.policy.adaptiveDepthEnabled ==> FixedDepth(cfg, prepared.value.value.depth))
  {
    hide Dispatched, Backpressure, AcceptanceRatio, Lifecycle.IsTerminal, Late;
  }

  lemma {:induction false} SerialRunsKeepBranchOne(cfg: Config, w: Setting, s: Engine.State, actions: seq<SerialAction>)
    requires w.Good(cfg) && OnlyBranchOne(s) && AllAtDepth(cfg, w.depth, actions)
    ensures OnlyBranchOne(SerialRun(cfg, w.Pair(), s, actions))
    decreases |actions|
  {
    hide OnlyBranchOne, AtomicCycle, Engine.Prepare, PlannedDepth;
    if |actions| > 0 {
      match actions[0] {
        case CycleNow(id, depth) =>
          CycleKeepsBranchOne(cfg, w, s, id);
        case RunNow(id, now) =>
          PrepareKeepsBranchOne(cfg, s, id, now);
          CycleKeepsBranchOne(cfg, w, Engine.Prepare(cfg, s, id, now).state, id);
        case _ =>
          ControlKeepsBranchOne(cfg, w, s, actions[0]);
      }
      SerialRunsKeepBranchOne(cfg, w, SerialNext(cfg, w.Pair(), s, actions[0]), actions[1..]);
    }
  }

  /**
   * With faithful acceptance branch 1 wins every cycle of every request, so over every concurrent run behind the gate
   * no branch that lost a cycle commits later.
   */
  lemma BranchOneAlwaysWins(cfg: Config, w: Setting, y: System, actions: seq<Action>)
    requires Fits(cfg, w) && Sound(cfg, y) && y.flights == map[]
    requires Driven(cfg, w.Pair(), y, actions) && OnlyBranchOne(y.state)
    ensures OnlyBranchOne(Run(cfg, Guarded, y, actions).state)
  {
    hide RequestsSound, BooksBalance, Next, SerialRun, Run, Serial, Driven, Deterministic, PlannedDepth, Promised,
         Shipped;
    ShippedAreDeterministic(w.a, w.aligned);
    QuietSystemsSerialize(cfg, w.Pair(), AfterPrepare, y, actions);
    SerialAtDepth(cfg, AfterPrepare, y, actions, w.depth);
    SerialRunsKeepBranchOne(cfg, w, y.state, Serial(cfg, AfterPrepare, y, actions));
    var serial := SerialRun(cfg, w.Pair(), y.state, Serial(cfg, AfterPrepare, y, actions));
    var after := Run(cfg, Guarded, y, actions).state;
    forall id | id in after.requests
      ensures AllFromOne(after.requests[id].proposals)
    {
      assert SameRequest(after.requests[id], serial.requests[id]);
    }
  }

  // ---------------------------------------------------------------------------
  // Comparing runs
  // ---------------------------------------------------------------------------

  /** Two such runs in which a request completes equally many cycles give it the same tokens. */
  lemma EquallyManyCyclesSameTokens(
    cfg: Config, w: Setting, start: RequestState, y: System, run1: seq<Action>, run2: seq<Action>, id: nat)
    requires Fits(cfg, w) && Sound(cfg, y) && y.flights == map[] && Telling(w, start, y.state, id)
    requires Driven(cfg, w.Pair(), y, run1) && Driven(cfg, w.Pair(), y, run2)
    ensures var s1, s2 := Run(cfg, Guarded, y, run1).state, Run(cfg, Guarded, y, run2).state;
            && id in s1.requests && id in s2.requests
            && (s1.requests[id].completedCycles == s2.requests[id].completedCycles ==>
                  s1.requests[id].committed == s2.requests[id].committed)
  {
    hide RequestsSound, BooksBalance, Next, Run, Driven, PlannedDepth, Promised, Shipped, Story;
    ConcurrentRunsTellTheStory(cfg, w, start, y, run1, id);
    ConcurrentRunsTellTheStory(cfg, w, start, y, run2, id);
  }

  /** Counting alone: the length is that of the start plus min(aligned, depth) tokens a completed cycle. */
  lemma ConcurrentRunsKeepPace(
    cfg: Config, w: Setting, start: RequestState, y: System, actions: seq<Action>, id: nat)
    requires Fits(cfg, w) && Sound(cfg, y) && y.flights == map[]
    requires Driven(cfg, w.Pair(), y, actions) && Telling(w, start, y.state, id)
    ensures var s := Run(cfg, Guarded, y, actions).state;
            && id in s.requests
            && |s.requests[id].committed|
               == |start.committed| + (s.requests[id].completedCycles - start.completedCycles) * Min(w.aligned, w.depth)
  {
    hide RequestsSound, BooksBalance, Next, Run, Driven, PlannedDepth, Promised, Shipped, Story, Min;
    ConcurrentRunsTellTheStory(cfg, w, start, y, actions, id);
  }

  /** The word arithmetic that ships, with its own counter: a depth of at most one more than the alignment suffices. */
  lemma ProductionRunsTellTheStory(
    cfg: Config, aligned: u32, depth: u32, start: RequestState, y: System, actions: seq<Action>, id: nat)
    requires Fits(cfg, Setting(Production.SHIPPED, aligned, Counter, depth)) && Sound(cfg, y) && y.flights == map[]
    requires Driven(cfg, Shipped(Production.SHIPPED, aligned), y, actions)
    requires id in y.state.requests && start == y.state.requests[id]
    requires start.req.id != 0 && start.req.draft.tokenizer != 0
    ensures var s := Run(cfg, Guarded, y, actions).state;
            && id in s.requests
            && Tells(Production.SHIPPED, start, depth, Min(aligned, depth), s.requests[id])
  {
    hide RequestsSound, BooksBalance, Next, Run, Driven, PlannedDepth, Shipped, Promised, Story, Min,
         Production.SHIPPED;
    var w := Setting(Production.SHIPPED, aligned, Counter, depth);
    TellsItself(w.a, start, depth, w.Block());
    ConcurrentRunsTellTheStory(cfg, w, start, y, actions, id);
  }
}
