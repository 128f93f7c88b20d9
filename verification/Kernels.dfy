/**
 * The two device kernels as barrier-phased parallel programs: one block of 16 threads, stepped one thread at a
 * time in any order, that meets at a barrier after the seeding and three times in every round.
 *
 * Every schedule gives the sequential recurrence of `Executors`, takes the same number of steps, and is free of
 * races: between two barriers no thread touches what another one writes.
 */
module Kernels {
  import opened Words
  import opened Synthetic
  import opened Executors

  const THREADS := 16

  /** What the kernel computes: a draft, or the comparison of a candidate with the target path. */
  datatype Job = Drafting(aligned: u32, branch: u32) | Checking(cand: seq<Token>)

  /** A launch: the flat weights and biases copied to the device, the seed, the job and the number of rounds. */
  datatype Kernel = Kernel(src: Source, weights: seq<u32>, bias: State, job: Job, rounds: nat) {
    predicate Valid() {
      && weights == Flat(src.m) && bias == src.m.bias
      && (job.Checking? ==> |job.cand| == rounds)
    }

    /** The tokens the sequential loop has fed back before round i. */
    function Path(i: nat): (s: seq<Token>)
      ensures |s| == i
    {
      match job
      case Drafting(aligned, branch) => src.Draft(aligned, branch, i)
      case Checking(_) => src.TargetPath(i)
    }

    /** The token fed back in round i when the model expects the given one. */
    function Feed(expected: Token, i: nat): Token {
      match job
      case Drafting(aligned, branch) => Drafted(expected, i, aligned, branch)
      case Checking(_) => expected
    }
  }

  /** The stretches between barriers. */
  datatype Phase = Seeding | Emit(round: nat) | Mix(round: nat) | Copy(round: nat) | Finished

  /** Where a thread is inside a phase. */
  datatype Local = Ready | Filling(i: nat, x: u64) | Folding(j: nat, acc: u32) | Arrived

  /** Global and shared memory. */
  datatype Memory = Memory(state: State, next: State, prev: u32, out: seq<u32>, accepted: nat, firstRejection: nat)

  datatype Block = Block(phase: Phase, locals: seq<Local>, mem: Memory)

  datatype Event = Thread(t: nat) | Release

  predicate Shape(k: Kernel, c: Block) {
    && |c.locals| == THREADS && |c.mem.out| == k.rounds
    && (c.phase.Emit? || c.phase.Mix? || c.phase.Copy? ==> c.phase.round < k.rounds)
  }

  // ---------------------------------------------------------------------------
  // Steps
  // ---------------------------------------------------------------------------

  /** Thread 0's part of a round: read the expected token, record it, publish the token to feed back. */
  function Emitted(k: Kernel, i: nat, mem: Memory): Memory
    requires k.Valid() && i < k.rounds == |mem.out|
  {
    var expected := TokenOf(k.src.a, mem.state, i, mem.prev);
    match k.job
    case Drafting(aligned, branch) =>
      var tok := if i < aligned then expected else (expected + 1 + branch) % 0x1_0000_0000 % VOCAB;
      mem.(out := mem.out[i := tok], prev := tok)
    case Checking(cand) =>
      var ok := expected == cand[i];
      mem.(out := mem.out[i := if ok then 1 else 0],
           accepted := if ok then mem.accepted + 1 else mem.accepted,
           firstRejection := if !ok && mem.firstRejection == k.rounds then i else mem.firstRejection,
           prev := expected)
  }

  datatype Effect = Effect(local: Local, mem: Memory)

  /** Thread 0 fills the state word by word, then resets the previous token and the verifier's counters. */
  function SeedStep(k: Kernel, local: Local, mem: Memory): Effect {
    match local
    case Ready => Effect(Filling(0, k.src.seed), mem)
    case Filling(i, x) =>
      if i < THREADS then
        Effect(Filling(i + 1, k.src.a.draw(x).next), mem.(state := mem.state[i := k.src.a.draw(x).word]))
      else if k.job.Checking? then Effect(Arrived, mem.(prev := 0, accepted := 0, firstRejection := k.rounds))
      else Effect(Arrived, mem.(prev := 0))
    case _ => Effect(Arrived, mem)
  }

  /** Every thread folds the whole state into its own accumulator, one word a step, and writes it beside the state. */
  function MixStep(k: Kernel, t: nat, local: Local, mem: Memory): Effect
    requires k.Valid() && t < THREADS
  {
    match local
    case Ready => Effect(Folding(0, k.src.a.start(k.bias[t], mem.prev)), mem)
    case Folding(j, acc) =>
      if j < THREADS then Effect(Folding(j + 1, k.src.a.fold(acc, mem.state[j], k.weights[t * 16 + j])), mem)
      else Effect(Arrived, mem.(next := mem.next[t := acc]))
    case _ => Effect(Arrived, mem)
  }

  /** One step of thread t between two barriers. */
  function Work(k: Kernel, phase: Phase, t: nat, local: Local, mem: Memory): (e: Effect)
    requires k.Valid() && t < THREADS && |mem.out| == k.rounds
    requires phase.Emit? ==> phase.round < k.rounds
    ensures |e.mem.out| == k.rounds
  {
    match phase
    case Seeding => if t == 0 then SeedStep(k, local, mem) else Effect(Arrived, mem)
    case Emit(i) => Effect(Arrived, if t == 0 then Emitted(k, i, mem) else mem)
    case Mix(_) => MixStep(k, t, local, mem)
    case Copy(_) => Effect(Arrived, mem.(state := mem.state[t := mem.next[t]]))
    case Finished => Effect(Arrived, mem)
  }

  function PhaseAfter(k: Kernel, phase: Phase): Phase {
    match phase
    case Seeding => if k.rounds > 0 then Emit(0) else Finished
    case Emit(i) => Mix(i)
    case Mix(i) => Copy(i)
    case Copy(i) => if i + 1 < k.rounds then Emit(i + 1) else Finished
    case Finished => Finished
  }

  predicate AllArrived(c: Block) {
    forall t :: 0 <= t < |c.locals| ==> c.locals[t] == Arrived
  }

  const ALL_READY: seq<Local> := [Ready, Ready, Ready, Ready, Ready, Ready, Ready, Ready,
                                  Ready, Ready, Ready, Ready, Ready, Ready, Ready, Ready]

  /** A thread may step until it has arrived at the barrier; the barrier opens once all have. */
  predicate Enabled(k: Kernel, c: Block, e: Event)
    requires Shape(k, c)
  {
    && c.phase != Finished
    && match e
       case Thread(t) => t < THREADS && c.locals[t] != Arrived
       case Release => AllArrived(c)
  }

  function Apply(k: Kernel, c: Block, e: Event): (d: Block)
    requires k.Valid() && Shape(k, c) && Enabled(k, c, e)
    ensures Shape(k, d)
  {
    match e
    case Thread(t) =>
      var effect := Work(k, c.phase, t, c.locals[t], c.mem);
      Block(c.phase, c.locals[t := effect.local], effect.mem)
    case Release => Block(PhaseAfter(k, c.phase), ALL_READY, c.mem)
  }

  /** A launch starts from whatever the memory holds. */
  function Launch(k: Kernel, garbage: Memory): Block {
    Block(Seeding, ALL_READY, garbage)
  }

  /** The schedule can be followed step by step. */
  predicate Schedulable(k: Kernel, c: Block, schedule: seq<Event>)
    requires k.Valid() && Shape(k, c)
    decreases |schedule|
  {
    |schedule| > 0 ==> Enabled(k, c, schedule[0]) && Schedulable(k, Apply(k, c, schedule[0]), schedule[1..])
  }

  function Run(k: Kernel, c: Block, schedule: seq<Event>): (d: Block)
    requires k.Valid() && Shape(k, c) && Schedulable(k, c, schedule)
    ensures Shape(k, d)
    decreases |schedule|
  {
    if |schedule| == 0 then c else Run(k, Apply(k, c, schedule[0]), schedule[1..])
  }

  // ---------------------------------------------------------------------------
  // The invariant: where the parallel state stands against the sequential recurrence
  // ---------------------------------------------------------------------------

  /** The results of the first i rounds are the sequential ones. */
  ghost predicate Output(k: Kernel, i: nat, mem: Memory)
    requires k.Valid() && i <= k.rounds == |mem.out|
  {
    match k.job
    case Drafting(_, _) => mem.out[..i] == k.Path(i)
    case Checking(cand) =>
      var flags := Matches(k.Path(i), cand[..i]);
      && (forall r :: 0 <= r < i ==> mem.out[r] == if flags[r] then 1 else 0)
      && mem.accepted == Count(flags)
      && mem.firstRejection == if FirstClear(flags) == i then k.rounds else FirstClear(flags)
  }

  ghost predicate SeedingHolds(k: Kernel, c: Block)
    requires k.Valid() && Shape(k, c)
  {
    && (forall t :: 0 < t < THREADS ==> c.locals[t].Ready? || c.locals[t].Arrived?)
    && match c.locals[0]
       case Ready => true
       case Filling(i, x) =>
         i <= THREADS && x == Advance(k.src.a, k.src.seed, i) && c.mem.state[..i] == Seeded(k.src.a, k.src.seed)[..i]
       case Folding(_, _) => false
       case Arrived => c.mem.state == k.src.Follow([]) && c.mem.prev == 0 && Output(k, 0, c.mem)
  }

  ghost predicate EmitHolds(k: Kernel, c: Block, i: nat)
    requires k.Valid() && Shape(k, c) && i < k.rounds
  {
    && (forall t :: 0 <= t < THREADS ==> c.locals[t].Ready? || c.locals[t].Arrived?)
    && c.mem.state == k.src.Follow(k.Path(i))
    && if c.locals[0].Arrived? then c.mem.prev == k.Path(i + 1)[i] && Output(k, i + 1, c.mem)
       else c.mem.prev == k.src.Previous(k.Path(i)) && Output(k, i, c.mem)
  }

  ghost predicate Mixed(k: Kernel, mem: Memory, t: nat, local: Local)
    requires k.Valid() && t < THREADS
  {
    match local
    case Ready => true
    case Filling(_, _) => false
    case Folding(j, acc) => j <= THREADS && acc == Partial(k.src.a, k.src.m, mem.state, mem.prev, t, j)
    case Arrived => mem.next[t] == Partial(k.src.a, k.src.m, mem.state, mem.prev, t, 16)
  }

  ghost predicate MixHolds(k: Kernel, c: Block, i: nat)
    requires k.Valid() && Shape(k, c) && i < k.rounds
  {
    && (forall t :: 0 <= t < THREADS ==> Mixed(k, c.mem, t, c.locals[t]))
    && c.mem.state == k.src.Follow(k.Path(i))
    && c.mem.prev == k.Path(i + 1)[i] && Output(k, i + 1, c.mem)
  }

  ghost predicate Copied(mem: Memory, t: nat, local: Local)
    requires t < THREADS
  {
    local.Ready? || (local.Arrived? && mem.state[t] == mem.next[t])
  }

  ghost predicate CopyHolds(k: Kernel, c: Block, i: nat)
    requires k.Valid() && Shape(k, c) && i < k.rounds
  {
    && (forall t :: 0 <= t < THREADS ==> Copied(c.mem, t, c.locals[t]))
    && c.mem.next == k.src.Follow(k.Path(i + 1))
    && c.mem.prev == k.Path(i + 1)[i] && Output(k, i + 1, c.mem)
  }

  ghost predicate Holds(k: Kernel, c: Block)
    requires k.Valid() && Shape(k, c)
  {
    match c.phase
    case Seeding => SeedingHolds(k, c)
    case Emit(i) => EmitHolds(k, c, i)
    case Mix(i) => MixHolds(k, c, i)
    case Copy(i) => CopyHolds(k, c, i)
    case Finished => Output(k, k.rounds, c.mem)
  }

  // ---------------------------------------------------------------------------
  // Each phase keeps it
  // ---------------------------------------------------------------------------

  lemma PathOne(k: Kernel, i: nat)
    ensures k.Path(i + 1) == k.Path(i) + [k.Feed(k.src.Expect(k.Path(i)), i)]
    ensures k.Path(i + 1)[i] == k.Feed(k.src.Expect(k.Path(i)), i)
  {
    hide *;
    PathCases(k, i);
    PathCases(k, i + 1);
    match k.job
    case Drafting(aligned, branch) =>
      DraftOne(k.src, aligned, branch, i);
    case Checking(_) =>
      TargetOne(k.src, i);
  }

  lemma PathCases(k: Kernel, i: nat)
    ensures k.job.Drafting? ==> k.Path(i) == k.src.Draft(k.job.aligned, k.job.branch, i)
    ensures k.job.Drafting? ==> forall e: Token :: k.Feed(e, i) == Drafted(e, i, k.job.aligned, k.job.branch)
    ensures k.job.Checking? ==> k.Path(i) == k.src.TargetPath(i)
    ensures k.job.Checking? ==> forall e: Token :: k.Feed(e, i) == e
  {
  }

  lemma SeedThreadKeeps(k: Kernel, c: Block, t: nat)
    requires k.Valid() && Shape(k, c) && c.phase == Seeding && Enabled(k, c, Thread(t)) && SeedingHolds(k, c)
    ensures SeedingHolds(k, Apply(k, c, Thread(t)))
  {
    if t == 0 && c.locals[0].Filling? {
      var i := c.locals[0].i;
      var d := Apply(k, c, Thread(t));
      if i < THREADS {
        assert d.mem.state[..i] == c.mem.state[..i];
        assert d.mem.state[..i + 1] == d.mem.state[..i] + [d.mem.state[i]];
        var seeded := Seeded(k.src.a, k.src.seed);
        assert seeded[..i + 1] == seeded[..i] + [seeded[i]];
      } else {
        SeededState(k, c.mem.state);
        NoOutput(k, d.mem);
      }
    }
  }

  lemma SeededState(k: Kernel, state: State)
    requires state[..16] == Seeded(k.src.a, k.src.seed)[..16]
    ensures state == k.src.Follow([])
  {
    assert state[..16] == state;
    assert Seeded(k.src.a, k.src.seed)[..16] == Seeded(k.src.a, k.src.seed);
  }

  lemma NoOutput(k: Kernel, mem: Memory)
    requires k.Valid() && |mem.out| == k.rounds
    requires k.job.Checking? ==> mem.accepted == 0 && mem.firstRejection == k.rounds
    ensures Output(k, 0, mem)
  {
  }

  lemma EmitThreadKeeps(k: Kernel, c: Block, t: nat, i: nat)
    requires k.Valid() && Shape(k, c) && c.phase == Emit(i) && Enabled(k, c, Thread(t)) && EmitHolds(k, c, i)
    ensures EmitHolds(k, Apply(k, c, Thread(t)), i)
  {
    if t == 0 {
      EmitsOne(k, i, c.mem);
    }
  }

  /** Thread 0's round is one turn of the sequential loop. */
  lemma EmitsOne(k: Kernel, i: nat, mem: Memory)
    requires k.Valid() && i < k.rounds == |mem.out|
    requires mem.state == k.src.Follow(k.Path(i)) && mem.prev == k.src.Previous(k.Path(i)) && Output(k, i, mem)
    ensures var after := Emitted(k, i, mem);
            && after.state == mem.state && after.prev == k.Path(i + 1)[i] && Output(k, i + 1, after)
  {
    var expected := k.src.Expect(k.Path(i));
    assert expected == TokenOf(k.src.a, mem.state, i, mem.prev);
    PathOne(k, i);
    var after := Emitted(k, i, mem);
    match k.job
    case Drafting(aligned, branch) =>
      assert after.prev == Drafted(expected, i, aligned, branch);
      WriteNext(mem.out, i, after.prev);
    case Checking(cand) =>
      ChecksOne(k, i, mem, expected);
  }

  lemma WriteNext<T>(s: seq<T>, i: nat, x: T)
    requires i < |s|
    ensures s[i := x][..i + 1] == s[..i] + [x]
  {
  }

  lemma ChecksOne(k: Kernel, i: nat, mem: Memory, expected: Token)
    requires k.Valid() && i < k.rounds == |mem.out| && k.job.Checking? && Output(k, i, mem)
    requires expected == TokenOf(k.src.a, mem.state, i, mem.prev)
    requires k.Path(i + 1) == k.Path(i) + [expected]
    ensures Output(k, i + 1, Emitted(k, i, mem))
  {
    hide Count, FirstClear, Matches, TokenOf, Source.TargetPath, Source.Draft;
    var cand := k.job.cand;
    var flags := Matches(k.Path(i), cand[..i]);
    var ok := expected == cand[i];
    MatchesAppend(k.Path(i), cand, i, expected);
    CountAppend(flags, ok);
    FirstClearAppend(flags, ok);
    assert Matches(k.Path(i + 1), cand[..i + 1]) == flags + [ok];
    assert FirstClear(flags) <= |flags| == i;
  }

  lemma MixThreadKeeps(k: Kernel, c: Block, t: nat, i: nat)
    requires k.Valid() && Shape(k, c) && c.phase == Mix(i) && Enabled(k, c, Thread(t)) && MixHolds(k, c, i)
    ensures MixHolds(k, Apply(k, c, Thread(t)), i)
  {
    hide Count, FirstClear, Matches, Source.TargetPath, Source.Draft, Source.Follow;
    var d := Apply(k, c, Thread(t));
    MixesOne(k, c.mem, t, c.locals[t]);
    SameOutput(k, i + 1, c.mem, d.mem);
    forall u | 0 <= u < THREADS
      ensures Mixed(k, d.mem, u, d.locals[u])
    {
      assert Mixed(k, c.mem, u, c.locals[u]);
    }
  }

  lemma SameOutput(k: Kernel, i: nat, mem: Memory, after: Memory)
    requires k.Valid() && i <= k.rounds == |mem.out| && Output(k, i, mem)
    requires after.out == mem.out && after.accepted == mem.accepted && after.firstRejection == mem.firstRejection
    ensures Output(k, i, after)
  {
  }

  lemma MixesOne(k: Kernel, mem: Memory, t: nat, local: Local)
    requires k.Valid() && t < THREADS && Mixed(k, mem, t, local) && local != Arrived
    ensures var e := MixStep(k, t, local, mem);
            && Mixed(k, e.mem, t, e.local)
            && e.mem == mem.(next := e.mem.next) && e.mem.next == mem.next[t := e.mem.next[t]]
  {
    if local.Folding? && local.j < THREADS {
      FlatAt(k.src.m, t, local.j);
    }
  }

  lemma FlatAt(m: Model, t: nat, j: nat)
    requires t < 16 && j < 16
    ensures t * 16 + j < |Flat(m)| && Flat(m)[t * 16 + j] == m.weights[t][j]
  {
    assert (t * 16 + j) / 16 == t && (t * 16 + j) % 16 == j;
  }

  lemma CopyThreadKeeps(k: Kernel, c: Block, t: nat, i: nat)
    requires k.Valid() && Shape(k, c) && c.phase == Copy(i) && Enabled(k, c, Thread(t)) && CopyHolds(k, c, i)
    ensures CopyHolds(k, Apply(k, c, Thread(t)), i)
  {
    hide Count, FirstClear, Matches, Source.TargetPath, Source.Draft, Source.Follow;
    var d := Apply(k, c, Thread(t));
    SameOutput(k, i + 1, c.mem, d.mem);
    forall u | 0 <= u < THREADS
      ensures Copied(d.mem, u, d.locals[u])
    {
      assert Copied(c.mem, u, c.locals[u]);
    }
  }

  lemma ReleaseKeeps(k: Kernel, c: Block)
    requires k.Valid() && Shape(k, c) && Enabled(k, c, Release) && Holds(k, c)
    ensures Holds(k, Apply(k, c, Release))
  {
    hide Count, FirstClear, Matches, Source.TargetPath, Source.Draft, Source.Follow, Source.Previous, Kernel.Path,
        Output, Partial, Kernel.Valid;
    match c.phase {
      case Seeding =>
        EmptyPath(k);
      case Emit(i) =>
      case Mix(i) =>
        MixCompletes(k, c, i);
      case Copy(i) =>
        CopyCompletes(k, c, i);
    }
  }

  lemma EmptyPath(k: Kernel)
    ensures k.Path(0) == [] && k.src.Previous([]) == 0
  {
  }

  lemma MixCompletes(k: Kernel, c: Block, i: nat)
    requires k.Valid() && Shape(k, c) && i < k.rounds && AllArrived(c) && MixHolds(k, c, i)
    ensures c.mem.next == k.src.Follow(k.Path(i + 1))
  {
    hide Count, FirstClear, Matches, Source.TargetPath, Source.Draft, Source.Follow, Output, Partial;
    var path, tok := k.Path(i), k.Path(i + 1)[i];
    PathOne(k, i);
    FollowOne(k.src, path, tok);
    var after := Stepped(k.src.a, k.src.m, c.mem.state, c.mem.prev);
    forall t | 0 <= t < THREADS
      ensures c.mem.next[t] == after[t]
    {
      assert Mixed(k, c.mem, t, c.locals[t]);
    }
    assert c.mem.next == after;
  }

  lemma CopyCompletes(k: Kernel, c: Block, i: nat)
    requires k.Valid() && Shape(k, c) && i < k.rounds && AllArrived(c) && CopyHolds(k, c, i)
    ensures c.mem.state == k.src.Follow(k.Path(i + 1)) && c.mem.prev == k.src.Previous(k.Path(i + 1))
  {
    hide Count, FirstClear, Matches, Source.TargetPath, Source.Draft, Source.Follow, Output;
    forall t | 0 <= t < THREADS
      ensures c.mem.state[t] == c.mem.next[t]
    {
      assert Copied(c.mem, t, c.locals[t]);
    }
    assert c.mem.state == c.mem.next;
  }

  lemma StepKeeps(k: Kernel, c: Block, e: Event)
    requires k.Valid() && Shape(k, c) && Enabled(k, c, e) && Holds(k, c)
    ensures Holds(k, Apply(k, c, e))
  {
    match e
    case Release =>
      ReleaseKeeps(k, c);
    case Thread(t) =>
      match c.phase {
        case Seeding => SeedThreadKeeps(k, c, t);
        case Emit(i) => EmitThreadKeeps(k, c, t, i);
        case Mix(i) => MixThreadKeeps(k, c, t, i);
        case Copy(i) => CopyThreadKeeps(k, c, t, i);
      }
  }

  lemma {:induction false} RunKeeps(k: Kernel, c: Block, schedule: seq<Event>)
    requires k.Valid() && Shape(k, c) && Holds(k, c) && Schedulable(k, c, schedule)
    ensures Holds(k, Run(k, c, schedule))
    decreases |schedule|
  {
    if |schedule| > 0 {
      StepKeeps(k, c, schedule[0]);
      RunKeeps(k, Apply(k, c, schedule[0]), schedule[1..]);
    }
  }

  // ---------------------------------------------------------------------------
  // Progress
  // ---------------------------------------------------------------------------

  /** Steps thread t still takes before the next barrier. */
  function Cost(phase: Phase, t: nat, local: Local): nat {
    match local
    case Arrived => 0
    case Ready => if phase.Mix? || (phase.Seeding? && t == 0) then 18 else 1
    case Filling(i, _) => if phase.Seeding? && t == 0 && i < THREADS then 17 - i else 1
    case Folding(j, _) => if phase.Mix? && j < THREADS then 17 - j else 1
  }

  function Costs(phase: Phase, locals: seq<Local>, n: nat): nat
    requires n <= |locals|
  {
    if n == 0 then 0 else Costs(phase, locals, n - 1) + Cost(phase, n - 1, locals[n - 1])
  }

  const ROUND_STEPS := 323

  function StepsAfter(k: Kernel, phase: Phase): nat
    requires phase.Emit? || phase.Mix? || phase.Copy? ==> phase.round < k.rounds
  {
    match phase
    case Seeding => ROUND_STEPS * k.rounds
    case Emit(i) => 306 + ROUND_STEPS * (k.rounds - i - 1)
    case Mix(i) => 17 + ROUND_STEPS * (k.rounds - i - 1)
    case Copy(i) => ROUND_STEPS * (k.rounds - i - 1)
    case Finished => 0
  }

  /** How many more steps a launch takes, whatever the schedule. */
  function Remaining(k: Kernel, c: Block): nat
    requires Shape(k, c)
  {
    if c.phase == Finished then 0 else Costs(c.phase, c.locals, THREADS) + 1 + StepsAfter(k, c.phase)
  }

  lemma {:induction false} CostsDrop(phase: Phase, locals: seq<Local>, t: nat, local: Local, n: nat)
    requires t < |locals| && n <= |locals|
    requires Cost(phase, t, local) + 1 == Cost(phase, t, locals[t])
    ensures Costs(phase, locals[t := local], n) + (if t < n then 1 else 0) == Costs(phase, locals, n)
  {
    if n > 0 {
      CostsDrop(phase, locals, t, local, n - 1);
    }
  }

  lemma {:induction false} CostsZero(phase: Phase, locals: seq<Local>, n: nat)
    requires n <= |locals| && forall t :: 0 <= t < |locals| ==> locals[t] == Arrived
    ensures Costs(phase, locals, n) == 0
  {
    if n > 0 {
      CostsZero(phase, locals, n - 1);
    }
  }

  lemma {:induction false} CostsReady(phase: Phase, n: nat)
    requires n <= THREADS
    ensures Costs(phase, ALL_READY, n)
            == n * (if phase.Mix? then 18 else 1) + (if phase.Seeding? && n > 0 then 17 else 0)
  {
    if n > 0 {
      CostsReady(phase, n - 1);
      assert ALL_READY[n - 1] == Ready;
    }
  }

  lemma WorkCosts(k: Kernel, phase: Phase, t: nat, local: Local, mem: Memory)
    requires k.Valid() && t < THREADS && |mem.out| == k.rounds && local != Arrived && phase != Finished
    requires phase.Emit? ==> phase.round < k.rounds
    ensures Cost(phase, t, Work(k, phase, t, local, mem).local) + 1 == Cost(phase, t, local)
  {
    hide Kernel.Valid, Emitted;
  }

  lemma NextRound(r: int, i: int)
    ensures ROUND_STEPS * (r - i) == ROUND_STEPS + ROUND_STEPS * (r - i - 1)
  {
  }

  lemma StepCountsDown(k: Kernel, c: Block, e: Event)
    requires k.Valid() && Shape(k, c) && Enabled(k, c, e)
    ensures Remaining(k, Apply(k, c, e)) + 1 == Remaining(k, c)
  {
    hide Kernel.Valid, Costs, Cost, Emitted, Work;
    match e
    case Thread(t) =>
      WorkCosts(k, c.phase, t, c.locals[t], c.mem);
      CostsDrop(c.phase, c.locals, t, Work(k, c.phase, t, c.locals[t], c.mem).local, THREADS);
    case Release =>
      CostsZero(c.phase, c.locals, THREADS);
      CostsReady(PhaseAfter(k, c.phase), THREADS);
      match c.phase {
        case Seeding => NextRound(k.rounds, 0);
        case Emit(i) =>
        case Mix(i) =>
        case Copy(i) => NextRound(k.rounds, i + 1);
      }
  }

  /** Until the launch is finished some thread can step or the barrier can open: no deadlock at a barrier. */
  lemma NeverStuck(k: Kernel, c: Block)
    requires k.Valid() && Shape(k, c)
    ensures c.phase != Finished <==> exists e :: Enabled(k, c, e)
  {
    if c.phase != Finished {
      if AllArrived(c) {
        assert Enabled(k, c, Release);
      } else {
        var t :| 0 <= t < |c.locals| && c.locals[t] != Arrived;
        assert Enabled(k, c, Thread(t));
      }
    }
  }

  lemma {:induction false} RunCountsDown(k: Kernel, c: Block, schedule: seq<Event>)
    requires k.Valid() && Shape(k, c) && Schedulable(k, c, schedule)
    ensures Remaining(k, Run(k, c, schedule)) + |schedule| == Remaining(k, c)
    decreases |schedule|
  {
    if |schedule| > 0 {
      StepCountsDown(k, c, schedule[0]);
      RunCountsDown(k, Apply(k, c, schedule[0]), schedule[1..]);
    }
  }

  /** The number of steps of a launch: 34 for the seeding, 323 a round. */
  function LaunchSteps(rounds: nat): nat {
    34 + ROUND_STEPS * rounds
  }

  lemma LaunchRemaining(k: Kernel, garbage: Memory)
    requires |garbage.out| == k.rounds
    ensures Remaining(k, Launch(k, garbage)) == LaunchSteps(k.rounds)
  {
    CostsReady(Seeding, THREADS);
  }

  // ---------------------------------------------------------------------------
  // Every schedule
  // ---------------------------------------------------------------------------

  lemma EveryScheduleEnds(k: Kernel, garbage: Memory, schedule: seq<Event>)
    requires k.Valid() && |garbage.out| == k.rounds && Schedulable(k, Launch(k, garbage), schedule)
    ensures var c := Run(k, Launch(k, garbage), schedule);
            && Holds(k, c)
            && |schedule| <= LaunchSteps(k.rounds)
            && (c.phase == Finished <==> |schedule| == LaunchSteps(k.rounds))
  {
    hide *;
    var start := Launch(k, garbage);
    LaunchHolds(k, garbage);
    LaunchRemaining(k, garbage);
    RunCountsDown(k, start, schedule);
    RunKeeps(k, start, schedule);
    FinishedWhenNothingRemains(k, Run(k, start, schedule));
  }

  lemma LaunchHolds(k: Kernel, garbage: Memory)
    requires k.Valid() && |garbage.out| == k.rounds
    ensures Shape(k, Launch(k, garbage)) && Holds(k, Launch(k, garbage))
  {
  }

  lemma FinishedWhenNothingRemains(k: Kernel, c: Block)
    requires Shape(k, c)
    ensures c.phase == Finished <==> Remaining(k, c) == 0
  {
  }

  /**
   * The proposer kernel. From any memory contents, every schedule can be continued until the launch finishes,
   * finishes after the same number of steps, and leaves the sequential draft in the token buffer.
   */
  lemma EveryScheduleDrafts(k: Kernel, garbage: Memory, schedule: seq<Event>)
    requires k.Valid() && k.job.Drafting? && |garbage.out| == k.rounds && Schedulable(k, Launch(k, garbage), schedule)
    ensures var c := Run(k, Launch(k, garbage), schedule);
            && |schedule| <= LaunchSteps(k.rounds)
            && (|schedule| < LaunchSteps(k.rounds) ==> exists e :: Enabled(k, c, e))
            && (|schedule| == LaunchSteps(k.rounds) ==>
                  c.phase == Finished && c.mem.out == k.src.Draft(k.job.aligned, k.job.branch, k.rounds))
  {
    var c := Run(k, Launch(k, garbage), schedule);
    EveryScheduleEnds(k, garbage, schedule);
    NeverStuck(k, c);
    WholePrefix(c.mem.out);
  }

  /** The verifier kernel, for every candidate and every length: the CPU's flags, counter and first rejection. */
  lemma EveryScheduleChecks(k: Kernel, garbage: Memory, schedule: seq<Event>)
    requires k.Valid() && k.job.Checking? && |garbage.out| == k.rounds && Schedulable(k, Launch(k, garbage), schedule)
    ensures var c := Run(k, Launch(k, garbage), schedule);
            && |schedule| <= LaunchSteps(k.rounds)
            && (|schedule| < LaunchSteps(k.rounds) ==> exists e :: Enabled(k, c, e))
            && (|schedule| == LaunchSteps(k.rounds) ==>
                  var flags := Matches(k.src.TargetPath(k.rounds), k.job.cand);
                  && c.phase == Finished
                  && (forall i :: 0 <= i < k.rounds ==> c.mem.out[i] == if flags[i] then 1 else 0)
                  && c.mem.accepted == Count(flags) && c.mem.firstRejection == FirstClear(flags))
  {
    hide *;
    LaunchHolds(k, garbage);
    var c := Run(k, Launch(k, garbage), schedule);
    EveryScheduleEnds(k, garbage, schedule);
    NeverStuck(k, c);
    if c.phase == Finished {
      ChecksComplete(k, c);
    }
  }

  lemma ChecksComplete(k: Kernel, c: Block)
    requires k.Valid() && Shape(k, c) && k.job.Checking? && c.phase == Finished && Holds(k, c)
    ensures var flags := Matches(k.src.TargetPath(k.rounds), k.job.cand);
            && (forall i :: 0 <= i < k.rounds ==> c.mem.out[i] == if flags[i] then 1 else 0)
            && c.mem.accepted == Count(flags) && c.mem.firstRejection == FirstClear(flags)
  {
    WholePrefix(k.job.cand);
  }

  // ---------------------------------------------------------------------------
  // No races
  // ---------------------------------------------------------------------------

  /** A word of global or shared memory. */
  datatype Location =
    | StateWord(i: nat) | NextWord(i: nat) | PreviousToken | OutWord(i: nat) | AcceptedCount | FirstRejection

  predicate Exists(k: Kernel, x: Location) {
    match x
    case StateWord(i) => i < THREADS
    case NextWord(i) => i < THREADS
    case OutWord(i) => i < k.rounds
    case _ => true
  }

  function At(k: Kernel, mem: Memory, x: Location): int
    requires |mem.out| == k.rounds && Exists(k, x)
  {
    match x
    case StateWord(i) => mem.state[i]
    case NextWord(i) => mem.next[i]
    case PreviousToken => mem.prev
    case OutWord(i) => mem.out[i]
    case AcceptedCount => mem.accepted
    case FirstRejection => mem.firstRejection
  }

  /** What thread t may write between two barriers. */
  predicate Writes(phase: Phase, t: nat, x: Location) {
    match phase
    case Seeding => t == 0 && !x.NextWord? && !x.OutWord?
    case Emit(i) => t == 0 && (x == OutWord(i) || x == PreviousToken || x == AcceptedCount || x == FirstRejection)
    case Mix(_) => x == NextWord(t)
    case Copy(_) => x == StateWord(t)
    case Finished => false
  }

  /** What thread t may read between two barriers. */
  predicate Reads(phase: Phase, t: nat, x: Location) {
    match phase
    case Seeding => false
    case Emit(_) => t == 0 && !x.NextWord? && !x.OutWord?
    case Mix(_) => x.StateWord? || x == PreviousToken
    case Copy(_) => x == NextWord(t)
    case Finished => false
  }

  /** Between two barriers no thread touches a word another thread writes. */
  lemma RaceFree(phase: Phase, t: nat, u: nat, x: Location)
    requires t != u && Writes(phase, t, x)
    ensures !Writes(phase, u, x) && !Reads(phase, u, x)
  {
  }

  /** The steps keep to these footprints: nothing outside the writes changes. */
  lemma WritesOnly(k: Kernel, phase: Phase, t: nat, local: Local, mem: Memory, x: Location)
    requires k.Valid() && t < THREADS && |mem.out| == k.rounds && Exists(k, x) && !Writes(phase, t, x)
    requires phase.Emit? ==> phase.round < k.rounds
    ensures At(k, Work(k, phase, t, local, mem).mem, x) == At(k, mem, x)
  {
    hide TokenOf;
  }

  ghost predicate AgreeOn(k: Kernel, phase: Phase, t: nat, m1: Memory, m2: Memory)
    requires |m1.out| == |m2.out| == k.rounds
  {
    forall x :: Exists(k, x) && Reads(phase, t, x) ==> At(k, m1, x) == At(k, m2, x)
  }

  lemma AgreeAt(k: Kernel, phase: Phase, t: nat, m1: Memory, m2: Memory, x: Location)
    requires |m1.out| == |m2.out| == k.rounds && AgreeOn(k, phase, t, m1, m2)
    requires Exists(k, x) && Reads(phase, t, x)
    ensures At(k, m1, x) == At(k, m2, x)
  {
  }

  /** ...and nothing outside the reads matters: two memories that agree on them are changed alike. */
  lemma ReadsOnly(k: Kernel, phase: Phase, t: nat, local: Local, m1: Memory, m2: Memory, x: Location)
    requires k.Valid() && t < THREADS && |m1.out| == |m2.out| == k.rounds && Exists(k, x)
    requires phase.Emit? ==> phase.round < k.rounds
    requires AgreeOn(k, phase, t, m1, m2)
    ensures var e1, e2 := Work(k, phase, t, local, m1), Work(k, phase, t, local, m2);
            && e1.local == e2.local
            && (|| At(k, e1.mem, x) == At(k, e2.mem, x)
                || (At(k, e1.mem, x) == At(k, m1, x) && At(k, e2.mem, x) == At(k, m2, x)))
  {
    match phase {
      case Seeding =>
      case Emit(i) =>
        if t == 0 {
          EmitReads(k, i, m1, m2);
        }
      case Mix(i) =>
        AgreeAt(k, phase, t, m1, m2, PreviousToken);
        if local.Folding? && local.j < THREADS {
          AgreeAt(k, phase, t, m1, m2, StateWord(local.j));
        }
      case Copy(_) =>
        AgreeAt(k, phase, t, m1, m2, NextWord(t));
      case Finished =>
    }
  }

  lemma EmitReads(k: Kernel, i: nat, m1: Memory, m2: Memory)
    requires |m1.out| == |m2.out| == k.rounds && AgreeOn(k, Emit(i), 0, m1, m2)
    ensures m1.state == m2.state && m1.prev == m2.prev
    ensures m1.accepted == m2.accepted && m1.firstRejection == m2.firstRejection
  {
    forall j | 0 <= j < THREADS
      ensures m1.state[j] == m2.state[j]
    {
      AgreeAt(k, Emit(i), 0, m1, m2, StateWord(j));
    }
    assert m1.state == m2.state;
    AgreeAt(k, Emit(i), 0, m1, m2, PreviousToken);
    AgreeAt(k, Emit(i), 0, m1, m2, AcceptedCount);
    AgreeAt(k, Emit(i), 0, m1, m2, FirstRejection);
  }

  /** Neighbouring steps of different threads can be swapped: the two orders end in the same block. */
  lemma StepsCommute(k: Kernel, c: Block, t: nat, u: nat)
    requires k.Valid() && Shape(k, c) && t != u && Enabled(k, c, Thread(t)) && Enabled(k, c, Thread(u))
    ensures Enabled(k, Apply(k, c, Thread(t)), Thread(u)) && Enabled(k, Apply(k, c, Thread(u)), Thread(t))
    ensures Apply(k, Apply(k, c, Thread(t)), Thread(u)) == Apply(k, Apply(k, c, Thread(u)), Thread(t))
  {
    hide TokenOf, Kernel.Valid;
    var ct, cu := Apply(k, c, Thread(t)), Apply(k, c, Thread(u));
    var tu, ut := Apply(k, ct, Thread(u)), Apply(k, cu, Thread(t));
    assert tu.locals == ut.locals;
    assert tu.mem.state == ut.mem.state;
    assert tu.mem.next == ut.mem.next;
    assert tu.mem.out == ut.mem.out;
  }

  // ---------------------------------------------------------------------------
  // The host around the kernels
  // ---------------------------------------------------------------------------

  /** The launch of the device proposer, whose branch index is fixed when the executor is built. */
  function ProposalKernel(a: Arithmetic, aligned: u32, branch: u32, input: ProposalInput): (k: Kernel)
    ensures k.Valid() && k.rounds == input.depth
  {
    var src := SourceOf(a, input.baseState, input.baseGeneration, input.proposer, input.depth);
    Kernel(src, Flat(src.m), src.m.bias, Drafting(aligned, branch), input.depth)
  }

  function VerificationKernel(a: Arithmetic, input: VerificationInput): (k: Kernel)
    ensures k.Valid() && k.rounds == |input.candidate|
  {
    var src := VerifierSource(a, input);
    Kernel(src, Flat(src.m), src.m.bias, Checking(input.candidate), |input.candidate|)
  }

  /** What the host reports after copying the token buffer back. */
  function DeviceProposal(input: ProposalInput, mem: Memory): ProposalResult {
    if input.depth == 0 || input.depth > MAX_DEPTH then ProposalResult(NonRetryableFailure, None, None)
    else ProposalResult(Success, Some(mem.out), Some(StateRef(input.baseState.id, input.baseState.generation + 1)))
  }

  /** What the host reports after copying the flags and counters back. */
  function DeviceAcceptance(input: VerificationInput, mem: Memory): AcceptanceResult
    requires |mem.out| == |input.candidate|
  {
    var n := |input.candidate|;
    if n == 0 then Failure(input, true)
    else AcceptanceResult(
      if mem.accepted == n then FullAccept else if mem.accepted == 0 then RejectAll else PartialAccept,
      n, mem.accepted, mem.firstRejection, seq(n, i requires 0 <= i < n => mem.out[i] != 0), false,
      input.baseGeneration + mem.accepted, StateRef(input.baseState.id, input.baseState.generation + mem.accepted))
  }

  /** The device proposer returns the CPU's result for its own branch; it has no compute budget. */
  lemma DeviceProposesAsCpu(a: Arithmetic, aligned: u32, branch: u32, input: ProposalInput, garbage: Memory,
      schedule: seq<Event>)
    requires var k := ProposalKernel(a, aligned, branch, input);
             && |garbage.out| == k.rounds && |schedule| == LaunchSteps(k.rounds)
             && Schedulable(k, Launch(k, garbage), schedule)
    ensures var k := ProposalKernel(a, aligned, branch, input);
            DeviceProposal(input, Run(k, Launch(k, garbage), schedule).mem)
            == ProposeSpec(a, aligned, input.(branchIndex := branch, computeBudget := 0))
  {
    hide Source.Draft, Schedulable, Run, Kernel.Valid;
    EveryScheduleDrafts(ProposalKernel(a, aligned, branch, input), garbage, schedule);
  }

  /**
   * The device verifier returns the CPU's result wherever the CPU accepts the candidate's identity; it checks none.
   */
  lemma DeviceVerifiesAsCpu(a: Arithmetic, input: VerificationInput, garbage: Memory, schedule: seq<Event>)
    requires var k := VerificationKernel(a, input);
             && |garbage.out| == k.rounds && |schedule| == LaunchSteps(k.rounds)
             && Schedulable(k, Launch(k, garbage), schedule)
    ensures var k := VerificationKernel(a, input);
            DeviceAcceptance(input, Run(k, Launch(k, garbage), schedule).mem)
            == VerifySpec(a, input.(tokenizer := 1, vocabSize := VOCAB))
  {
    hide Source.TargetPath, Schedulable, Run, Kernel.Valid, Count, FirstClear;
    var k := VerificationKernel(a, input);
    EveryScheduleChecks(k, garbage, schedule);
    var v := input.(tokenizer := 1, vocabSize := VOCAB);
    var mem := Run(k, Launch(k, garbage), schedule).mem;
    assert Flags(a, v) == seq(k.rounds, i requires 0 <= i < k.rounds => mem.out[i] != 0);
  }

  /** The device's verdict, read off the positions: it compares every candidate that is not empty. */
  lemma DeviceOutcomeByPositions(a: Arithmetic, input: VerificationInput, garbage: Memory, schedule: seq<Event>)
    requires var k := VerificationKernel(a, input);
             && |garbage.out| == k.rounds && |schedule| == LaunchSteps(k.rounds)
             && Schedulable(k, Launch(k, garbage), schedule)
    ensures var k := VerificationKernel(a, input);
            var r := DeviceAcceptance(input, Run(k, Launch(k, garbage), schedule).mem);
            var path := VerifierSource(a, input).TargetPath(|input.candidate|);
            && (r.outcome == VerifierFailure <==> input.candidate == [])
            && (input.candidate != [] ==>
                  && (r.outcome == FullAccept <==> AllMatch(path, input.candidate))
                  && (r.outcome == RejectAll <==> NoneMatches(path, input.candidate))
                  && (r.outcome == PartialAccept
                      <==> !AllMatch(path, input.candidate) && !NoneMatches(path, input.candidate)))
  {
    hide Source.TargetPath, Schedulable, Run, Kernel.Valid, VerifySpec, DeviceAcceptance, AllMatch, NoneMatches;
    DeviceVerifiesAsCpu(a, input, garbage, schedule);
    OutcomeByPositions(a, input.(tokenizer := 1, vocabSize := VOCAB));
  }

  /** Device and CPU verifier agree on the same input exactly when it is empty or its identity is accepted. */
  lemma DeviceVerifierAgreesIff(a: Arithmetic, input: VerificationInput, garbage: Memory, schedule: seq<Event>)
    requires var k := VerificationKernel(a, input);
             && |garbage.out| == k.rounds && |schedule| == LaunchSteps(k.rounds)
             && Schedulable(k, Launch(k, garbage), schedule)
    ensures var k := VerificationKernel(a, input);
            DeviceAcceptance(input, Run(k, Launch(k, garbage), schedule).mem) == VerifySpec(a, input)
            <==> input.candidate == [] || (input.tokenizer != 0 && input.vocabSize == VOCAB)
  {
    hide Source.TargetPath, Schedulable, Run, Kernel.Valid, Count, FirstClear, Matches;
    DeviceVerifiesAsCpu(a, input, garbage, schedule);
  }

  /**
   * Device and CPU proposer agree on the same input exactly when both refuse its depth, or the depth is within the
   * budget and the branches are congruent or never leave the target path.
   */
  lemma DeviceProposerAgreesIff(a: Arithmetic, aligned: u32, branch: u32, input: ProposalInput, garbage: Memory,
      schedule: seq<Event>)
    requires var k := ProposalKernel(a, aligned, branch, input);
             && |garbage.out| == k.rounds && |schedule| == LaunchSteps(k.rounds)
             && Schedulable(k, Launch(k, garbage), schedule)
    ensures var k := ProposalKernel(a, aligned, branch, input);
            DeviceProposal(input, Run(k, Launch(k, garbage), schedule).mem) == ProposeSpec(a, aligned, input)
            <==> || input.depth == 0 || input.depth > MAX_DEPTH
                 || ((input.computeBudget == 0 || input.depth <= input.computeBudget)
                     && (input.depth <= aligned || branch % VOCAB == input.branchIndex % VOCAB))
  {
    hide Source.Draft, Schedulable, Run, Kernel.Valid;
    DeviceProposesAsCpu(a, aligned, branch, input, garbage, schedule);
    DraftsEqualIff(SourceOf(a, input.baseState, input.baseGeneration, input.proposer, input.depth), aligned, branch,
                   input.branchIndex, input.depth);
  }
}
