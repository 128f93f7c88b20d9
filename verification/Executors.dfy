/** The CPU proposer and verifier, and what verifying a proposed candidate yields. */
module Executors {
  import opened Words
  import opened Synthetic

  const MAX_DEPTH := 256

  datatype StateRef = StateRef(id: nat, generation: nat)

  datatype ModelIdentity = ModelIdentity(model: nat, revision: nat, tokenizer: nat)

  /** What a proposer is told: the authority envelope, the base state, and the shape of the draft. */
  datatype ProposalInput = ProposalInput(
    request: nat, sequence: nat, attempt: nat, branch: nat, cycle: nat, epoch: nat,
    baseState: StateRef, baseGeneration: nat,
    depth: u32, branchIndex: u32, branchCount: u32, seed: nat,
    proposer: ModelIdentity, computeBudget: nat)

  datatype ProposalOutcome = Success | RetryableFailure | NonRetryableFailure

  datatype ProposalResult = ProposalResult(
    outcome: ProposalOutcome, candidate: Option<seq<Token>>, speculativeState: Option<StateRef>)

  /** What a verifier is told. */
  datatype VerificationInput = VerificationInput(
    request: nat, sequence: nat, attempt: nat, branch: nat, epoch: nat,
    candidate: seq<Token>, tokenizer: nat, vocabSize: nat,
    proposer: ModelIdentity, verifier: ModelIdentity,
    baseState: StateRef, baseGeneration: nat, baseStateGeneration: nat)

  datatype AcceptanceOutcome = FullAccept | PartialAccept | RejectAll | VerifierFailure

  datatype AcceptanceResult = AcceptanceResult(
    outcome: AcceptanceOutcome, candidateLength: nat, acceptedPrefix: nat, firstRejection: nat,
    perPosition: seq<bool>, retryable: bool, nextGeneration: nat, nextState: StateRef)

  // ---------------------------------------------------------------------------
  // Token paths
  // ---------------------------------------------------------------------------

  /** The target model seeded for one cycle: where every path of tokens starts. */
  datatype Source = Source(a: Arithmetic, m: Model, seed: u64) {

    /** The hidden state after feeding it the given tokens. */
    function Follow(toks: seq<Token>): State
      decreases |toks|
    {
      if |toks| == 0 then Seeded(a, seed)
      else Stepped(a, m, Follow(toks[..|toks| - 1]), toks[|toks| - 1])
    }

    /** The token the model expects after the given ones. */
    function Expect(toks: seq<Token>): (t: Token)
      ensures t < VOCAB
    {
      TokenOf(a, Follow(toks), |toks|, Previous(toks))
    }

    function Previous(toks: seq<Token>): Token {
      if |toks| == 0 then 0 else toks[|toks| - 1]
    }

    /** The authoritative path: every expected token is fed back. */
    function TargetPath(n: nat): (s: seq<Token>)
      ensures |s| == n
    {
      if n == 0 then [] else var path := TargetPath(n - 1); path + [Expect(path)]
    }

    /** The draft: its own tokens are fed back, and from position `aligned` on they are shifted. */
    function Draft(aligned: u32, branch: u32, n: nat): (s: seq<Token>)
      ensures |s| == n
    {
      if n == 0 then []
      else var path := Draft(aligned, branch, n - 1); path + [Drafted(Expect(path), n - 1, aligned, branch)]
    }
  }

  /** The shifted token, in 32-bit arithmetic before the reduction to the vocabulary. */
  function Perturbed(expected: Token, branch: u32): (t: Token)
    ensures t < VOCAB
  {
    (expected + 1 + branch) % 0x1_0000_0000 % VOCAB
  }

  function Drafted(expected: Token, index: nat, aligned: u32, branch: u32): Token {
    if index < aligned then expected else Perturbed(expected, branch)
  }

  function SourceOf(a: Arithmetic, state: StateRef, generation: nat, proposer: ModelIdentity, length: nat): Source {
    Source(a, TargetModel(a), a.seed(state.id, state.generation, generation, proposer.revision, length))
  }

  // ---------------------------------------------------------------------------
  // Paths as traces of the recurrence
  // ---------------------------------------------------------------------------

  /** A run of the recurrence: its hidden states, and the token fed back after each. */
  predicate Traces(src: Source, states: seq<State>, fed: seq<Token>) {
    && |states| == |fed| + 1 && states[0] == Seeded(src.a, src.seed)
    && forall i :: 0 <= i < |fed| ==> states[i + 1] == Stepped(src.a, src.m, states[i], fed[i])
  }

  /** What the model expects at position i of such a run. */
  function ExpectedAt(src: Source, states: seq<State>, fed: seq<Token>, i: nat): Token
    requires i < |states| && i <= |fed|
  {
    TokenOf(src.a, states[i], i, if i == 0 then 0 else fed[i - 1])
  }

  lemma {:induction false} TraceFollows(src: Source, states: seq<State>, fed: seq<Token>, i: nat)
    requires Traces(src, states, fed) && i <= |fed|
    ensures states[i] == src.Follow(fed[..i])
    ensures ExpectedAt(src, states, fed, i) == src.Expect(fed[..i])
  {
    hide Seeded, Stepped, TokenOf;
    if i > 0 {
      TraceFollows(src, states, fed, i - 1);
      assert fed[..i][..i - 1] == fed[..i - 1];
    }
  }

  /** The states along a path. */
  function StatesAlong(src: Source, fed: seq<Token>): (states: seq<State>)
    ensures |states| == |fed| + 1
  {
    seq(|fed| + 1, i requires 0 <= i <= |fed| => src.Follow(fed[..i]))
  }

  lemma StatesTrace(src: Source, fed: seq<Token>)
    ensures Traces(src, StatesAlong(src, fed), fed)
  {
    hide Seeded, Stepped;
    forall i | 0 <= i < |fed|
      ensures StatesAlong(src, fed)[i + 1] == Stepped(src.a, src.m, StatesAlong(src, fed)[i], fed[i])
    {
      assert fed[..i + 1][..i] == fed[..i];
    }
  }

  /** The target path is the one run that feeds back what it expects. */
  lemma TargetIffTrace(src: Source, path: seq<Token>)
    ensures path == src.TargetPath(|path|)
            <==> exists states :: Traces(src, states, path)
                   && forall i :: 0 <= i < |path| ==> path[i] == ExpectedAt(src, states, path, i)
  {
    hide Seeded, Stepped, TokenOf, ExpectedAt, Source.Follow, Source.Expect, StatesAlong;
    var states := StatesAlong(src, path);
    StatesTrace(src, path);
    forall s | Traces(src, s, path)
      ensures (forall i :: 0 <= i < |path| ==> path[i] == ExpectedAt(src, s, path, i)) <==> FollowsTarget(src, path)
    {
      forall i: nat | i < |path|
        ensures ExpectedAt(src, s, path, i) == src.Expect(path[..i])
      {
        TraceFollows(src, s, path, i);
      }
    }
    TargetIffExpected(src, path, |path|);
    assert path[..|path|] == path;
  }

  /** Every token is the one expected after those before it. */
  predicate FollowsTarget(src: Source, path: seq<Token>) {
    forall i :: 0 <= i < |path| ==> path[i] == src.Expect(path[..i])
  }

  lemma {:induction false} TargetIffExpected(src: Source, path: seq<Token>, n: nat)
    requires n <= |path|
    ensures path[..n] == src.TargetPath(n) <==> forall i :: 0 <= i < n ==> path[i] == src.Expect(path[..i])
  {
    hide Source.Expect;
    if n > 0 {
      TargetIffExpected(src, path, n - 1);
      assert path[..n] == path[..n - 1] + [path[n - 1]];
      assert path[..n][..n - 1] == path[..n - 1] && path[..n][n - 1] == path[n - 1];
      var before := src.TargetPath(n - 1);
      assert src.TargetPath(n) == before + [src.Expect(before)];
      assert src.TargetPath(n)[..n - 1] == before;
    }
  }

  /**
   * The draft is the one run that feeds back what it expects up to the alignment, and the shifted token from there on.
   */
  lemma DraftIffTrace(src: Source, aligned: u32, branch: u32, path: seq<Token>)
    ensures path == src.Draft(aligned, branch, |path|)
            <==> exists states :: Traces(src, states, path)
                   && forall i :: 0 <= i < |path| ==>
                        path[i] == if i < aligned then ExpectedAt(src, states, path, i)
                                   else (ExpectedAt(src, states, path, i) + 1 + branch) % 4096
  {
    hide Seeded, Stepped, TokenOf, ExpectedAt, Source.Follow, Source.Expect, StatesAlong;
    var states := StatesAlong(src, path);
    StatesTrace(src, path);
    forall s | Traces(src, s, path)
      ensures (forall i :: 0 <= i < |path| ==>
                 path[i] == if i < aligned then ExpectedAt(src, s, path, i)
                            else (ExpectedAt(src, s, path, i) + 1 + branch) % 4096)
              <==> FollowsDraft(src, aligned, branch, path)
    {
      forall i: nat | i < |path|
        ensures ExpectedAt(src, s, path, i) == src.Expect(path[..i])
      {
        TraceFollows(src, s, path, i);
      }
    }
    DraftIffDrafted(src, aligned, branch, path, |path|);
    assert path[..|path|] == path;
  }

  predicate FollowsDraft(src: Source, aligned: u32, branch: u32, path: seq<Token>) {
    forall i :: 0 <= i < |path| ==>
      path[i] == if i < aligned then src.Expect(path[..i]) else (src.Expect(path[..i]) + 1 + branch) % 4096
  }

  lemma {:induction false} DraftIffDrafted(src: Source, aligned: u32, branch: u32, path: seq<Token>, n: nat)
    requires n <= |path|
    ensures path[..n] == src.Draft(aligned, branch, n)
            <==> forall i :: 0 <= i < n ==>
                   path[i] == if i < aligned then src.Expect(path[..i]) else (src.Expect(path[..i]) + 1 + branch) % 4096
  {
    hide Source.Expect;
    if n > 0 {
      DraftIffDrafted(src, aligned, branch, path, n - 1);
      assert path[..n] == path[..n - 1] + [path[n - 1]];
      assert path[..n][..n - 1] == path[..n - 1] && path[..n][n - 1] == path[n - 1];
      var before := src.Draft(aligned, branch, n - 1);
      ModVocab(src.Expect(before) + 1 + branch);
      assert src.Draft(aligned, branch, n)[..n - 1] == before;
    }
  }

  // ---------------------------------------------------------------------------
  // The proposer
  // ---------------------------------------------------------------------------

  function ProposeSpec(a: Arithmetic, aligned: u32, input: ProposalInput): ProposalResult {
    if input.depth == 0 then ProposalResult(NonRetryableFailure, None, None)
    else if input.depth > MAX_DEPTH then ProposalResult(NonRetryableFailure, None, None)
    else if input.computeBudget != 0 && input.depth > input.computeBudget then
      ProposalResult(RetryableFailure, None, None)
    else
      ProposalResult(
        Success, Some(Candidate(a, aligned, input)),
        Some(StateRef(input.baseState.id, input.baseState.generation + 1)))
  }

  /** The draft for an input's base. */
  function Candidate(a: Arithmetic, aligned: u32, input: ProposalInput): (s: seq<Token>)
    ensures |s| == input.depth
  {
    SourceOf(a, input.baseState, input.baseGeneration, input.proposer, input.depth)
      .Draft(aligned, input.branchIndex, input.depth)
  }

  method Propose(a: Arithmetic, aligned: u32, input: ProposalInput) returns (r: ProposalResult)
    ensures r == ProposeSpec(a, aligned, input)
  {
    if input.depth == 0 {
      return ProposalResult(NonRetryableFailure, None, None);
    }
    if input.depth > MAX_DEPTH {
      return ProposalResult(NonRetryableFailure, None, None);
    }
    if input.computeBudget != 0 && input.depth > input.computeBudget {
      return ProposalResult(RetryableFailure, None, None);
    }
    var m := MakeModel(a);
    var src := SourceOf(a, input.baseState, input.baseGeneration, input.proposer, input.depth).(m := m);
    var tokens := DraftTokens(src, aligned, input.branchIndex, input.depth);
    r := ProposalResult(Success, Some(tokens), Some(StateRef(input.baseState.id, input.baseState.generation + 1)));
  }

  /** The draft loop: read a token off the state, shift it past the boundary, feed it back. */
  method DraftTokens(src: Source, aligned: u32, branch: u32, depth: nat) returns (tokens: seq<Token>)
    ensures tokens == src.Draft(aligned, branch, depth)
  {
    hide *;
    tokens := [];
    NothingYet(src, aligned, branch);
    var state := new u32[16];
    SeedState(src.a, src.seed, state);
    var prev := 0;
    for i := 0 to depth
      invariant tokens == src.Draft(aligned, branch, i)
      invariant state[..] == src.Follow(tokens)
      invariant prev == src.Previous(tokens)
    {
      var expected := Expected(src, state, i, prev, tokens);
      var tok := Shift(expected, i, aligned, branch);
      DraftOne(src, aligned, branch, i);
      FeedBack(src, state, tok, tokens);
      tokens := tokens + [tok];
      prev := tok;
    }
  }

  method Shift(expected: Token, i: nat, aligned: u32, branch: u32) returns (tok: Token)
    ensures tok == Drafted(expected, i, aligned, branch)
  {
    tok := if i < aligned then expected else (expected + 1 + branch) % 0x1_0000_0000 % VOCAB;
  }

  lemma NothingYet(src: Source, aligned: u32, branch: u32)
    ensures src.Draft(aligned, branch, 0) == src.TargetPath(0) == []
    ensures src.Follow([]) == Seeded(src.a, src.seed) && src.Previous([]) == 0
  {
  }

  lemma DraftOne(src: Source, aligned: u32, branch: u32, i: nat)
    ensures src.Draft(aligned, branch, i + 1) ==
            src.Draft(aligned, branch, i) + [Drafted(src.Expect(src.Draft(aligned, branch, i)), i, aligned, branch)]
  {
  }

  lemma TargetOne(src: Source, i: nat)
    ensures src.TargetPath(i + 1) == src.TargetPath(i) + [src.Expect(src.TargetPath(i))]
  {
  }

  /** The token expected next, read off the state. */
  method Expected(src: Source, state: array<u32>, index: nat, prev: Token, ghost toks: seq<Token>) returns (t: Token)
    requires state.Length == 16 && state[..] == src.Follow(toks) && index == |toks| && prev == src.Previous(toks)
    ensures t == src.Expect(toks)
  {
    t := TokenOf(src.a, state[..], index, prev);
  }

  /** The state moves on by one token. */
  method FeedBack(src: Source, state: array<u32>, tok: Token, ghost toks: seq<Token>)
    requires state.Length == 16 && state[..] == src.Follow(toks)
    modifies state
    ensures state[..] == src.Follow(toks + [tok]) && src.Previous(toks + [tok]) == tok
  {
    FollowOne(src, toks, tok);
    Step(src.a, src.m, state, tok);
  }

  lemma FollowOne(src: Source, toks: seq<Token>, tok: Token)
    ensures src.Follow(toks + [tok]) == Stepped(src.a, src.m, src.Follow(toks), tok)
    ensures src.Previous(toks + [tok]) == tok
  {
    assert (toks + [tok])[..|toks|] == toks;
  }

  // ---------------------------------------------------------------------------
  // The verifier
  // ---------------------------------------------------------------------------

  function Matches(path: seq<Token>, cand: seq<Token>): (flags: seq<bool>)
    requires |path| == |cand|
    ensures |flags| == |cand|
  {
    seq(|cand|, i requires 0 <= i < |cand| => path[i] == cand[i])
  }

  /** How many flags are set: what the verifier's counter holds. */
  function Count(flags: seq<bool>): (n: nat)
    ensures n <= |flags|
  {
    if |flags| == 0 then 0
    else Count(flags[..|flags| - 1]) + (if flags[|flags| - 1] then 1 else 0)
  }

  /** The first unset flag, or the length. */
  function FirstClear(flags: seq<bool>): (n: nat)
    ensures n <= |flags|
    ensures forall i :: 0 <= i < n ==> flags[i]
    ensures n < |flags| ==> !flags[n]
  {
    if |flags| == 0 || !flags[0] then 0 else 1 + FirstClear(flags[1..])
  }

  function Classify(accepted: nat, n: nat): AcceptanceOutcome {
    if accepted == n then FullAccept else if accepted == 0 then RejectAll else PartialAccept
  }

  function Failure(input: VerificationInput, retryable: bool): AcceptanceResult {
    AcceptanceResult(VerifierFailure, |input.candidate|, 0, 0, [], retryable, 0, StateRef(0, 0))
  }

  function VerifierSource(a: Arithmetic, input: VerificationInput): Source {
    SourceOf(a, input.baseState, input.baseGeneration, input.proposer, |input.candidate|)
  }

  function Flags(a: Arithmetic, input: VerificationInput): seq<bool> {
    Matches(VerifierSource(a, input).TargetPath(|input.candidate|), input.candidate)
  }

  function VerifySpec(a: Arithmetic, input: VerificationInput): AcceptanceResult {
    var n := |input.candidate|;
    if n == 0 then Failure(input, true)
    else if input.tokenizer == 0 then Failure(input, true)
    else if input.vocabSize != VOCAB then Failure(input, false)
    else
      var flags := Flags(a, input);
      var accepted := Count(flags);
      AcceptanceResult(
        Classify(accepted, n), n, accepted, FirstClear(flags), flags, false,
        input.baseGeneration + accepted, StateRef(input.baseState.id, input.baseState.generation + accepted))
  }

  method Verify(a: Arithmetic, input: VerificationInput) returns (r: AcceptanceResult)
    ensures r == VerifySpec(a, input)
  {
    var n := |input.candidate|;
    if n == 0 {
      return Failure(input, true);
    }
    if input.tokenizer == 0 {
      return Failure(input, true);
    }
    if input.vocabSize != VOCAB {
      return Failure(input, false);
    }
    var m := MakeModel(a);
    var perPosition, accepted, firstRejection := ScanCandidate(VerifierSource(a, input).(m := m), input.candidate);
    r := AcceptanceResult(
      Classify(accepted, n), n, accepted, firstRejection, perPosition, false,
      input.baseGeneration + accepted, StateRef(input.baseState.id, input.baseState.generation + accepted));
  }

  /** The scan: compare each token with the expected one, count, and follow the expected path regardless. */
  method ScanCandidate(src: Source, cand: seq<Token>)
    returns (perPosition: seq<bool>, accepted: nat, firstRejection: nat)
    ensures perPosition == Matches(src.TargetPath(|cand|), cand)
    ensures accepted == Count(perPosition) && firstRejection == FirstClear(perPosition)
  {
    hide *;
    var n := |cand|;
    NothingYet(src, 0, 0);
    NothingMatched();
    var state := new u32[16];
    SeedState(src.a, src.seed, state);
    ghost var path: seq<Token> := [];
    perPosition := [];
    var prev;
    accepted, firstRejection, prev := 0, n, 0;
    for i := 0 to n
      invariant path == src.TargetPath(i) && |perPosition| == i
      invariant state[..] == src.Follow(path) && prev == src.Previous(path)
      invariant perPosition == Matches(path, cand[..i])
      invariant accepted == Count(perPosition)
      invariant firstRejection == if FirstClear(perPosition) == i then n else FirstClear(perPosition)
    {
      var expected := Expected(src, state, i, prev, path);
      var ok := expected == cand[i];
      CountAppend(perPosition, ok);
      FirstClearAppend(perPosition, ok);
      MatchesAppend(path, cand, i, expected);
      TargetOne(src, i);
      FeedBack(src, state, expected, path);
      perPosition := perPosition + [ok];
      if ok {
        accepted := accepted + 1;
      } else if firstRejection == n {
        firstRejection := i;
      }
      path := path + [expected];
      prev := expected;
    }
    assert cand[..n] == cand;
  }

  lemma NothingMatched()
    ensures Matches([], []) == [] && Count([]) == 0 && FirstClear([]) == 0
  {
  }

  lemma MatchesAppend(path: seq<Token>, cand: seq<Token>, i: nat, expected: Token)
    requires |path| == i < |cand|
    ensures Matches(path + [expected], cand[..i + 1]) == Matches(path, cand[..i]) + [expected == cand[i]]
  {
  }

  lemma CountAppend(flags: seq<bool>, b: bool)
    ensures Count(flags + [b]) == Count(flags) + (if b then 1 else 0)
  {
    assert (flags + [b])[..|flags|] == flags;
  }

  lemma {:induction false} FirstClearAppend(flags: seq<bool>, b: bool)
    ensures FirstClear(flags + [b]) ==
            if FirstClear(flags) < |flags| then FirstClear(flags) else if b then |flags| + 1 else |flags|
  {
    if |flags| == 0 {
      assert flags + [b] == [b];
    } else if flags[0] {
      assert (flags + [b])[1..] == flags[1..] + [b];
      FirstClearAppend(flags[1..], b);
    }
  }

  // ---------------------------------------------------------------------------
  // The counter against the leading prefix
  // ---------------------------------------------------------------------------

  /** No flag is set after the first clear one. */
  predicate NothingMatchesLater(flags: seq<bool>) {
    forall i :: FirstClear(flags) <= i < |flags| ==> !flags[i]
  }

  /**
   * The counter is at least the leading prefix, and equals it exactly when nothing matches after the first mismatch.
   */
  lemma {:induction false} CounterAgainstPrefix(flags: seq<bool>)
    ensures FirstClear(flags) <= Count(flags)
    ensures Count(flags) == FirstClear(flags) <==> NothingMatchesLater(flags)
    ensures Count(flags) == |flags| <==> FirstClear(flags) == |flags|
    decreases |flags|
  {
    if |flags| > 0 {
      var n := |flags| - 1;
      var init := flags[..n];
      assert flags == init + [flags[n]];
      CounterAgainstPrefix(init);
      FirstClearAppend(init, flags[n]);
      CountAppend(init, flags[n]);
      assert forall i :: 0 <= i < n ==> flags[i] == init[i];
    }
  }

  // ---------------------------------------------------------------------------
  // Verifying what was proposed
  // ---------------------------------------------------------------------------

  /** A verification of the proposal's own candidate, on the base it was drafted for. */
  predicate Answers(v: VerificationInput, p: ProposalInput) {
    && v.baseState == p.baseState && v.baseGeneration == p.baseGeneration
    && v.proposer.revision == p.proposer.revision
    && v.tokenizer != 0 && v.vocabSize == VOCAB
  }

  /** Branch b's shift is invisible exactly when b + 1 is a multiple of the vocabulary size. */
  lemma PerturbedIsDifferent(expected: Token, branch: u32)
    requires expected < VOCAB
    ensures Perturbed(expected, branch) == expected <==> (branch + 1) % VOCAB == 0
  {
    ModVocab(expected + 1 + branch);
    var shift := (branch + 1) % VOCAB;
    assert (expected + (branch + 1)) % VOCAB == (expected + shift) % VOCAB;
  }

  lemma ModVocab(x: nat)
    ensures x % 0x1_0000_0000 % VOCAB == x % VOCAB
  {
    var q, r := x / 0x1_0000_0000, x % 0x1_0000_0000;
    RemainderIs(x, 0x10_0000 * q + r / 4096, r % 4096);
  }

  lemma RemainderIs(x: int, q: int, r: int)
    requires x == 4096 * q + r && 0 <= r < 4096
    ensures x % 4096 == r
  {
  }

  /** Up to the alignment boundary the draft is the target path. */
  lemma {:induction false} DraftIsAligned(src: Source, aligned: u32, branch: u32, n: nat)
    requires n <= aligned
    ensures src.Draft(aligned, branch, n) == src.TargetPath(n)
  {
    if n > 0 {
      DraftIsAligned(src, aligned, branch, n - 1);
    }
  }

  lemma {:induction false} PathsExtend(src: Source, aligned: u32, branch: u32, k: nat, n: nat)
    requires k <= n
    ensures src.TargetPath(n)[..k] == src.TargetPath(k)
    ensures src.Draft(aligned, branch, n)[..k] == src.Draft(aligned, branch, k)
  {
    hide *;
    if k < n {
      TargetOne(src, n - 1);
      DraftOne(src, aligned, branch, n - 1);
      PathsExtend(src, aligned, branch, k, n - 1);
      PrefixOfAppend(src.TargetPath(n - 1), src.TargetPath(n)[n - 1], k);
      PrefixOfAppend(src.Draft(aligned, branch, n - 1), src.Draft(aligned, branch, n)[n - 1], k);
    } else {
      WholePrefix(src.TargetPath(n));
      WholePrefix(src.Draft(aligned, branch, n));
    }
  }

  lemma PrefixOfAppend<T>(s: seq<T>, x: T, k: nat)
    requires k <= |s|
    ensures (s + [x])[..k] == s[..k]
  {
  }

  lemma WholePrefix<T>(s: seq<T>)
    ensures s[..|s|] == s
  {
  }

  /** Just past the boundary the draft differs from the target by the branch's shift. */
  lemma BoundaryTokens(src: Source, aligned: u32, branch: u32, n: nat)
    requires aligned < n
    ensures var expected := src.TargetPath(n)[aligned];
            && expected < VOCAB
            && src.Draft(aligned, branch, n)[aligned] == Perturbed(expected, branch)
  {
    DraftIsAligned(src, aligned, branch, aligned);
    PathsExtend(src, aligned, branch, aligned + 1, n);
    var path := src.TargetPath(aligned);
    assert src.TargetPath(n)[..aligned + 1][aligned] == src.Expect(path);
    assert src.Draft(aligned, branch, n)[..aligned + 1][aligned] == Perturbed(src.Expect(path), branch);
  }

  /** A branch whose shift is invisible drafts the whole target path. */
  lemma {:induction false} InvisibleShift(src: Source, aligned: u32, branch: u32, n: nat)
    requires (branch + 1) % VOCAB == 0
    ensures src.Draft(aligned, branch, n) == src.TargetPath(n)
  {
    if n > 0 {
      InvisibleShift(src, aligned, branch, n - 1);
      PerturbedIsDifferent(src.Expect(src.TargetPath(n - 1)), branch);
    }
  }

  lemma AlignedFlags(src: Source, aligned: u32, branch: u32, n: nat)
    ensures |src.TargetPath(n)| == |src.Draft(aligned, branch, n)| == n
    ensures var flags := Matches(src.TargetPath(n), src.Draft(aligned, branch, n));
            FirstClear(flags) == if (branch + 1) % VOCAB == 0 then n else Min(aligned, n)
  {
    var invisible := (branch + 1) % VOCAB == 0;
    hide *;
    var target, draft := src.TargetPath(n), src.Draft(aligned, branch, n);
    var k := if aligned <= n then aligned else n;
    KeepMin(aligned, n);
    DraftIsAligned(src, aligned, branch, k);
    PathsExtend(src, aligned, branch, k, n);
    if invisible {
      InvisibleShift(src, aligned, branch, n);
      FirstDifference(target, draft, n);
    } else if aligned < n {
      BoundaryTokens(src, aligned, branch, n);
      PerturbedIsDifferent(target[aligned], branch);
      FirstDifference(target, draft, aligned);
    } else {
      FirstDifference(target, draft, n);
    }
  }

  lemma KeepMin(a: int, b: int)
    ensures Min(a, b) == if a <= b then a else b
  {
  }

  /** Two paths that agree up to k, and differ there if they reach that far, match exactly k leading positions. */
  lemma FirstDifference(path: seq<Token>, cand: seq<Token>, k: nat)
    requires |path| == |cand| && k <= |cand| && path[..k] == cand[..k]
    requires k < |cand| ==> path[k] != cand[k]
    ensures FirstClear(Matches(path, cand)) == k
  {
    var flags := Matches(path, cand);
    forall i | 0 <= i < k
      ensures flags[i]
    {
      assert path[..k][i] == cand[..k][i];
    }
    assert k < |flags| ==> !flags[k];
    assert FirstClear(flags) <= |flags|;
  }

  /**
   * The relational theorem. The proposer feeds back its own tokens and the verifier the expected ones, yet
   * verifying a candidate on the base it was drafted for accepts every position before the alignment
   * boundary and rejects first exactly there, unless the branch's shift is invisible, in which case it
   * accepts everything.
   */
  lemma ProposalIsRejectedAtItsBoundary(a: Arithmetic, aligned: u32, p: ProposalInput, v: VerificationInput)
    requires 1 <= p.depth <= MAX_DEPTH && p.computeBudget == 0
    requires Answers(v, p) && ProposeSpec(a, aligned, p).candidate == Some(v.candidate)
    ensures var r := VerifySpec(a, v);
            && r.candidateLength == p.depth
            && (r.firstRejection == Min(aligned, p.depth) <==> aligned >= p.depth || (p.branchIndex + 1) % VOCAB != 0)
            && (r.outcome == FullAccept <==> aligned >= p.depth || (p.branchIndex + 1) % VOCAB == 0)
            && (forall i :: 0 <= i < Min(aligned, p.depth) ==> r.perPosition[i])
            && Min(aligned, p.depth) <= r.firstRejection <= r.acceptedPrefix <= p.depth
            && (r.acceptedPrefix == r.firstRejection <==> NothingMatchesLater(r.perPosition))
            && r.outcome != VerifierFailure
            && r.nextGeneration == v.baseGeneration + r.acceptedPrefix
  {
    AlignedFlags(VerifierSource(a, v), aligned, p.branchIndex, p.depth);
    CounterAgainstPrefix(Flags(a, v));
  }

  // ---------------------------------------------------------------------------
  // Verdicts by positions
  // ---------------------------------------------------------------------------

  /** A candidate the verifier compares at all. */
  predicate Comparable(v: VerificationInput) {
    v.candidate != [] && v.tokenizer != 0 && v.vocabSize == VOCAB
  }

  predicate AllMatch(path: seq<Token>, cand: seq<Token>)
    requires |path| == |cand|
  {
    forall i :: 0 <= i < |cand| ==> cand[i] == path[i]
  }

  predicate NoneMatches(path: seq<Token>, cand: seq<Token>)
    requires |path| == |cand|
  {
    forall i :: 0 <= i < |cand| ==> cand[i] != path[i]
  }

  predicate AllSet(flags: seq<bool>) {
    forall i :: 0 <= i < |flags| ==> flags[i]
  }

  predicate NoneSet(flags: seq<bool>) {
    forall i :: 0 <= i < |flags| ==> !flags[i]
  }

  lemma LastFlag(front: seq<bool>, last: bool)
    ensures AllSet(front + [last]) <==> AllSet(front) && last
    ensures NoneSet(front + [last]) <==> NoneSet(front) && !last
  {
    var flags := front + [last];
    assert flags[|front|] == last && forall i :: 0 <= i < |front| ==> flags[i] == front[i];
  }

  lemma {:induction false} CountExtremes(flags: seq<bool>)
    ensures Count(flags) == |flags| <==> AllSet(flags)
    ensures Count(flags) == 0 <==> NoneSet(flags)
    decreases |flags|
  {
    if |flags| > 0 {
      var front, last := flags[..|flags| - 1], flags[|flags| - 1];
      hide AllSet, NoneSet;
      CountExtremes(front);
      LastFlag(front, last);
      assert flags == front + [last];
    }
  }

  /**
   * The verdict, read off the positions: a failure exactly when the candidate is empty or its identity is refused, and
   * otherwise a full accept when every position matches, a rejection when none does, a partial accept when some do.
   */
  lemma OutcomeByPositions(a: Arithmetic, v: VerificationInput)
    ensures var r, path := VerifySpec(a, v), VerifierSource(a, v).TargetPath(|v.candidate|);
            && (r.outcome == VerifierFailure <==> !Comparable(v))
            && (r.retryable <==> v.candidate == [] || v.tokenizer == 0)
            && (Comparable(v) ==>
                  && (r.outcome == FullAccept <==> AllMatch(path, v.candidate))
                  && (r.outcome == RejectAll <==> NoneMatches(path, v.candidate))
                  && (r.outcome == PartialAccept <==> !AllMatch(path, v.candidate) && !NoneMatches(path, v.candidate))
                  && |r.perPosition| == |v.candidate|
                  && forall i :: 0 <= i < |v.candidate| ==> (r.perPosition[i] <==> v.candidate[i] == path[i]))
  {
    hide Source.TargetPath, Count, FirstClear;
    var path := VerifierSource(a, v).TargetPath(|v.candidate|);
    var flags := Flags(a, v);
    CountExtremes(flags);
    assert forall i :: 0 <= i < |flags| ==> (flags[i] <==> v.candidate[i] == path[i]);
  }

  /** The positions whose flag is set. */
  function Positions(flags: seq<bool>): set<nat> {
    set i: nat | i < |flags| && flags[i]
  }

  lemma {:induction false} CountIsCardinality(flags: seq<bool>)
    ensures Count(flags) == |Positions(flags)|
  {
    if |flags| > 0 {
      var last := |flags| - 1;
      CountIsCardinality(flags[..last]);
      assert Positions(flags) == Positions(flags[..last]) + if flags[last] then {last} else {};
    }
  }

  /**
   * A verdict moves the authority by exactly its accepted tokens: the positions that carry the path's token. The
   * counter, the generation and the state advance by their number, and the first rejection is the least of the others,
   * if there is one.
   */
  lemma AuthorityMovesByMatches(a: Arithmetic, v: VerificationInput)
    requires Comparable(v)
    ensures var r, path := VerifySpec(a, v), VerifierSource(a, v).TargetPath(|v.candidate|);
            var matches := set i: nat | i < |path| && v.candidate[i] == path[i];
            && r.acceptedPrefix == r.nextGeneration - v.baseGeneration == |matches|
            && r.nextState.generation - v.baseState.generation == |matches|
            && r.nextState.id == v.baseState.id && r.candidateLength == |v.candidate|
            && (r.firstRejection == |v.candidate| || (r.firstRejection < |path| && r.firstRejection !in matches))
            && forall i :: 0 <= i < r.firstRejection ==> i in matches
  {
    hide Source.TargetPath, Count, Classify;
    var path := VerifierSource(a, v).TargetPath(|v.candidate|);
    CountIsCardinality(Flags(a, v));
    assert Positions(Flags(a, v)) == set i: nat | i < |path| && v.candidate[i] == path[i];
  }

  /** A proposer answers by the depth alone: with that many tokens and the base's direct successor, or with neither. */
  lemma ProposalByDepth(a: Arithmetic, aligned: u32, input: ProposalInput)
    ensures var r := ProposeSpec(a, aligned, input);
            var drafts := 1 <= input.depth <= 256;
            var affordable := input.computeBudget == 0 || input.depth <= input.computeBudget;
            && (r.outcome == Success <==> drafts && affordable)
            && (r.outcome == RetryableFailure <==> drafts && !affordable)
            && (r.outcome == NonRetryableFailure <==> !drafts)
            && r.candidate.Some? == r.speculativeState.Some? == r.outcome.Success?
            && (r.candidate.Some? ==>
                  && |r.candidate.value| == input.depth
                  && r.speculativeState.value.id == input.baseState.id
                  && r.speculativeState.value.generation - input.baseState.generation == 1)
  {
    hide Candidate;
  }

  /** Branches drafted from one base agree up to the boundary, and there exactly when they are congruent. */
  lemma BranchesPartAtTheBoundary(src: Source, aligned: u32, b1: u32, b2: u32, n: nat)
    requires aligned < n
    ensures src.Draft(aligned, b1, n)[..aligned] == src.Draft(aligned, b2, n)[..aligned]
    ensures src.Draft(aligned, b1, n)[aligned] == src.Draft(aligned, b2, n)[aligned] <==> b1 % VOCAB == b2 % VOCAB
  {
    DraftIsAligned(src, aligned, b1, aligned);
    DraftIsAligned(src, aligned, b2, aligned);
    PathsExtend(src, aligned, b1, aligned, n);
    PathsExtend(src, aligned, b2, aligned, n);
    BoundaryTokens(src, aligned, b1, n);
    BoundaryTokens(src, aligned, b2, n);
    ShiftsCongruent(src.TargetPath(n)[aligned], b1, b2);
  }

  /** Whole drafts are equal exactly when they end before the boundary or their branches are congruent. */
  lemma DraftsEqualIff(src: Source, aligned: u32, b1: u32, b2: u32, n: nat)
    ensures src.Draft(aligned, b1, n) == src.Draft(aligned, b2, n) <==> n <= aligned || b1 % VOCAB == b2 % VOCAB
  {
    var congruent := b1 % VOCAB == b2 % VOCAB;
    hide *;
    if n <= aligned {
      DraftIsAligned(src, aligned, b1, n);
      DraftIsAligned(src, aligned, b2, n);
    } else if congruent {
      CongruentDrafts(src, aligned, b1, b2, n);
    } else {
      BranchesPartAtTheBoundary(src, aligned, b1, b2, n);
    }
  }

  lemma {:induction false} CongruentDrafts(src: Source, aligned: u32, b1: u32, b2: u32, n: nat)
    requires b1 % VOCAB == b2 % VOCAB
    ensures src.Draft(aligned, b1, n) == src.Draft(aligned, b2, n)
  {
    if n > 0 {
      CongruentDrafts(src, aligned, b1, b2, n - 1);
      ShiftsCongruent(src.Expect(src.Draft(aligned, b1, n - 1)), b1, b2);
    }
  }

  lemma ShiftsCongruent(expected: Token, b1: u32, b2: u32)
    ensures Perturbed(expected, b1) == Perturbed(expected, b2) <==> b1 % VOCAB == b2 % VOCAB
  {
    ModVocab(expected + 1 + b1);
    ModVocab(expected + 1 + b2);
    CongruentShift(b1, b2, expected + 1);
  }

  lemma CongruentShift(x: nat, y: nat, d: nat)
    ensures (x + d) % VOCAB == (y + d) % VOCAB <==> x % VOCAB == y % VOCAB
  {
  }

  // ---------------------------------------------------------------------------
  // The counter is not a prefix length
  // ---------------------------------------------------------------------------

  /** A candidate that is wrong at its first token and right at every later one. */
  function WrongThenRight(src: Source, n: nat): (s: seq<Token>)
    requires n > 0
    ensures |s| == n
  {
    [(src.TargetPath(n)[0] + 1) % VOCAB] + src.TargetPath(n)[1..]
  }

  lemma {:induction false} CountAllButFirst(flags: seq<bool>)
    requires |flags| > 0 && !flags[0] && forall i :: 0 < i < |flags| ==> flags[i]
    ensures Count(flags) == |flags| - 1
    decreases |flags|
  {
    if |flags| > 1 {
      CountAllButFirst(flags[..|flags| - 1]);
    }
  }

  /**
   * For every base and every length there is a candidate the verifier rejects at its very first token while
   * its counter still reads all but one: read as a prefix length, the counter covers the rejected token.
   */
  lemma CounterCoversRejectedToken(a: Arithmetic, v: VerificationInput, n: nat)
    requires n >= 2 && v.tokenizer != 0 && v.vocabSize == VOCAB && |v.candidate| == n
    requires v.candidate == WrongThenRight(VerifierSource(a, v), n)
    ensures var r := VerifySpec(a, v);
            r.firstRejection == 0 && !r.perPosition[0] && r.acceptedPrefix == n - 1 && r.outcome == PartialAccept
  {
    var path := VerifierSource(a, v).TargetPath(n);
    FirstTargetToken(VerifierSource(a, v), n);
    OnlyTheFirstIsWrong(path, v.candidate);
  }

  lemma FirstTargetToken(src: Source, n: nat)
    requires n > 0
    ensures src.TargetPath(n)[0] < VOCAB
  {
    PathsExtend(src, 0, 0, 1, n);
    assert src.TargetPath(1) == src.TargetPath(0) + [src.Expect([])];
    assert src.TargetPath(n)[..1][0] == src.Expect([]);
  }

  lemma OnlyTheFirstIsWrong(path: seq<Token>, cand: seq<Token>)
    requires |path| == |cand| > 0 && path[0] < VOCAB
    requires cand == [(path[0] + 1) % VOCAB] + path[1..]
    ensures Count(Matches(path, cand)) == |cand| - 1 && FirstClear(Matches(path, cand)) == 0 && !Matches(path, cand)[0]
  {
    CountAllButFirst(Matches(path, cand));
  }

  /** Every counted position is a matching one exactly when the counter is the leading prefix. */
  lemma CountedAreFlaggedIffPrefix(flags: seq<bool>)
    ensures (forall i :: 0 <= i < Count(flags) ==> flags[i]) <==> Count(flags) == FirstClear(flags)
  {
    CounterAgainstPrefix(flags);
  }

  // ---------------------------------------------------------------------------
  // When the counter is a prefix length for every model and base
  // ---------------------------------------------------------------------------

  /** The verifier is asked about the proposer's own candidate of the given shape. */
  predicate Asked(a: Arithmetic, aligned: u32, branch: u32, depth: u32, p: ProposalInput, v: VerificationInput) {
    && p.depth == depth && p.branchIndex == branch && p.computeBudget == 0
    && Answers(v, p) && v.candidate == Candidate(a, aligned, p)
  }

  /** Whatever the word arithmetic and the base, the counter of such a candidate is its leading prefix. */
  ghost predicate CounterIsAlwaysPrefix(aligned: u32, branch: u32, depth: u32) {
    forall a: Arithmetic, p: ProposalInput, v: VerificationInput :: Asked(a, aligned, branch, depth, p, v) ==>
      VerifySpec(a, v).acceptedPrefix == VerifySpec(a, v).firstRejection
  }

  lemma AskedFlags(a: Arithmetic, aligned: u32, branch: u32, depth: u32, p: ProposalInput, v: VerificationInput)
    requires 1 <= depth <= MAX_DEPTH && Asked(a, aligned, branch, depth, p, v)
    ensures var src := VerifierSource(a, v);
            var flags := Matches(src.TargetPath(depth), src.Draft(aligned, branch, depth));
            VerifySpec(a, v).acceptedPrefix == Count(flags) && VerifySpec(a, v).firstRejection == FirstClear(flags)
  {
    hide Source.Draft, Source.TargetPath, Matches, Count, FirstClear;
  }

  /** A draft that goes at most one token past the alignment boundary leaves nothing to match after its mismatch. */
  lemma ShortDraftsCountTheirPrefix(src: Source, aligned: u32, branch: u32, n: nat)
    requires n <= aligned + 1 || (branch + 1) % VOCAB == 0
    ensures var flags := Matches(src.TargetPath(n), src.Draft(aligned, branch, n));
            Count(flags) == FirstClear(flags)
  {
    hide Source.Draft, Source.TargetPath, Count, FirstClear;
    var flags := Matches(src.TargetPath(n), src.Draft(aligned, branch, n));
    AlignedFlags(src, aligned, branch, n);
    CounterAgainstPrefix(flags);
    if aligned < n && (branch + 1) % VOCAB != 0 {
      assert FirstClear(flags) == n - 1;
      ClearAtFirstClear(flags);
    }
  }

  lemma ClearAtFirstClear(flags: seq<bool>)
    requires FirstClear(flags) + 1 == |flags|
    ensures NothingMatchesLater(flags)
  {
    hide FirstClear;
    assert !flags[FirstClear(flags)];
  }

  /**
   * A model that expects the negative of the token before: zero on the target path, and back on it after one shift.
   */
  const MIRROR := Arithmetic(
    (_: u64) => Draw(0, 0),
    (_: u32, _: Token) => 0,
    (_: u32, _: u32, _: u32) => 0,
    (_: u32, _: u32, _: u32, _: nat, prev: Token) => (VOCAB - prev % VOCAB) % VOCAB,
    (_: u32) => 0,
    (_: nat, _: nat, _: nat, _: nat, _: nat) => 0)

  lemma MirrorExpects(src: Source, toks: seq<Token>)
    requires src.a == MIRROR
    ensures src.Expect(toks) == (VOCAB - src.Previous(toks) % VOCAB) % VOCAB
  {
    hide Source.Follow, Source.Previous;
  }

  lemma {:induction false} MirrorTarget(src: Source, n: nat)
    requires src.a == MIRROR
    ensures forall i :: 0 <= i < n ==> src.TargetPath(n)[i] == 0
  {
    hide Source.Expect, Source.Follow, MIRROR;
    if n > 0 {
      MirrorTarget(src, n - 1);
      MirrorExpects(src, src.TargetPath(n - 1));
      assert src.Previous(src.TargetPath(n - 1)) == 0;
    }
  }

  /** Undoing a shift: the negative of the shift, shifted again, is zero. */
  lemma ShiftUndone(branch: u32)
    ensures Perturbed((VOCAB - Perturbed(0, branch) % VOCAB) % VOCAB, branch) == 0
  {
    var d := (1 + branch) % VOCAB;
    ModVocab(1 + branch);
    var e := (VOCAB - d) % VOCAB;
    ModVocab(e + 1 + branch);
    var q := (1 + branch) / VOCAB;
    RemainderIs(e + 1 + branch, if d == 0 then q else q + 1, 0);
  }

  lemma MirrorDrafts(src: Source, aligned: u32, branch: u32, n: nat)
    requires src.a == MIRROR && aligned + 2 <= n
    ensures src.Draft(aligned, branch, n)[aligned as nat + 1] == 0
  {
    hide Source.Expect, Source.Draft, Source.TargetPath, MIRROR, Perturbed;
    var k: nat := aligned;
    MirrorTarget(src, k + 1);
    DraftIsAligned(src, aligned, branch, k);
    DraftOne(src, aligned, branch, k);
    DraftOne(src, aligned, branch, k + 1);
    TargetOne(src, k);
    var short, next := src.Draft(aligned, branch, k), src.Draft(aligned, branch, k + 1);
    assert src.Expect(short) == src.TargetPath(k + 1)[k] == 0;
    assert src.Previous(next) == Perturbed(0, branch);
    MirrorExpects(src, next);
    ShiftUndone(branch);
    PathsExtend(src, aligned, branch, k + 2, n);
    assert src.Draft(aligned, branch, n)[..k + 2][k + 1] == 0;
  }

  /**
   * From every base, the mirror model matches again just after the boundary, so the counter covers a rejected token.
   */
  lemma MirrorMatchesAgain(src: Source, aligned: u32, branch: u32, n: nat)
    requires src.a == MIRROR && aligned + 2 <= n && (branch + 1) % VOCAB != 0
    ensures var flags := Matches(src.TargetPath(n), src.Draft(aligned, branch, n));
            FirstClear(flags) == aligned < Count(flags)
  {
    hide Source.Draft, Source.TargetPath, Count, FirstClear, MIRROR;
    var flags := Matches(src.TargetPath(n), src.Draft(aligned, branch, n));
    MirrorDrafts(src, aligned, branch, n);
    MirrorTarget(src, n);
    AlignedFlags(src, aligned, branch, n);
    CounterAgainstPrefix(flags);
    assert flags[aligned as nat + 1];
    assert FirstClear(flags) == aligned;
  }

  /**
   * The condition a caller can check before a cycle. For the shipped proposer the verifier's counter is a leading
   * prefix, whatever the model and the base, exactly when the depth exceeds the alignment by at most one or the
   * branch's shift is invisible.
   */
  lemma CounterIsAlwaysPrefixIff(aligned: u32, branch: u32, depth: u32)
    requires 1 <= depth <= MAX_DEPTH
    ensures CounterIsAlwaysPrefix(aligned, branch, depth) <==> depth <= aligned as nat + 1 || (branch + 1) % VOCAB == 0
  {
    hide VerifySpec, Candidate, Source.Draft, Source.TargetPath, MIRROR;
    if depth <= aligned as nat + 1 || (branch + 1) % VOCAB == 0 {
      forall a: Arithmetic, p: ProposalInput, v: VerificationInput | Asked(a, aligned, branch, depth, p, v)
        ensures VerifySpec(a, v).acceptedPrefix == VerifySpec(a, v).firstRejection
      {
        AskedFlags(a, aligned, branch, depth, p, v);
        ShortDraftsCountTheirPrefix(VerifierSource(a, v), aligned, branch, depth);
      }
    } else {
      var p := ProposalInput(0, 0, 0, 0, 0, 0, StateRef(0, 0), 0, depth, branch, 1, 0, ModelIdentity(0, 0, 0), 0);
      var v := VerificationInput(
        0, 0, 0, 0, 0, Candidate(MIRROR, aligned, p), 1, VOCAB, p.proposer, p.proposer, StateRef(0, 0), 0, 0);
      assert Asked(MIRROR, aligned, branch, depth, p, v);
      AskedFlags(MIRROR, aligned, branch, depth, p, v);
      MirrorMatchesAgain(VerifierSource(MIRROR, v), aligned, branch, depth);
    }
  }
}
