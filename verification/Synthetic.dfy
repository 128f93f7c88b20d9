/**
 * The synthetic model shared by the CPU and the CUDA executors: a 16-word hidden state, a
 * weight matrix, and a token read off the state.
 *
 * The word arithmetic is a parameter. Nothing proved about the executors depends on its bits,
 * so everything holds for whatever functions are plugged in; `Production` plugs in the real ones.
 */
module Synthetic {
  import opened Words

  const STATE_WORDS := 16
  const VOCAB := 4096

  /** One splitmix64 update: the advanced generator and the 32-bit word it yields. */
  datatype Draw = Draw(next: u64, word: u32)

  datatype Arithmetic = Arithmetic(
    draw: u64 -> Draw,
    /** bias ^ mix_a * token */
    start: (u32, Token) -> u32,
    /** acc * mix_b ^ state * weight */
    fold: (u32, u32, u32) -> u32,
    /** state[0] ^ state[7] ^ state[13] ^ mix_a * (index + 1) ^ mix_b ^ previous token */
    raw: (u32, u32, u32, nat, Token) -> u32,
    /** low 16 bits */
    low16: u32 -> u32,
    /** the 64-bit seed of a state id, a state generation, a base generation, a revision and a length */
    seed: (nat, nat, nat, nat, nat) -> u64)

  type State = s: seq<u32> | |s| == STATE_WORDS witness seq(16, _ => 0)

  type Matrix = w: seq<seq<u32>> | |w| == STATE_WORDS && forall i :: 0 <= i < STATE_WORDS ==> |w[i]| == STATE_WORDS
    witness seq(16, _ => seq(16, _ => 0))

  datatype Model = Model(weights: Matrix, bias: State)

  /** The generator after n updates. */
  function Advance(a: Arithmetic, x: u64, n: nat): u64 {
    if n == 0 then x else a.draw(Advance(a, x, n - 1)).next
  }

  /** The n-th word drawn from x, counting from 0. */
  function Word(a: Arithmetic, x: u64, n: nat): u32 {
    a.draw(Advance(a, x, n)).word
  }

  const TARGET_START: u64 := 0x1_05A1_7B0C

  /** The word that becomes weight (i, j) of the target model, or bias i when j is 16. */
  function TargetWord(a: Arithmetic, i: nat, j: nat): u32 {
    a.low16(Word(a, TARGET_START, 17 * i + j))
  }

  function TargetRow(a: Arithmetic, i: nat): State {
    seq(16, j requires 0 <= j < 16 => TargetWord(a, i, j))
  }

  function TargetModel(a: Arithmetic): Model {
    Model(seq(16, i requires 0 <= i < 16 => TargetRow(a, i)),
          seq(16, i requires 0 <= i < 16 => TargetWord(a, i, 16)))
  }

  /** Fills the matrix row by row, drawing the bias of a row after its weights. */
  method MakeModel(a: Arithmetic) returns (m: Model)
    ensures m == TargetModel(a)
  {
    var x := TARGET_START;
    var rows: seq<seq<u32>> := [];
    var bias: seq<u32> := [];
    for i := 0 to 16
      invariant x == Advance(a, TARGET_START, 17 * i)
      invariant |rows| == |bias| == i
      invariant forall r :: 0 <= r < i ==> rows[r] == TargetRow(a, r) && bias[r] == TargetWord(a, r, 16)
    {
      var row: seq<u32> := [];
      for j := 0 to 16
        invariant x == Advance(a, TARGET_START, 17 * i + j)
        invariant row == TargetRow(a, i)[..j]
      {
        row := row + [a.low16(a.draw(x).word)];
        x := a.draw(x).next;
      }
      assert row == TargetRow(a, i);
      rows := rows + [row];
      bias := bias + [a.low16(a.draw(x).word)];
      x := a.draw(x).next;
    }
    assert rows == TargetModel(a).weights && bias == TargetModel(a).bias;
    m := Model(rows, bias);
  }

  /** The flat copy the device kernels index as w[row * 16 + column]. */
  function Flat(m: Model): seq<u32> {
    seq(256, k requires 0 <= k < 256 => m.weights[k / 16][k % 16])
  }

  method BuildTarget(a: Arithmetic, w: array<u32>, b: array<u32>)
    requires w.Length == 256 && b.Length == 16 && w != b
    modifies w, b
    ensures w[..] == Flat(TargetModel(a)) && b[..] == TargetModel(a).bias
  {
    var x := TARGET_START;
    for i := 0 to 16
      invariant x == Advance(a, TARGET_START, 17 * i)
      invariant forall k :: 0 <= k < 16 * i ==> w[k] == TargetWord(a, k / 16, k % 16)
      invariant forall r :: 0 <= r < i ==> b[r] == TargetWord(a, r, 16)
    {
      for j := 0 to 16
        invariant x == Advance(a, TARGET_START, 17 * i + j)
        invariant forall k :: 0 <= k < 16 * i + j ==> w[k] == TargetWord(a, k / 16, k % 16)
        invariant forall r :: 0 <= r < i ==> b[r] == TargetWord(a, r, 16)
      {
        RowAndColumn(i, j);
        w[i * 16 + j] := a.low16(a.draw(x).word);
        x := a.draw(x).next;
      }
      b[i] := a.low16(a.draw(x).word);
      x := a.draw(x).next;
    }
  }

  lemma RowAndColumn(i: nat, j: nat)
    requires j < 16
    ensures (i * 16 + j) / 16 == i && (i * 16 + j) % 16 == j
  {
  }

  // ---------------------------------------------------------------------------
  // The recurrence
  // ---------------------------------------------------------------------------

  function Seeded(a: Arithmetic, seed: u64): State {
    seq(16, i requires 0 <= i < 16 => Word(a, seed, i))
  }

  /** The accumulator of row t after the first j state words. */
  function Partial(a: Arithmetic, m: Model, s: State, tok: Token, t: nat, j: nat): u32
    requires t < 16 && j <= 16
  {
    if j == 0 then a.start(m.bias[t], tok) else a.fold(Partial(a, m, s, tok, t, j - 1), s[j - 1], m.weights[t][j - 1])
  }

  function Stepped(a: Arithmetic, m: Model, s: State, tok: Token): State {
    seq(16, t requires 0 <= t < 16 => Partial(a, m, s, tok, t, 16))
  }

  /** The token the model expects at a position, from the state and the token before it. */
  function TokenOf(a: Arithmetic, s: State, index: nat, prev: Token): (t: Token)
    ensures t < VOCAB
  {
    a.raw(s[0], s[7], s[13], index, prev) % VOCAB
  }

  method SeedState(a: Arithmetic, seed: u64, state: array<u32>)
    requires state.Length == 16
    modifies state
    ensures state[..] == Seeded(a, seed)
  {
    var x := seed;
    for i := 0 to 16
      invariant x == Advance(a, seed, i)
      invariant forall k :: 0 <= k < i ==> state[k] == Word(a, seed, k)
    {
      state[i] := a.draw(x).word;
      x := a.draw(x).next;
    }
  }

  /** Computes the next state beside the current one, then copies it over. */
  method Step(a: Arithmetic, m: Model, state: array<u32>, tok: Token)
    requires state.Length == 16
    modifies state
    ensures state[..] == Stepped(a, m, old(state[..]), tok)
  {
    ghost var before: State := state[..];
    var next := new u32[16];
    for i := 0 to 16
      invariant state[..] == before
      invariant forall k :: 0 <= k < i ==> next[k] == Partial(a, m, before, tok, k, 16)
    {
      var acc := a.start(m.bias[i], tok);
      for j := 0 to 16
        invariant acc == Partial(a, m, before, tok, i, j)
      {
        assert state[j] == before[j];
        acc := a.fold(acc, state[j], m.weights[i][j]);
      }
      next[i] := acc;
    }
    for i := 0 to 16
      invariant forall k :: 0 <= k < 16 ==> next[k] == Stepped(a, m, before, tok)[k]
      invariant state[..i] == Stepped(a, m, before, tok)[..i]
    {
      state[i] := next[i];
    }
    assert state[..] == state[..16];
  }

  // ---------------------------------------------------------------------------
  // What a step is
  // ---------------------------------------------------------------------------

  /** The model is drawn row by row, each bias right after its row: together they spell consecutive draws. */
  lemma ModelSpellsDraws(a: Arithmetic, i: nat)
    requires i < 16
    ensures TargetModel(a).weights[i] + [TargetModel(a).bias[i]]
            == seq(17, j requires 0 <= j < 17 => a.low16(Word(a, TARGET_START, 17 * i + j)))
  {
  }

  lemma {:induction false} AdvanceFromNext(a: Arithmetic, x: u64, n: nat)
    ensures Advance(a, a.draw(x).next, n) == Advance(a, x, n + 1)
  {
    if n > 0 {
      AdvanceFromNext(a, x, n - 1);
    }
  }

  /**
   * Seeding draws in order: it starts with the seed's own draw, and from the next seed it is the same state one on.
   */
  lemma SeedingIsAWindow(a: Arithmetic, seed: u64)
    ensures Seeded(a, seed)[0] == a.draw(seed).word
    ensures Seeded(a, a.draw(seed).next)[..15] == Seeded(a, seed)[1..]
  {
    forall i | 0 <= i < 15
      ensures Seeded(a, a.draw(seed).next)[i] == Seeded(a, seed)[i + 1]
    {
      AdvanceFromNext(a, seed, i);
    }
  }

  /** Word t of the next state depends on nothing of the model but row t and bias t. */
  lemma RowLocality(a: Arithmetic, m1: Model, m2: Model, s: State, tok: Token, t: nat)
    requires t < 16 && m1.bias[t] == m2.bias[t] && m1.weights[t] == m2.weights[t]
    ensures Stepped(a, m1, s, tok)[t] == Stepped(a, m2, s, tok)[t]
  {
    PartialIsLocal(a, m1, m2, s, tok, t, 16);
  }

  lemma {:induction false} PartialIsLocal(a: Arithmetic, m1: Model, m2: Model, s: State, tok: Token, t: nat, n: nat)
    requires t < 16 && n <= 16 && m1.bias[t] == m2.bias[t] && m1.weights[t] == m2.weights[t]
    ensures Partial(a, m1, s, tok, t, n) == Partial(a, m2, s, tok, t, n)
  {
    if n > 0 {
      PartialIsLocal(a, m1, m2, s, tok, t, n - 1);
    }
  }

  const MODULUS := 0x1_0000_0000

  /** The shipped arithmetic's shape with sums for its exclusive ors: multiply and add, modulo 2^32. */
  function Adding(a: Arithmetic, mixA: nat, mixB: nat): Arithmetic {
    a.(start := (bias: u32, tok: Token) => ((bias + mixA * tok) % MODULUS) as u32,
       fold := (acc: u32, s: u32, w: u32) => ((acc * mixB + Product(s, w)) % MODULUS) as u32)
  }

  function Product(x: nat, y: nat): nat {
    x * y
  }

  function Power(b: nat, n: nat): nat {
    if n == 0 then 1 else b * Power(b, n - 1)
  }

  /** The first n products of a row with the state, the j-th weighted by b to the power e - 1 - j. */
  function Weighted(s: State, row: State, b: nat, n: nat, e: nat): nat
    requires n <= 16 && n <= e
  {
    if n == 0 then 0 else Weighted(s, row, b, n - 1, e) + Product(Product(s[n - 1], row[n - 1]), Power(b, e - n))
  }

  lemma {:induction false} WeightedScales(s: State, row: State, b: nat, n: nat, e: nat)
    requires n <= 16 && n <= e
    ensures Weighted(s, row, b, n, e + 1) == b * Weighted(s, row, b, n, e)
  {
    hide Product;
    if n > 0 {
      WeightedScales(s, row, b, n - 1, e);
      Distributes(b, Weighted(s, row, b, n - 1, e), Product(s[n - 1], row[n - 1]), Power(b, e - n));
    }
  }

  lemma Distributes(b: nat, x: nat, y: nat, z: nat)
    ensures b * x + Product(y, b * z) == b * (x + Product(y, z))
  {
  }

  /** Reducing before the next multiplication changes nothing. */
  lemma ReduceFirst(x: nat, b: nat, y: nat)
    ensures (x % MODULUS * b + y) % MODULUS == (x * b + y) % MODULUS
  {
    var q, r := x / MODULUS, x % MODULUS;
    assert x * b == r * b + q * b * MODULUS by {
      assert x == q * MODULUS + r;
      Unfolds(q, r, b);
    }
    DropMultiple(r * b + y, q * b);
  }

  lemma Unfolds(q: nat, r: nat, b: nat)
    ensures (q * MODULUS + r) * b == r * b + q * b * MODULUS
  {
  }

  lemma DropMultiple(z: nat, k: nat)
    ensures (z + k * MODULUS) % MODULUS == z % MODULUS
  {
    assert (z + k * MODULUS) - (z / MODULUS + k) * MODULUS == z % MODULUS;
    QuotientIs(z + k * MODULUS, z / MODULUS + k, z % MODULUS);
  }

  lemma QuotientIs(x: nat, q: nat, r: nat)
    requires x == q * MODULUS + r && r < MODULUS
    ensures x % MODULUS == r
  {
  }

  /** A scaled start and a weighted sum, reduced. */
  function Combined(start: nat, scale: nat, sum: nat): nat {
    (start * scale + sum) % MODULUS
  }

  /** One more multiplication and addition. */
  lemma CombinedNext(start: nat, scale: nat, sum: nat, b: nat, term: nat)
    ensures (Combined(start, scale, sum) * b + term) % MODULUS == Combined(start, b * scale, b * sum + term)
  {
    ReduceFirst(start * scale + sum, b, term);
    Grouped(start, scale, b, sum);
  }

  lemma {:induction false} PartialIsPolynomial(
    a: Arithmetic, mixA: nat, mixB: nat, m: Model, s: State, tok: Token, t: nat, n: nat)
    requires t < 16 && n <= 16
    ensures Partial(Adding(a, mixA, mixB), m, s, tok, t, n)
            == Combined(m.bias[t] + mixA * tok, Power(mixB, n), Weighted(s, m.weights[t], mixB, n, n))
  {
    if n == 0 {
      assert Combined(m.bias[t] + mixA * tok, 1, 0) == (m.bias[t] + mixA * tok) % MODULUS;
    } else {
      hide Product, Combined;
      var start := m.bias[t] + mixA * tok;
      var before := Weighted(s, m.weights[t], mixB, n - 1, n - 1);
      var term := Product(s[n - 1], m.weights[t][n - 1]);
      PartialIsPolynomial(a, mixA, mixB, m, s, tok, t, n - 1);
      CombinedNext(start, Power(mixB, n - 1), before, mixB, term);
      WeightedScales(s, m.weights[t], mixB, n - 1, n - 1);
      TimesOne(term);
    }
  }

  lemma TimesOne(x: nat)
    ensures Product(x, 1) == x
  {
  }

  lemma Grouped(x: nat, p: nat, b: nat, y: nat)
    ensures (x * p + y) * b == x * (b * p) + b * y
  {
  }

  /**
   * What one step computes, told by sums and products alone: with additions for exclusive ors, word t of the next
   * state is row t of the weights against the state, the j-th product scaled by mixB once for every word after it, on
   * top of the bias and the fed-back token scaled by mixB sixteen times.
   */
  lemma StepIsPolynomial(a: Arithmetic, mixA: nat, mixB: nat, m: Model, s: State, tok: Token, t: nat)
    requires t < 16
    ensures Stepped(Adding(a, mixA, mixB), m, s, tok)[t]
            == ((m.bias[t] + mixA * tok) * Power(mixB, 16) + Weighted(s, m.weights[t], mixB, 16, 16)) % MODULUS
  {
    hide Partial, Weighted, Power, Adding;
    PartialIsPolynomial(a, mixA, mixB, m, s, tok, t, 16);
  }

  /** The scalar product of the first n words. */
  function Dot(s: State, row: State, n: nat): nat
    requires n <= 16
  {
    if n == 0 then 0 else Dot(s, row, n - 1) + Product(s[n - 1], row[n - 1])
  }

  lemma {:induction false} PowerOfOne(n: nat)
    ensures Power(1, n) == 1
  {
    if n > 0 {
      PowerOfOne(n - 1);
    }
  }

  lemma {:induction false} WeightedByOne(s: State, row: State, n: nat, e: nat)
    requires n <= 16 && n <= e
    ensures Weighted(s, row, 1, n, e) == Dot(s, row, n)
  {
    hide Product;
    if n > 0 {
      WeightedByOne(s, row, n - 1, e);
      PowerOfOne(e - n);
      TimesOne(Product(s[n - 1], row[n - 1]));
    }
  }

  /** In particular without mixing a step is the matrix applied to the state, plus the bias. */
  lemma StepIsMatrixProduct(a: Arithmetic, m: Model, s: State, tok: Token, t: nat)
    requires t < 16
    ensures Stepped(Adding(a, 0, 1), m, s, tok)[t] == (m.bias[t] + Dot(s, m.weights[t], 16)) % MODULUS
  {
    StepIsPolynomial(a, 0, 1, m, s, tok, t);
    WeightedByOne(s, m.weights[t], 16, 16);
    PowerOfOne(16);
  }

  /** The token is read off words 0, 7 and 13, the index and the previous token, each in its own place. */
  lemma TokenReads(a: Arithmetic, s: State, index: nat, prev: Token)
    ensures TokenOf(a.(raw := (x: u32, y: u32, z: u32, i: nat, p: Token) => x), s, index, prev) == s[0] % VOCAB
    ensures TokenOf(a.(raw := (x: u32, y: u32, z: u32, i: nat, p: Token) => y), s, index, prev) == s[7] % VOCAB
    ensures TokenOf(a.(raw := (x: u32, y: u32, z: u32, i: nat, p: Token) => z), s, index, prev) == s[13] % VOCAB
    ensures TokenOf(a.(raw := (x: u32, y: u32, z: u32, i: nat, p: Token) => (i % MODULUS) as u32), s, index, prev)
            == index % VOCAB
    ensures TokenOf(a.(raw := (x: u32, y: u32, z: u32, i: nat, p: Token) => p), s, index, prev) == prev % VOCAB
    ensures forall s2: State :: s2[0] == s[0] && s2[7] == s[7] && s2[13] == s[13] ==>
              TokenOf(a, s2, index, prev) == TokenOf(a, s, index, prev)
  {
    assert index % MODULUS % VOCAB == index % VOCAB by {
      var q, r := index / MODULUS, index % MODULUS;
      Reduced(index, 0x10_0000 * q + r / VOCAB, r % VOCAB);
    }
  }

  lemma Reduced(x: nat, q: nat, r: nat)
    requires x == q * VOCAB + r && r < VOCAB
    ensures x % VOCAB == r
  {
  }
}
