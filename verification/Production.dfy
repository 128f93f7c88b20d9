/** The word arithmetic of the shipped executors, with its exact wrap-around. */
module Production {
  import opened Words
  import opened Synthetic

  function Low64(n: nat): bv64 {
    (n % 0x1_0000_0000_0000_0000) as bv64
  }

  function Scramble(y: bv64): bv64 {
    var z0 := (y ^ (y >> 30)) * 0xBF58476D1CE4E5B9;
    var z1 := (z0 ^ (z0 >> 27)) * 0x94D049BB133111EB;
    z1 ^ (z1 >> 31)
  }

  /** The low 32 bits of a 64-bit word. */
  function Narrow(z: bv64): u32 {
    (z as int) % 0x1_0000_0000
  }

  /** The word drawn from an advanced generator. */
  function WordAt(y: u64): u32 {
    Narrow(Scramble(y as bv64))
  }

  function SplitMix64(x: u64): Draw {
    var y := (x + 0x9E3779B97F4A7C15) % 0x1_0000_0000_0000_0000;
    Draw(y, WordAt(y))
  }

  function Mix64(a: bv64, b: bv64, c: bv64, d: bv64): bv64 {
    var x0 := (a * 0x9E3779B97F4A7C15) ^ b;
    var x1 := (x0 ^ (x0 >> 27)) * 0xBF58476D1CE4E5B9;
    var x2 := (x1 ^ (x1 >> 31)) * 0x94D049BB133111EB;
    var x3 := (x2 ^ (x2 >> 27)) + c * 0x9E3779B97F4A7C15;
    var x4 := x3 ^ d;
    var x5 := (x4 ^ (x4 >> 30)) * 0xBF58476D1CE4E5B9;
    var x6 := (x5 ^ (x5 >> 29)) * 0x94D049BB133111EB;
    x6 ^ (x6 >> 32)
  }

  function SeedOf(stateId: nat, stateGeneration: nat, baseGeneration: nat, revision: nat, length: nat): u64 {
    var base := (Low64(stateId) * 0x9E3779B97F4A7C15) ^ (Low64(stateGeneration) * 0x94D049BB133111EB);
    Mix64(base, Low64(baseGeneration), Low64(revision), Low64(length) * 0x100000001B3) as int
  }

  function StartBits(bias: bv32, tok: bv32): bv32 {
    bias ^ (0x9E3779B9 * tok)
  }

  function StartRow(bias: u32, tok: Token): u32 {
    StartBits(bias as bv32, tok as bv32) as int
  }

  function FoldBits(acc: bv32, state: bv32, weight: bv32): bv32 {
    (acc * 0x85EBCA6B) ^ (state * weight)
  }

  function FoldWord(acc: u32, state: u32, weight: u32): u32 {
    FoldBits(acc as bv32, state as bv32, weight as bv32) as int
  }

  function RawBits(s0: bv32, s7: bv32, s13: bv32, position: bv32, prev: bv32): bv32 {
    s0 ^ s7 ^ s13 ^ (0x9E3779B9 * position) ^ 0x85EBCA6B ^ prev
  }

  function RawToken(s0: u32, s7: u32, s13: u32, index: nat, prev: Token): u32 {
    var position := (index + 1) % 0x1_0000_0000;
    RawBits(s0 as bv32, s7 as bv32, s13 as bv32, position as bv32, prev as bv32) as int
  }

  function Low16(w: u32): u32 {
    w % 0x1_0000
  }

  const SHIPPED: Arithmetic := Arithmetic(SplitMix64, StartRow, FoldWord, RawToken, Low16, SeedOf)
}
