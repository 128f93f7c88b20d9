/**
 * The archive checksum: CRC-32 as clause 3.2.9 of IEEE 802.3-2018 defines it, with the
 * register reflected so that each byte enters least significant bit first.
 *
 * The register is a 32-bit word, kept here as its 32 bits, lowest first. Everything that needs
 * induction is proved once, in LinearRegister, from a handful of word laws.
 */
module Crc {
  import opened Words
  import opened LinearRegister

  /** A 32-bit word, bit 0 first. */
  type Word = w: seq<bool> | |w| == 32 witness seq(32, _ => false)

  /** 0xEDB88320: the reflected polynomial. */
  const POLYNOMIAL: Word := [
    false, false, false, false, false, true, false, false, true, true, false, false, false, false, false, true,
    false, false, false, true, true, true, false, true, true, false, true, true, false, true, true, true]

  function Fill(b: bool): Word {
    seq(32, _ => b)
  }

  function Xor(x: Word, y: Word): Word {
    seq(32, i requires 0 <= i < 32 => x[i] != y[i])
  }

  function And(x: Word, y: Word): Word {
    seq(32, i requires 0 <= i < 32 => x[i] && y[i])
  }

  function Not(x: Word): Word {
    seq(32, i requires 0 <= i < 32 => !x[i])
  }

  function Shr(x: Word): Word {
    x[1..] + [false]
  }

  function Shl(x: Word): Word {
    [false] + x[..31]
  }

  /** The one-digit word b. */
  function Bit(b: bool): Word {
    [b] + seq(31, _ => false)
  }

  /** One step of the register: a shift, and the polynomial masked by the bit that fell out. */
  function BitStep(c: Word): Word {
    Xor(Shr(c), And(POLYNOMIAL, Fill(c[0])))
  }

  function BitSteps(c: Word, k: nat): Word {
    if k == 0 then c else BitStep(BitSteps(c, k - 1))
  }

  predicate Fits(w: Word, n: nat) {
    forall i :: n <= i < 32 ==> !w[i]
  }

  function Algebra32(): Algebra<Word> {
    Algebra(BitStep, Xor, Fill(false), Bit, Shl, Fits)
  }

  // ---------------------------------------------------------------------------
  // Bytes and their bits
  // ---------------------------------------------------------------------------

  /** The low n binary digits of v, lowest first. */
  function Digits(v: nat, n: nat): (s: seq<bool>)
    ensures |s| == n
  {
    if n == 0 then [] else [v % 2 == 1] + Digits(v / 2, n - 1)
  }

  /** The number with the given binary digits. */
  function Value(s: seq<bool>): (v: nat)
    ensures |s| == 0 ==> v == 0
  {
    if |s| == 0 then 0 else (if s[0] then 1 else 0) + 2 * Value(s[1..])
  }

  function Power2(n: nat): (r: nat)
    ensures r > 0
  {
    if n == 0 then 1 else 2 * Power2(n - 1)
  }

  lemma {:induction false} ValueBelow(s: seq<bool>)
    ensures Value(s) < Power2(|s|)
  {
    if |s| > 0 {
      ValueBelow(s[1..]);
    }
  }

  lemma {:induction false} ValueOfDigits(v: nat, n: nat)
    requires v < Power2(n)
    ensures Value(Digits(v, n)) == v
  {
    if n > 0 {
      ValueOfDigits(v / 2, n - 1);
      assert Digits(v, n)[1..] == Digits(v / 2, n - 1);
    }
  }

  lemma {:induction false} DigitsOfValue(s: seq<bool>)
    ensures Digits(Value(s), |s|) == s
  {
    if |s| > 0 {
      DigitsOfValue(s[1..]);
      assert s == [s[0]] + s[1..];
    }
  }

  /** The bits of a byte in the order the register takes them. */
  function ByteBits(b: byte): (s: seq<bool>)
    ensures |s| == 8
  {
    Digits(b, 8)
  }

  /** The byte with the given bits. */
  function PackByte(s: seq<bool>): byte
    requires |s| == 8
  {
    ValueBelow(s);
    assert Power2(8) == 256;
    Value(s)
  }

  lemma ByteBitsInjective(a: byte, b: byte)
    requires ByteBits(a) == ByteBits(b)
    ensures a == b
  {
    assert Power2(8) == 256;
    ValueOfDigits(a, 8);
    ValueOfDigits(b, 8);
  }

  function Bits(data: seq<byte>): (s: seq<bool>)
    ensures |s| == 8 * |data|
  {
    if |data| == 0 then [] else ByteBits(data[0]) + Bits(data[1..])
  }

  /** A byte zero-extended to a word. */
  function Extend(b: byte): Word {
    ByteBits(b) + seq(24, _ => false)
  }

  /** The register after a byte string, started with all ones. */
  function Register(data: seq<byte>): Word {
    Run(Algebra32(), Fill(true), Bits(data))
  }

  function Checksum(data: seq<byte>): Word {
    Not(Register(data))
  }

  // ---------------------------------------------------------------------------
  // The checksum loop
  // ---------------------------------------------------------------------------

  method Crc32(data: seq<byte>) returns (crc: Word)
    ensures crc == Checksum(data)
  {
    crc := Fill(true);
    RegisterEmpty();
    for i := 0 to |data|
      invariant crc == Register(data[..i])
    {
      RegisterAppend(data[..i], data[i]);
      assert data[..i] + [data[i]] == data[..i + 1];
      crc := Xor(crc, Extend(data[i]));
      ghost var entered := crc;
      for k := 0 to 8
        invariant crc == BitSteps(entered, k)
      {
        var mask := Fill(crc[0]);
        crc := Xor(Shr(crc), And(POLYNOMIAL, mask));
      }
    }
    assert data[..|data|] == data;
    crc := Not(crc);
  }

  lemma RegisterEmpty()
    ensures Register([]) == Fill(true)
  {
    assert Bits([]) == [];
  }

  lemma {:induction false} BitsConcat(x: seq<byte>, y: seq<byte>)
    ensures Bits(x + y) == Bits(x) + Bits(y)
  {
    if |x| == 0 {
      assert x + y == y;
    } else {
      assert (x + y)[1..] == x[1..] + y;
      BitsConcat(x[1..], y);
    }
  }

  lemma RegisterAppend(data: seq<byte>, b: byte)
    ensures Register(data + [b]) == BitSteps(Xor(Register(data), Extend(b)), 8)
  {
    BitsConcat(data, [b]);
    assert Bits([b]) == ByteBits(b) + Bits([]);
    assert Bits([b]) == ByteBits(b);
    RunConcat(Algebra32(), Fill(true), Bits(data), ByteBits(b));
    RunOfBits(Register(data), ByteBits(b));
    SpellIsPadding(ByteBits(b));
  }

  /** Up to 32 bits enter as one word. */
  lemma RunOfBits(c: Word, bits: seq<bool>)
    requires |bits| <= 32
    ensures Run(Algebra32(), c, bits) == BitSteps(Xor(c, Spell(Algebra32(), bits)), |bits|)
  {
    WordLaws();
    RunOfSpell(Algebra32(), c, bits);
    StepsAreBitSteps(Xor(c, Spell(Algebra32(), bits)), |bits|);
  }

  lemma {:induction false} SpellIsPadding(bits: seq<bool>)
    requires |bits| <= 32
    ensures Spell(Algebra32(), bits) == bits + seq(32 - |bits|, _ => false)
  {
    if |bits| > 0 {
      SpellIsPadding(bits[1..]);
    }
  }

  lemma {:induction false} StepsAreBitSteps(c: Word, k: nat)
    ensures Steps(Algebra32(), c, k) == BitSteps(c, k)
  {
    if k > 0 {
      StepsAreBitSteps(c, k - 1);
    }
  }

  // ---------------------------------------------------------------------------
  // The word laws
  // ---------------------------------------------------------------------------

  lemma WordLaws()
    ensures Detecting(Algebra32())
  {
    StepLaw();
    XorLaw();
    ShiftLaw();
    FitLaw();
    LawfulIsDetecting(Algebra32());
  }

  lemma StepLaw()
    ensures StepIsLinear(Algebra32())
  {
    forall x, y
      ensures BitStep(Xor(x, y)) == Xor(BitStep(x), BitStep(y))
    {
    }
    forall x | BitStep(x) == Fill(false)
      ensures x == Fill(false)
    {
      StepKernel(x);
    }
  }

  /** The polynomial's top bit is set, so a one that falls out cannot leave the register empty. */
  lemma StepKernel(x: Word)
    requires BitStep(x) == Fill(false)
    ensures x == Fill(false)
  {
    assert BitStep(x)[31] == x[0];
    forall i | 0 < i < 32
      ensures !x[i]
    {
      assert BitStep(x)[i - 1] == x[i];
    }
  }

  lemma XorLaw()
    ensures XorIsGroup(Algebra32())
  {
    forall x, y, z {:trigger Xor(x, Xor(y, z))}
      ensures Xor(x, Xor(y, z)) == Xor(Xor(x, y), z)
    {
    }
    forall x, y, d | Xor(x, d) == Xor(y, d) || Xor(d, x) == Xor(d, y)
      ensures x == y
    {
      XorCancelsAt(x, y, d);
    }
    forall x
      ensures Xor(x, x) == Fill(false) && Xor(x, Fill(false)) == x
    {
    }
  }

  lemma XorCancelsAt(x: Word, y: Word, d: Word)
    requires Xor(x, d) == Xor(y, d) || Xor(d, x) == Xor(d, y)
    ensures x == y
  {
    forall i | 0 <= i < 32
      ensures x[i] == y[i]
    {
      assert Xor(x, d)[i] == (x[i] != d[i]) && Xor(y, d)[i] == (y[i] != d[i]);
      assert Xor(d, x)[i] == (d[i] != x[i]) && Xor(d, y)[i] == (d[i] != y[i]);
    }
  }

  lemma ShiftLaw()
    ensures StepUndoesShift(Algebra32())
  {
    forall w, n: nat | n < 32 && Fits(w, n)
      ensures BitStep(Shl(w)) == w
    {
      assert !w[31];
    }
    forall w, v
      ensures Xor(Bit(true), Shl(w)) != Xor(Bit(false), Shl(v))
    {
      assert Xor(Bit(true), Shl(w))[0] && !Xor(Bit(false), Shl(v))[0];
    }
  }

  lemma FitLaw()
    ensures PushKeepsFit(Algebra32())
  {
    forall b, w, n: nat | n < 31 && Fits(w, n)
      ensures Fits(Xor(Bit(b), Shl(w)), n + 1)
    {
    }
  }

  // ---------------------------------------------------------------------------
  // The trailer
  // ---------------------------------------------------------------------------

  /** The four trailing checksum bytes, low byte first. */
  function Trailer(crc: Word): (s: seq<byte>)
    ensures |s| == 4
  {
    [PackByte(crc[0..8]), PackByte(crc[8..16]), PackByte(crc[16..24]), PackByte(crc[24..32])]
  }

  /** The word those four bytes spell. */
  function Stored(s: seq<byte>): Word
    requires |s| == 4
  {
    Bits(s)
  }

  lemma StoredTrailer(crc: Word)
    ensures Stored(Trailer(crc)) == crc
  {
    BitsOfFour(Trailer(crc));
    BitsOfPack(crc[0..8]);
    BitsOfPack(crc[8..16]);
    BitsOfPack(crc[16..24]);
    BitsOfPack(crc[24..32]);
    FourEights(crc);
  }

  lemma BitsOfPack(s: seq<bool>)
    requires |s| == 8
    ensures ByteBits(PackByte(s)) == s
  {
    DigitsOfValue(s);
  }

  lemma FourEights(w: Word)
    ensures w[0..8] + w[8..16] + w[16..24] + w[24..32] == w
  {
  }

  lemma BitsOfFour(s: seq<byte>)
    requires |s| == 4
    ensures Bits(s) == ByteBits(s[0]) + ByteBits(s[1]) + ByteBits(s[2]) + ByteBits(s[3])
  {
    assert s[1..][1..] == s[2..] && s[2..][1..] == s[3..] && s[3..][1..] == [];
    assert Bits(s[3..]) == ByteBits(s[3]);
    assert Bits(s[2..]) == ByteBits(s[2]) + ByteBits(s[3]);
    assert Bits(s[1..]) == ByteBits(s[1]) + (ByteBits(s[2]) + ByteBits(s[3]));
  }

  /** What every correctly sealed string leaves in the register, whatever it says. */
  function Residue(): Word {
    BitSteps(Fill(true), 32)
  }

  /** A string ends in its own checksum exactly when the register over all of it is the residue. */
  lemma SealedIffResidue(payload: seq<byte>, trailer: seq<byte>)
    requires |trailer| == 4
    ensures Stored(trailer) == Checksum(payload) <==> Register(payload + trailer) == Residue()
  {
    var before, w := Register(payload), Stored(trailer);
    RegisterWithTrailer(payload, trailer);
    XorIsAllOnes(before, w);
    if BitSteps(Xor(before, w), 32) == Residue() {
      BitStepsInjective(Xor(before, w), Fill(true), 32);
    }
  }

  lemma RegisterWithTrailer(payload: seq<byte>, trailer: seq<byte>)
    requires |trailer| == 4
    ensures Register(payload + trailer) == BitSteps(Xor(Register(payload), Stored(trailer)), 32)
  {
    BitsConcat(payload, trailer);
    RunConcat(Algebra32(), Fill(true), Bits(payload), Bits(trailer));
    RunOfBits(Register(payload), Bits(trailer));
    SpellIsPadding(Bits(trailer));
    assert Spell(Algebra32(), Bits(trailer)) == Bits(trailer);
  }

  lemma XorIsAllOnes(x: Word, w: Word)
    ensures Xor(x, w) == Fill(true) <==> w == Not(x)
  {
    if Xor(x, w) == Fill(true) {
      forall i | 0 <= i < 32
        ensures w[i] == Not(x)[i]
      {
        assert Xor(x, w)[i];
      }
    }
  }

  lemma BitStepsInjective(x: Word, y: Word, k: nat)
    requires BitSteps(x, k) == BitSteps(y, k)
    ensures x == y
  {
    WordLaws();
    StepsAreBitSteps(x, k);
    StepsAreBitSteps(y, k);
    StepsInjective(Algebra32(), x, y, k);
  }

  // ---------------------------------------------------------------------------
  // Burst detection on byte strings
  // ---------------------------------------------------------------------------

  lemma {:induction false} BitsAt(data: seq<byte>, i: nat)
    requires i < |data|
    ensures Bits(data)[8 * i..8 * i + 8] == ByteBits(data[i])
  {
    if i == 0 {
      assert Bits(data)[0..8] == ByteBits(data[0]);
    } else {
      BitsAt(data[1..], i - 1);
      assert Bits(data)[8 * i..8 * i + 8] == Bits(data[1..])[8 * (i - 1)..8 * (i - 1) + 8];
    }
  }

  lemma BitsInjective(x: seq<byte>, y: seq<byte>)
    requires Bits(x) == Bits(y)
    ensures x == y
  {
    forall i | 0 <= i < |x|
      ensures x[i] == y[i]
    {
      BitsAt(x, i);
      BitsAt(y, i);
      ByteBitsInjective(x[i], y[i]);
    }
  }

  /** Different byte strings whose bits differ only inside 32 consecutive positions leave different registers. */
  lemma BitBurstDetected(x: seq<byte>, y: seq<byte>, k: nat)
    requires AgreeOutside(Bits(x), Bits(y), k, 32) && x != y
    ensures Register(x) != Register(y)
  {
    WordLaws();
    if Bits(x) == Bits(y) {
      BitsInjective(x, y);
    }
    BurstDetected(Algebra32(), Fill(true), Bits(x), Bits(y), k);
  }

  /** A window of four bytes is a window of 32 bits. */
  lemma ByteWindow(x: seq<byte>, y: seq<byte>, k: nat)
    requires AgreeOutside(x, y, k, 4)
    ensures AgreeOutside(Bits(x), Bits(y), 8 * k, 32)
  {
    forall i | 0 <= i < |Bits(x)| && (i < 8 * k || 8 * k + 32 <= i)
      ensures Bits(x)[i] == Bits(y)[i]
    {
      BitsAt(x, i / 8);
      BitsAt(y, i / 8);
      assert Bits(x)[i] == Bits(x)[8 * (i / 8)..8 * (i / 8) + 8][i % 8];
      assert Bits(y)[i] == Bits(y)[8 * (i / 8)..8 * (i / 8) + 8][i % 8];
    }
  }
}
