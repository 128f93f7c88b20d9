/** The checksum on machine words: its step, its trailing bytes, and its published check value. */
module CrcNumbers {
  import opened Words
  import opened Endian
  import opened Crc

  // ---------------------------------------------------------------------------
  // The trailer as a number
  // ---------------------------------------------------------------------------

  lemma PowersOfTwo()
    ensures Power2(8) == 256 && Power2(16) == 0x1_0000 && Power2(24) == 0x100_0000 && Power2(32) == 0x1_0000_0000
  {
    assert Power2(8) == 256;
    DoublePower(8, 8);
    DoublePower(16, 8);
    DoublePower(24, 8);
  }

  lemma {:induction false} DoublePower(n: nat, m: nat)
    ensures Power2(n + m) == Power2(n) * Power2(m)
  {
    if m > 0 {
      DoublePower(n, m - 1);
    }
  }

  /** Halved k times. */
  function Halved(v: nat, k: nat): nat {
    if k == 0 then v else Halved(v / 2, k - 1)
  }

  lemma {:induction false} DropDigits(v: nat, n: nat, k: nat)
    requires k <= n
    ensures Digits(v, n)[k..] == Digits(Halved(v, k), n - k)
  {
    if k > 0 {
      DropDigits(v / 2, n - 1, k - 1);
      assert Digits(v, n)[k..] == Digits(v / 2, n - 1)[k - 1..];
    }
  }

  lemma {:induction false} TakeDigits(v: nat, n: nat, k: nat)
    requires k <= n
    ensures Digits(v, n)[..k] == Digits(v, k)
  {
    if k > 0 {
      TakeDigits(v / 2, n - 1, k - 1);
      assert Digits(v, n)[..k] == [v % 2 == 1] + Digits(v / 2, n - 1)[..k - 1];
    }
  }

  lemma {:induction false} DigitsMod(v: nat, q: nat, r: nat, n: nat)
    requires v == q * Power2(n) + r
    ensures Digits(v, n) == Digits(r, n)
  {
    if n > 0 {
      var p := q * Power2(n - 1);
      assert v == 2 * p + r;
      DigitsMod(v / 2, q, r / 2, n - 1);
    }
  }

  lemma HalvedByte(v: nat)
    ensures Halved(v, 8) == v / 256
  {
    HalvedFour(v);
    HalvedFour(v / 16);
    HalvedMore(v, 4, 4);
  }

  lemma HalvedFour(v: nat)
    ensures Halved(v, 4) == v / 16
  {
    HalvedTwo(v);
    HalvedTwo(v / 4);
    HalvedMore(v, 2, 2);
  }

  lemma HalvedTwo(v: nat)
    ensures Halved(v, 2) == v / 4
  {
    assert Halved(v / 2, 1) == Halved(v / 2 / 2, 0);
  }

  lemma {:induction false} HalvedMore(v: nat, j: nat, k: nat)
    ensures Halved(v, j + k) == Halved(Halved(v, j), k)
  {
    if j > 0 {
      HalvedMore(v / 2, j - 1, k);
    }
  }

  /** Eight digits from place k on are the low byte of what is left after k halvings. */
  lemma Slice(v: nat, k: nat)
    requires k <= 24
    ensures PackByte(Digits(v, 32)[k..k + 8]) == Halved(v, k) % 256
  {
    var w := Halved(v, k);
    DropDigits(v, 32, k);
    TakeDigits(w, 32 - k, 8);
    assert Digits(v, 32)[k..k + 8] == Digits(v, 32)[k..][..8];
    PowersOfTwo();
    DigitsMod(w, w / 256, w % 256, 8);
    ValueOfDigits(w % 256, 8);
  }

  /** The four trailing bytes are the checksum as a little-endian number. */
  lemma TrailerIsLittleEndian(crc: Word)
    ensures Trailer(crc) == Le(Value(crc), 4)
  {
    hide Digits, PackByte, Halved, Value;
    var v := Value(crc);
    DigitsOfValue(crc);
    Slice(v, 0);
    Slice(v, 8);
    Slice(v, 16);
    Slice(v, 24);
    HalvedZero(v);
    HalvedByte(v);
    HalvedMore(v, 8, 8);
    HalvedByte(v / 256);
    HalvedMore(v, 16, 8);
    HalvedByte(v / 256 / 256);
    LeBytes(v);
  }

  lemma HalvedZero(v: nat)
    ensures Halved(v, 0) == v
  {
  }

  lemma LeBytes(v: nat)
    ensures Le(v, 4) == [v % 256, v / 256 % 256, v / 256 / 256 % 256, v / 256 / 256 / 256 % 256]
  {
    LeOne(v, 3);
    LeOne(v / 256, 2);
    LeOne(v / 256 / 256, 1);
    LeOne(v / 256 / 256 / 256, 0);
  }

  lemma LeOne(v: nat, n: nat)
    ensures Le(v, n + 1) == [v % 256] + Le(v / 256, n) && Le(v, 0) == []
  {
  }

  // ---------------------------------------------------------------------------
  // Machine words
  // ---------------------------------------------------------------------------

  function Half(x: bv32): bv32 {
    x >> 1
  }

  predicate Odd(x: bv32) {
    x & 1 == 1
  }

  function XorOf(x: bv32, y: bv32): bv32 {
    x ^ y
  }

  lemma XorHalves(x: bv32, y: bv32)
    ensures Half(XorOf(x, y)) == XorOf(Half(x), Half(y)) && Odd(XorOf(x, y)) == (Odd(x) != Odd(y))
  {
  }

  /** The low n bits of a machine word, lowest first. */
  function BitsOf(x: bv32, n: nat): (s: seq<bool>)
    ensures |s| == n
  {
    if n == 0 then [] else [Odd(x)] + BitsOf(Half(x), n - 1)
  }

  lemma {:induction false} XorBits(x: bv32, y: bv32, n: nat, i: nat)
    requires i < n
    ensures BitsOf(XorOf(x, y), n)[i] == (BitsOf(x, n)[i] != BitsOf(y, n)[i])
    decreases n
  {
    hide Half, Odd, XorOf;
    XorHalves(x, y);
    if i > 0 {
      XorBits(Half(x), Half(y), n - 1, i - 1);
    }
  }

  lemma XorWords(x: bv32, y: bv32)
    ensures Xor(BitsOf(x, 32), BitsOf(y, 32)) == BitsOf(XorOf(x, y), 32)
  {
    hide BitsOf, XorOf;
    forall i | 0 <= i < 32
      ensures BitsOf(XorOf(x, y), 32)[i] == (BitsOf(x, 32)[i] != BitsOf(y, 32)[i])
    {
      XorBits(x, y, 32, i);
    }
  }

  /** Nothing is left after n halvings. */
  predicate Spent(x: bv32, n: nat) {
    if n == 0 then x == 0 else Spent(Half(x), n - 1)
  }

  /** Halved four times. */
  function Shifted(x: bv32): bv32 {
    x >> 4
  }

  lemma FourHalves(x: bv32)
    ensures Half(Half(Half(Half(x)))) == Shifted(x)
  {
  }

  lemma SpentFour(x: bv32, n: nat)
    requires Spent(Shifted(x), n)
    ensures Spent(x, n + 4)
  {
    hide Half, Shifted;
    FourHalves(x);
    assert Spent(Half(Half(x)), n + 2);
  }

  lemma SpentThree(x: bv32)
    requires x < 8
    ensures Spent(x, 3)
  {
    assert Half(Half(Half(x))) == 0;
    assert Spent(Half(Half(x)), 1);
  }

  lemma {:induction false} Padded(x: bv32, n: nat, m: nat)
    requires Spent(x, n)
    ensures BitsOf(x, n + m) == BitsOf(x, n) + seq(m, _ => false)
  {
    if n > 0 {
      hide Half, Odd;
      Padded(Half(x), n - 1, m);
    } else if m > 0 {
      HalfOfZero();
      hide Half, Odd;
      Padded(0, 0, m - 1);
    }
  }

  lemma HalfOfZero()
    ensures Half(0) == 0 && !Odd(0)
  {
  }

  lemma SevenShifts(x: bv32)
    ensures Shifted(Shifted(Shifted(Shifted(Shifted(Shifted(Shifted(Half(x)))))))) < 8
  {
  }

  lemma HalfIsSpent(x: bv32)
    ensures Spent(Half(x), 31)
  {
    SevenShifts(x);
    hide Half, Shifted, Spent;
    var y0 := Half(x);
    var y1, y2 := Shifted(y0), Shifted(Shifted(y0));
    var y3, y4 := Shifted(y2), Shifted(Shifted(y2));
    var y5, y6 := Shifted(y4), Shifted(Shifted(y4));
    SpentThree(Shifted(y6));
    SpentFour(y6, 3);
    SpentFour(y5, 7);
    SpentFour(y4, 11);
    SpentFour(y3, 15);
    SpentFour(y2, 19);
    SpentFour(y1, 23);
    SpentFour(y0, 27);
  }

  lemma ShiftWord(x: bv32)
    ensures Shr(BitsOf(x, 32)) == BitsOf(Half(x), 32)
  {
    hide Half, Odd;
    HalfIsSpent(x);
    Padded(Half(x), 31, 1);
    assert BitsOf(x, 32)[1..] == BitsOf(Half(x), 31);
  }

  // ---------------------------------------------------------------------------
  // The step
  // ---------------------------------------------------------------------------

  lemma FourBits(x: bv32, n: nat)
    ensures BitsOf(x, n + 4) == [Odd(x), Odd(x >> 1), Odd(x >> 2), Odd(x >> 3)] + BitsOf(Shifted(x), n)
  {
    assert Half(x) == x >> 1 && Half(Half(x)) == x >> 2 && Half(Half(Half(x))) == x >> 3;
    FourHalves(x);
    hide Half, Odd, Shifted;
    var h1, h2 := Half(x), Half(Half(x));
    var h3, h4 := Half(h2), Half(Half(h2));
    assert BitsOf(x, n + 4) == [Odd(x)] + BitsOf(h1, n + 3);
    assert BitsOf(h1, n + 3) == [Odd(h1)] + BitsOf(h2, n + 2);
    assert BitsOf(h2, n + 2) == [Odd(h2)] + BitsOf(h3, n + 1);
    assert BitsOf(h3, n + 1) == [Odd(h3)] + BitsOf(h4, n);
  }

  lemma NoBits(x: bv32)
    ensures BitsOf(x, 0) == []
  {
  }

  /** The polynomial is the constant of the loop. */
  lemma PolynomialBits()
    ensures POLYNOMIAL == BitsOf(0xEDB8_8320, 32)
  {
    hide BitsOf;
    LowPolynomial();
    HighPolynomial();
  }

  lemma LowPolynomial()
    ensures BitsOf(0xEDB8_8320, 32) == POLYNOMIAL[..16] + BitsOf(0xEDB8, 16)
  {
    hide BitsOf;
    FourBits(0xEDB8_8320, 28);
    FourBits(0xEDB_8832, 24);
    FourBits(0xED_B883, 20);
    FourBits(0xE_DB88, 16);
  }

  lemma HighPolynomial()
    ensures BitsOf(0xEDB8, 16) == POLYNOMIAL[16..]
  {
    hide BitsOf;
    FourBits(0xEDB8, 12);
    FourBits(0xEDB, 8);
    FourBits(0xED, 4);
    FourBits(0xE, 0);
    NoBits(0);
  }

  lemma {:induction false} ZeroBits(n: nat)
    ensures BitsOf(0, n) == seq(n, _ => false)
  {
    HalfOfZero();
    hide Half, Odd;
    if n > 0 {
      ZeroBits(n - 1);
    }
  }

  /** One turn of the bit loop. */
  function Turn(crc: bv32): bv32 {
    XorOf(Half(crc), if Odd(crc) then 0xEDB8_8320 else 0)
  }

  /** The register's step is that turn of the loop, for every word. */
  lemma StepIsTurn(x: bv32)
    ensures BitStep(BitsOf(x, 32)) == BitsOf(Turn(x), 32)
  {
    hide POLYNOMIAL, BitsOf, Half, Odd, XorOf;
    ShiftWord(x);
    PolynomialBits();
    ZeroBits(32);
    LowBit(x);
    assert And(POLYNOMIAL, Fill(Odd(x))) == BitsOf(if Odd(x) then 0xEDB8_8320 else 0, 32);
    XorWords(Half(x), if Odd(x) then 0xEDB8_8320 else 0);
  }

  lemma LowBit(x: bv32)
    ensures BitsOf(x, 32)[0] == Odd(x)
  {
  }

  function Turns(crc: bv32, k: nat): bv32 {
    if k == 0 then crc else Turn(Turns(crc, k - 1))
  }

  lemma {:induction false} StepsAreTurns(x: bv32, k: nat)
    ensures BitSteps(BitsOf(x, 32), k) == BitsOf(Turns(x, k), 32)
  {
    hide BitsOf, BitStep, Turn;
    if k > 0 {
      StepsAreTurns(x, k - 1);
      StepIsTurn(Turns(x, k - 1));
    }
  }

  // ---------------------------------------------------------------------------
  // The check value
  // ---------------------------------------------------------------------------

  function EightTurns(x: bv32): bv32 {
    Turn(Turn(Turn(Turn(Turn(Turn(Turn(Turn(x))))))))
  }

  lemma TurnsOfEight(x: bv32)
    ensures Turns(x, 8) == EightTurns(x)
  {
    hide Turn;
    TurnsUnfold(x, 0);
    TurnsUnfold(x, 1);
    TurnsUnfold(x, 2);
    TurnsUnfold(x, 3);
    TurnsUnfold(x, 4);
    TurnsUnfold(x, 5);
    TurnsUnfold(x, 6);
    TurnsUnfold(x, 7);
  }

  lemma TurnsUnfold(x: bv32, k: nat)
    ensures Turns(x, k + 1) == Turn(Turns(x, k)) && Turns(x, 0) == x
  {
  }

  /** The register after one more byte, on machine words. */
  lemma NextByte(data: seq<byte>, crc: bv32, b: byte, x: bv32, next: bv32)
    requires Register(data) == BitsOf(crc, 32) && Extend(b) == BitsOf(x, 32) && next == EightTurns(XorOf(crc, x))
    ensures Register(data + [b]) == BitsOf(next, 32)
  {
    hide BitsOf, BitSteps, Register, EightTurns, XorOf, Extend;
    RegisterAppend(data, b);
    XorWords(crc, x);
    StepsAreTurns(XorOf(crc, x), 8);
    TurnsOfEight(XorOf(crc, x));
  }

  function Weight(b: bool, w: nat): nat {
    if b then w else 0
  }

  lemma ValueOfFour(s: seq<bool>)
    requires |s| >= 4
    ensures Value(s) == Weight(s[0], 1) + Weight(s[1], 2) + Weight(s[2], 4) + Weight(s[3], 8) + 16 * Value(s[4..])
  {
    var s1, s2, s3 := s[1..], s[2..], s[3..];
    assert s1[1..] == s2 && s2[1..] == s3 && s3[1..] == s[4..];
    assert Value(s3) == Weight(s[3], 1) + 2 * Value(s[4..]);
    assert Value(s2) == Weight(s[2], 1) + 2 * Value(s3);
    assert Value(s1) == Weight(s[1], 1) + 2 * Value(s2);
  }

  /** A byte and the machine word of the same bits. */
  lemma ExtendedByte(b: byte, x: bv32)
    requires x < 256 && ByteBits(b) == BitsOf(x, 8)
    ensures Extend(b) == BitsOf(x, 32)
  {
    assert Shifted(Shifted(x)) == 0;
    hide Shifted, ByteBits, BitsOf;
    SpentFour(Shifted(x), 0);
    SpentFour(x, 4);
    Padded(x, 8, 24);
  }

  lemma AllOnes()
    ensures Fill(true) == BitsOf(0xFFFF_FFFF, 32)
  {
    hide BitsOf;
    FourBits(0xFFFF_FFFF, 28);
    FourBits(0xFFF_FFFF, 24);
    FourBits(0xFF_FFFF, 20);
    FourBits(0xF_FFFF, 16);
    FourBits(0xFFFF, 12);
    FourBits(0xFFF, 8);
    FourBits(0xFF, 4);
    FourBits(0xF, 0);
    NoBits(0);
  }

  lemma ByteSpelt(b: byte, s: seq<bool>)
    requires |s| == 8
    requires b == Weight(s[0], 1) + Weight(s[1], 2) + Weight(s[2], 4) + Weight(s[3], 8)
                  + Weight(s[4], 16) + Weight(s[5], 32) + Weight(s[6], 64) + Weight(s[7], 128)
    ensures ByteBits(b) == s
  {
    hide Digits, Value;
    ValueOfFour(s);
    ValueOfFour(s[4..]);
    NoValue(s[8..]);
    assert s[4..][4..] == s[8..];
    DigitsOfValue(s);
  }

  predicate Spells(x: bv32, s: seq<bool>)
    requires |s| == 4
  {
    Odd(x) == s[0] && Odd(x >> 1) == s[1] && Odd(x >> 2) == s[2] && Odd(x >> 3) == s[3]
  }

  lemma FourSpelt(x: bv32, s: seq<bool>, n: nat)
    requires |s| == 4 && Spells(x, s)
    ensures BitsOf(x, n + 4) == s + BitsOf(Shifted(x), n)
  {
    FourBits(x, n);
  }

  lemma WordSpelt(x: bv32, low: seq<bool>, high: seq<bool>)
    requires |low| == |high| == 4 && Spells(x, low) && Spells(Shifted(x), high)
    ensures BitsOf(x, 8) == low + high
  {
    hide Spells, Shifted, BitsOf;
    FourSpelt(x, low, 4);
    FourSpelt(Shifted(x), high, 0);
    NoBits(Shifted(Shifted(x)));
  }

  /** A byte and a machine word of the same digits. */
  lemma SameByte(b: byte, low: seq<bool>, high: seq<bool>, x: bv32)
    requires |low| == |high| == 4 && x < 256 && Spells(x, low) && Spells(Shifted(x), high)
    requires b == Weight(low[0], 1) + Weight(low[1], 2) + Weight(low[2], 4) + Weight(low[3], 8)
                  + Weight(high[0], 16) + Weight(high[1], 32) + Weight(high[2], 64) + Weight(high[3], 128)
    ensures Extend(b) == BitsOf(x, 32)
  {
    hide Spells, Shifted, BitsOf, ByteBits, Extend, Weight;
    ByteSpelt(b, low + high);
    WordSpelt(x, low, high);
    ExtendedByte(b, x);
  }

  lemma NoValue(s: seq<bool>)
    requires |s| == 0
    ensures Value(s) == 0
  {
  }

  /** The nine bytes "123456789". */
  const CHECK_INPUT: seq<byte> := [49, 50, 51, 52, 53, 54, 55, 56, 57]

  lemma FirstThree()
    ensures Register(CHECK_INPUT[..3]) == BitsOf(0x77B7_9C2D, 32)
  {
    hide BitsOf, Register, Extend;
    RegisterEmpty();
    AllOnes();
    assert CHECK_INPUT[..0] == [];
    SameByte(49, [true, false, false, false], [true, true, false, false], 0x31);
    NextByte(CHECK_INPUT[..0], 0xFFFF_FFFF, 49, 0x31, 0x7C23_1048);
    assert CHECK_INPUT[..0] + [49] == CHECK_INPUT[..1];
    SameByte(50, [false, true, false, false], [true, true, false, false], 0x32);
    NextByte(CHECK_INPUT[..1], 0x7C23_1048, 50, 0x32, 0xB0AC_BB32);
    assert CHECK_INPUT[..1] + [50] == CHECK_INPUT[..2];
    SameByte(51, [true, true, false, false], [true, true, false, false], 0x33);
    NextByte(CHECK_INPUT[..2], 0xB0AC_BB32, 51, 0x33, 0x77B7_9C2D);
    assert CHECK_INPUT[..2] + [51] == CHECK_INPUT[..3];
  }

  lemma FirstSix()
    ensures Register(CHECK_INPUT[..6]) == BitsOf(0xF68D_2C9E, 32)
  {
    hide BitsOf, Register, Extend;
    FirstThree();
    SameByte(52, [false, false, true, false], [true, true, false, false], 0x34);
    NextByte(CHECK_INPUT[..3], 0x77B7_9C2D, 52, 0x34, 0x641C_1F5C);
    assert CHECK_INPUT[..3] + [52] == CHECK_INPUT[..4];
    SameByte(53, [true, false, true, false], [true, true, false, false], 0x35);
    NextByte(CHECK_INPUT[..4], 0x641C_1F5C, 53, 0x35, 0x340A_C5E3);
    assert CHECK_INPUT[..4] + [53] == CHECK_INPUT[..5];
    SameByte(54, [false, true, true, false], [true, true, false, false], 0x36);
    NextByte(CHECK_INPUT[..5], 0x340A_C5E3, 54, 0x36, 0xF68D_2C9E);
    assert CHECK_INPUT[..5] + [54] == CHECK_INPUT[..6];
  }

  lemma AllNine()
    ensures Register(CHECK_INPUT) == BitsOf(0x340B_C6D9, 32)
  {
    hide BitsOf, Register, Extend;
    FirstSix();
    SameByte(55, [true, true, true, false], [true, true, false, false], 0x37);
    NextByte(CHECK_INPUT[..6], 0xF68D_2C9E, 55, 0x37, 0xAFFC_9660);
    assert CHECK_INPUT[..6] + [55] == CHECK_INPUT[..7];
    SameByte(56, [false, false, false, true], [true, true, false, false], 0x38);
    NextByte(CHECK_INPUT[..7], 0xAFFC_9660, 56, 0x38, 0x651F_2550);
    assert CHECK_INPUT[..7] + [56] == CHECK_INPUT[..8];
    SameByte(57, [true, false, false, true], [true, true, false, false], 0x39);
    NextByte(CHECK_INPUT[..8], 0x651F_2550, 57, 0x39, 0x340B_C6D9);
    assert CHECK_INPUT[..8] + [57] == CHECK_INPUT[..9];
    assert CHECK_INPUT[..9] == CHECK_INPUT;
  }

  /** The published check value of this checksum. */
  lemma CheckValue()
    ensures Checksum(CHECK_INPUT) == BitsOf(0xCBF4_3926, 32)
  {
    hide BitsOf, Register;
    AllNine();
    AllOnes();
    XorWords(0x340B_C6D9, 0xFFFF_FFFF);
    assert Not(Register(CHECK_INPUT)) == Xor(Register(CHECK_INPUT), Fill(true));
  }
}
