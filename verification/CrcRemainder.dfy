/**
 * What the checksum register is: the remainder that clause 3.2.9 of IEEE 802.3-2018 asks for, of the message
 * polynomial divided by the generating polynomial, both with coefficients in the two-element field.
 */
module CrcRemainder {
  import opened Words
  import opened LinearRegister
  import opened Crc

  // ---------------------------------------------------------------------------
  // Polynomials over the two-element field
  // ---------------------------------------------------------------------------

  /** The coefficients, lowest exponent first; a polynomial may be written with zeros at its end. */
  type Poly = seq<bool>

  function Coef(p: Poly, i: nat): bool {
    i < |p| && p[i]
  }

  ghost predicate Same(p: Poly, q: Poly) {
    forall i: nat :: Coef(p, i) == Coef(q, i)
  }

  predicate DegreeBelow(p: Poly, n: nat) {
    forall i :: n <= i < |p| ==> !p[i]
  }

  function Plus(p: Poly, q: Poly): (r: Poly)
    ensures forall i: nat :: Coef(r, i) == (Coef(p, i) != Coef(q, i))
  {
    seq(Max(|p|, |q|), i requires 0 <= i < Max(|p|, |q|) => Coef(p, i) != Coef(q, i))
  }

  function Times(p: Poly, q: Poly): Poly {
    if |p| == 0 then [] else Plus(if p[0] then q else [], Raised(Times(p[1..], q), 1))
  }

  /** Multiplied by the n-th power of x. */
  function Raised(p: Poly, n: nat): (r: Poly)
    ensures forall i: nat :: Coef(r, i) == (i >= n && Coef(p, i - n))
  {
    seq(n, _ => false) + p
  }

  /** r is what is left of p after division by g, whose degree is n. */
  ghost predicate IsRemainder(r: Poly, p: Poly, g: Poly, n: nat) {
    DegreeBelow(r, n) && exists q: Poly :: Same(p, Plus(Times(q, g), r))
  }

  predicate HasDegree(g: Poly, n: nat) {
    Coef(g, n) && DegreeBelow(g, n + 1)
  }

  lemma TimesCoef(b: bool, p: Poly, q: Poly, i: nat)
    ensures Coef(Times([b] + p, q), i) == ((b && Coef(q, i)) != (i >= 1 && Coef(Times(p, q), i - 1)))
  {
    assert ([b] + p)[1..] == p;
  }

  lemma TimesUnfolds(p: Poly, q: Poly, i: nat)
    requires |p| > 0
    ensures Coef(Times(p, q), i) == ((p[0] && Coef(q, i)) != (i >= 1 && Coef(Times(p[1..], q), i - 1)))
  {
  }

  lemma OneUnfold(p: Poly, g: Poly, i: nat)
    ensures Coef(Times(p, g), i)
            == ((Coef(p, 0) && Coef(g, i)) != (i >= 1 && Coef(Times(if |p| > 0 then p[1..] else [], g), i - 1)))
  {
    if |p| > 0 {
      TimesUnfolds(p, g, i);
    }
  }

  lemma {:induction false} TimesDistributes(p: Poly, q: Poly, g: Poly, i: nat)
    ensures Coef(Times(Plus(p, q), g), i) == (Coef(Times(p, g), i) != Coef(Times(q, g), i))
    decreases |p| + |q|
  {
    hide Times;
    var s := Plus(p, q);
    if |s| == 0 {
      ZeroTimes(p, g, 0);
      ZeroTimes(q, g, 0);
      ZeroTimes(s, g, 0);
    } else {
      var p1, q1 := if |p| > 0 then p[1..] else [], if |q| > 0 then q[1..] else [];
      assert s[1..] == Plus(p1, q1);
      TimesUnfolds(s, g, i);
      OneUnfold(p, g, i);
      OneUnfold(q, g, i);
      assert s[0] == (Coef(p, 0) != Coef(q, 0));
      if i >= 1 {
        TimesDistributes(p1, q1, g, i - 1);
      }
    }
  }

  /** A multiple of g other than zero has a term at g's degree or above. */
  lemma {:induction false} MultiplesAreLong(q: Poly, g: Poly, n: nat, d: nat)
    requires HasDegree(g, n) && Coef(q, d) && DegreeBelow(q, d + 1)
    ensures Coef(Times(q, g), d + n)
    decreases |q|
  {
    hide Times;
    TimesUnfolds(q, g, d + n);
    if d == 0 {
      ZeroTimes(q[1..], g, n);
    } else {
      assert q[1..][d - 1] == q[d];
      MultiplesAreLong(q[1..], g, n, d - 1);
    }
  }

  lemma {:induction false} ZeroTimes(q: Poly, g: Poly, n: nat)
    requires DegreeBelow(q, 0)
    ensures forall i: nat :: !Coef(Times(q, g), i)
    decreases |q|
  {
    if |q| > 0 {
      ZeroTimes(q[1..], g, n);
      forall i: nat
        ensures !Coef(Times(q, g), i)
      {
        TimesUnfolds(q, g, i);
      }
    }
  }

  lemma {:induction false} TopTerm(q: Poly) returns (d: nat)
    requires !DegreeBelow(q, 0)
    ensures Coef(q, d) && DegreeBelow(q, d + 1)
    decreases |q|
  {
    var n := |q| - 1;
    if q[n] {
      d := n;
    } else {
      assert q == q[..n] + [false];
      d := TopTerm(q[..n]);
    }
  }

  /** There is only one remainder. */
  lemma RemainderIsUnique(r1: Poly, r2: Poly, p: Poly, g: Poly, n: nat)
    requires HasDegree(g, n) && IsRemainder(r1, p, g, n) && IsRemainder(r2, p, g, n)
    ensures Same(r1, r2)
  {
    hide Times, Plus;
    var q1: Poly :| Same(p, Plus(Times(q1, g), r1));
    var q2: Poly :| Same(p, Plus(Times(q2, g), r2));
    var q := Plus(q1, q2);
    forall i: nat
      ensures Coef(Times(q, g), i) == (Coef(r1, i) != Coef(r2, i))
    {
      TimesDistributes(q1, q2, g, i);
      assert Coef(p, i) == (Coef(Times(q1, g), i) != Coef(r1, i));
      assert Coef(p, i) == (Coef(Times(q2, g), i) != Coef(r2, i));
    }
    if !DegreeBelow(q, 0) {
      var d := TopTerm(q);
      MultiplesAreLong(q, g, n, d);
      assert false;
    }
    ZeroTimes(q, g, n);
  }

  // ---------------------------------------------------------------------------
  // The standard's polynomials
  // ---------------------------------------------------------------------------

  /** The exponents of the generating polynomial. */
  const EXPONENTS: set<nat> := {32, 26, 23, 22, 16, 12, 11, 10, 8, 7, 5, 4, 2, 1, 0}

  const GENERATOR: Poly := seq(33, i requires 0 <= i < 33 => i in EXPONENTS)

  /** A bit string as a polynomial: the bit sent first has the highest power. */
  function FromBits(bits: seq<bool>): (p: Poly)
    ensures |p| == |bits|
  {
    if |bits| == 0 then [] else [bits[|bits| - 1]] + FromBits(bits[..|bits| - 1])
  }

  /**
   * The message raised by 32, its first 32 bits complemented, or as many of them as there are with zeros after them.
   */
  function Dividend(bits: seq<bool>): Poly {
    Plus(Raised(Fill(true), |bits|), Raised(FromBits(bits), 32))
  }

  /** The register as a polynomial; it is kept with its highest power first. */
  function Reflected(w: Word): (p: Poly)
    ensures |p| == 32
  {
    seq(32, i requires 0 <= i < 32 => w[31 - i])
  }

  lemma PolynomialIsGenerator(i: nat)
    requires i < 32
    ensures POLYNOMIAL[31 - i] == Coef(GENERATOR, i)
  {
  }

  lemma GeneratorHasDegree()
    ensures HasDegree(GENERATOR, 32)
  {
  }

  // ---------------------------------------------------------------------------
  // The register divides
  // ---------------------------------------------------------------------------

  /**
   * One bit entering, coefficient by coefficient: times x, plus the bit at 32, minus the generator if 32 is then set.
   */
  lemma EnterCoef(w: Word, b: bool, i: nat)
    ensures var next, out := BitStep(Xor(w, Bit(b))), w[0] != b;
            (Coef(Reflected(next), i) != (out && Coef(GENERATOR, i)))
            == ((i >= 1 && Coef(Reflected(w), i - 1)) != (i == 32 && b))
  {
    hide POLYNOMIAL, GENERATOR;
    GeneratorHasDegree();
    if i < 32 {
      PolynomialIsGenerator(i);
      var t := Xor(w, Bit(b));
      assert t[0] == (w[0] != b);
      assert BitStep(t)[31 - i] == (Shr(t)[31 - i] != (POLYNOMIAL[31 - i] && t[0]));
      assert i >= 1 ==> Shr(t)[31 - i] == t[32 - i] == w[32 - i];
    }
  }

  lemma DividendCoef(bits: seq<bool>, b: bool, i: nat)
    ensures Coef(Dividend(bits + [b]), i) == ((i >= 1 && Coef(Dividend(bits), i - 1)) != (i == 32 && b))
  {
    assert (bits + [b])[..|bits|] == bits;
    assert FromBits(bits + [b]) == [b] + FromBits(bits);
  }

  /** What falls out of the register, most recent bit first. */
  function Quotient(bits: seq<bool>): Poly
    decreases |bits|
  {
    if |bits| == 0 then []
    else
      var before := bits[..|bits| - 1];
      [Run(Algebra32(), Fill(true), before)[0] != bits[|bits| - 1]] + Quotient(before)
  }

  lemma RunOne(bits: seq<bool>, b: bool)
    ensures Run(Algebra32(), Fill(true), bits + [b])
            == BitStep(Xor(Run(Algebra32(), Fill(true), bits), Bit(b)))
  {
    var before := Run(Algebra32(), Fill(true), bits);
    RunConcat(Algebra32(), Fill(true), bits, [b]);
    assert [b][1..] == [];
    assert Run(Algebra32(), before, [b]) == Run(Algebra32(), Algebra32().Enter(before, b), []);
  }

  lemma {:induction false} Divides(bits: seq<bool>)
    ensures Same(Dividend(bits), Plus(Times(Quotient(bits), GENERATOR), Reflected(Run(Algebra32(), Fill(true), bits))))
    decreases |bits|
  {
    hide GENERATOR, BitStep, Reflected, Dividend, Plus, Raised;
    if |bits| == 0 {
      NothingDivides(bits);
    } else {
      var n := |bits| - 1;
      var before, b := bits[..n], bits[n];
      assert bits == before + [b];
      Divides(before);
      RunOne(before, b);
      var w := Run(Algebra32(), Fill(true), before);
      forall i: nat
        ensures Coef(Dividend(bits), i)
                == (Coef(Times(Quotient(bits), GENERATOR), i)
                    != Coef(Reflected(Run(Algebra32(), Fill(true), bits)), i))
      {
        DividendCoef(before, b, i);
        TimesCoef(w[0] != b, Quotient(before), GENERATOR, i);
        EnterCoef(w, b, i);
      }
    }
  }

  lemma NothingDivides(bits: seq<bool>)
    requires |bits| == 0
    ensures Same(Dividend(bits), Plus(Times(Quotient(bits), GENERATOR), Reflected(Run(Algebra32(), Fill(true), bits))))
  {
  }

  /**
   * The register after a byte string, read with its highest power first, is the remainder of the message polynomial
   * divided by the generating polynomial, and no other word is.
   */
  lemma RegisterIsRemainder(data: seq<byte>, w: Word)
    ensures w == Register(data) <==> IsRemainder(Reflected(w), Dividend(Bits(data)), GENERATOR, 32)
  {
    hide GENERATOR, Dividend, Run, Times, Plus, Quotient;
    Divides(Bits(data));
    assert IsRemainder(Reflected(Register(data)), Dividend(Bits(data)), GENERATOR, 32);
    if IsRemainder(Reflected(w), Dividend(Bits(data)), GENERATOR, 32) {
      GeneratorHasDegree();
      RemainderIsUnique(Reflected(w), Reflected(Register(data)), Dividend(Bits(data)), GENERATOR, 32);
      ReflectedInjective(w, Register(data));
    }
  }

  lemma ReflectedInjective(w: Word, v: Word)
    requires Same(Reflected(w), Reflected(v))
    ensures w == v
  {
    forall i | 0 <= i < 32
      ensures w[i] == v[i]
    {
      assert Coef(Reflected(w), 31 - i) == Coef(Reflected(v), 31 - i);
    }
  }
}
