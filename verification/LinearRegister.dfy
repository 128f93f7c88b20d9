/**
 * Error detection by a linear feedback register, over any word type that obeys a few laws:
 * xor is a
 * group operation, the step is linear with trivial kernel, and stepping undoes a shift of a
 * word that has room above it.
 */
module LinearRegister {
  import opened Words

  /** `bit(b)` is the one-digit word b, `shl(w)` is w moved up one place, `fits(w, n)` says w has at most n digits. */
  datatype Algebra<!W> = Algebra(
    step: W -> W,
    xor: (W, W) -> W,
    zero: W,
    bit: bool -> W,
    shl: W -> W,
    fits: (W, nat) -> bool)
  {
    /** w moved up one place with b in the free place. */
    function Push(b: bool, w: W): W {
      xor(bit(b), shl(w))
    }

    /** One bit enters: it is xored into the low end, then the register steps. */
    function Enter(x: W, b: bool): W {
      step(xor(x, bit(b)))
    }
  }

  ghost predicate StepIsLinear<W(!new)>(a: Algebra<W>) {
    && (forall x, y {:trigger a.step(a.xor(x, y))} :: a.step(a.xor(x, y)) == a.xor(a.step(x), a.step(y)))
    && (forall x :: a.step(x) == a.zero ==> x == a.zero)
  }

  ghost predicate XorIsGroup<W(!new)>(a: Algebra<W>) {
    && (forall x, y, z {:trigger a.xor(x, a.xor(y, z))} :: a.xor(x, a.xor(y, z)) == a.xor(a.xor(x, y), z))
    && (forall x, y, d :: a.xor(x, d) == a.xor(y, d) ==> x == y)
    && (forall x, y, d :: a.xor(d, x) == a.xor(d, y) ==> x == y)
    && (forall x :: a.xor(x, x) == a.zero && a.xor(x, a.zero) == x)
  }

  ghost predicate StepUndoesShift<W(!new)>(a: Algebra<W>) {
    && (forall w, n: nat :: n < 32 && a.fits(w, n) ==> a.step(a.shl(w)) == w)
    && (forall w, v :: a.xor(a.bit(true), a.shl(w)) != a.xor(a.bit(false), a.shl(v)))
  }

  ghost predicate PushKeepsFit<W(!new)>(a: Algebra<W>) {
    && a.fits(a.zero, 0)
    && (forall b, w, n: nat :: n < 31 && a.fits(w, n) ==> a.fits(a.Push(b, w), n + 1))
  }

  ghost predicate Lawful<W(!new)>(a: Algebra<W>) {
    StepIsLinear(a) && XorIsGroup(a) && StepUndoesShift(a) && PushKeepsFit(a)
  }

  // ---------------------------------------------------------------------------
  // What the laws give the inductions
  // ---------------------------------------------------------------------------

  ghost predicate StepIsInjective<W(!new)>(a: Algebra<W>) {
    forall x, y :: a.step(x) == a.step(y) ==> x == y
  }

  ghost predicate XorCancels<W(!new)>(a: Algebra<W>) {
    && (forall x, y, d :: a.xor(x, d) == a.xor(y, d) ==> x == y)
    && (forall x, y, d :: a.xor(d, x) == a.xor(d, y) ==> x == y)
    && (forall x :: a.xor(x, a.zero) == x)
  }

  /** A word with room above it can be xored in together with the bit before it. */
  ghost predicate EntersEarly<W(!new)>(a: Algebra<W>) {
    forall x, b, w, n: nat {:trigger a.xor(x, a.Push(b, w)), a.fits(w, n)} :: n < 32 && a.fits(w, n) ==>
      a.step(a.xor(x, a.Push(b, w))) == a.xor(a.Enter(x, b), w)
  }

  ghost predicate PushIsInjective<W(!new)>(a: Algebra<W>) {
    forall b, w, c, v, n: nat {:trigger a.Push(b, w), a.Push(c, v), a.fits(w, n)} ::
      n < 32 && a.fits(w, n) && a.fits(v, n) && a.Push(b, w) == a.Push(c, v) ==> b == c && w == v
  }

  ghost predicate Detecting<W(!new)>(a: Algebra<W>) {
    StepIsInjective(a) && XorCancels(a) && EntersEarly(a) && PushIsInjective(a) && PushKeepsFit(a)
  }

  lemma LawfulIsDetecting<W(!new)>(a: Algebra<W>)
    requires Lawful(a)
    ensures Detecting(a)
  {
    forall x, y | a.step(x) == a.step(y)
      ensures x == y
    {
      StepInjective(a, x, y);
    }
    forall x, b, w, n: nat {:trigger a.xor(x, a.Push(b, w)), a.fits(w, n)} | n < 32 && a.fits(w, n)
      ensures a.step(a.xor(x, a.Push(b, w))) == a.xor(a.Enter(x, b), w)
    {
      EnterEarly(a, x, b, w, n);
    }
    forall b, w, c, v, n: nat {:trigger a.Push(b, w), a.Push(c, v), a.fits(w, n)}
      | n < 32 && a.fits(w, n) && a.fits(v, n) && a.Push(b, w) == a.Push(c, v)
      ensures b == c && w == v
    {
      PushInjective(a, b, w, c, v, n);
    }
  }

  lemma StepInjective<W(!new)>(a: Algebra<W>, x: W, y: W)
    requires StepIsLinear(a) && XorIsGroup(a) && a.step(x) == a.step(y)
    ensures x == y
  {
    assert a.step(a.xor(x, y)) == a.zero by {
      assert a.step(a.xor(x, y)) == a.xor(a.step(x), a.step(x));
      XorSelf(a, a.step(x));
    }
    assert a.xor(x, y) == a.zero;
    XorZeroMeansEqual(a, x, y);
  }

  lemma XorSelf<W(!new)>(a: Algebra<W>, x: W)
    requires XorIsGroup(a)
    ensures a.xor(x, x) == a.zero
  {
  }

  lemma XorZeroMeansEqual<W(!new)>(a: Algebra<W>, x: W, y: W)
    requires XorIsGroup(a) && a.xor(x, y) == a.zero
    ensures x == y
  {
    assert a.xor(y, y) == a.zero;
  }

  lemma EnterEarly<W(!new)>(a: Algebra<W>, x: W, b: bool, w: W, n: nat)
    requires Lawful(a) && n < 32 && a.fits(w, n)
    ensures a.step(a.xor(x, a.Push(b, w))) == a.xor(a.Enter(x, b), w)
  {
    assert a.xor(x, a.xor(a.bit(b), a.shl(w))) == a.xor(a.xor(x, a.bit(b)), a.shl(w));
    assert a.step(a.shl(w)) == w;
  }

  lemma PushInjective<W(!new)>(a: Algebra<W>, b: bool, w: W, c: bool, v: W, n: nat)
    requires XorIsGroup(a) && StepUndoesShift(a)
    requires n < 32 && a.fits(w, n) && a.fits(v, n) && a.Push(b, w) == a.Push(c, v)
    ensures b == c && w == v
  {
    assert a.step(a.shl(w)) == w && a.step(a.shl(v)) == v;
  }

  // ---------------------------------------------------------------------------
  // Runs over bit strings
  // ---------------------------------------------------------------------------

  lemma PushFits<W(!new)>(a: Algebra<W>, b: bool, w: W, n: nat)
    requires Detecting(a) && n < 31 && a.fits(w, n)
    ensures a.fits(a.Push(b, w), n + 1)
  {
  }

  lemma EnterOne<W(!new)>(a: Algebra<W>, x: W, b: bool, w: W, n: nat)
    requires Detecting(a) && n < 32 && a.fits(w, n)
    ensures a.step(a.xor(x, a.Push(b, w))) == a.xor(a.Enter(x, b), w)
  {
  }

  lemma SamePush<W(!new)>(a: Algebra<W>, b: bool, w: W, c: bool, v: W, n: nat)
    requires Detecting(a) && n < 32 && a.fits(w, n) && a.fits(v, n) && a.Push(b, w) == a.Push(c, v)
    ensures b == c && w == v
  {
  }

  function Steps<W>(a: Algebra<W>, x: W, k: nat): W {
    if k == 0 then x else a.step(Steps(a, x, k - 1))
  }

  /** The register after a bit string. */
  function Run<W>(a: Algebra<W>, x: W, bits: seq<bool>): W
    decreases |bits|
  {
    if |bits| == 0 then x else Run(a, a.Enter(x, bits[0]), bits[1..])
  }

  /** The word whose digits, lowest first, are the given bits. */
  function Spell<W>(a: Algebra<W>, bits: seq<bool>): W {
    if |bits| == 0 then a.zero else a.Push(bits[0], Spell(a, bits[1..]))
  }

  lemma {:induction false} SpellFits<W(!new)>(a: Algebra<W>, bits: seq<bool>)
    requires Detecting(a) && |bits| < 32
    ensures a.fits(Spell(a, bits), |bits|)
  {
    if |bits| > 0 {
      SpellFits(a, bits[1..]);
      PushFits(a, bits[0], Spell(a, bits[1..]), |bits| - 1);
    }
  }

  lemma {:induction false} StepsShift<W>(a: Algebra<W>, x: W, k: nat)
    ensures Steps(a, a.step(x), k) == Steps(a, x, k + 1)
  {
    if k > 0 {
      StepsShift(a, x, k - 1);
    }
  }

  /** Up to 32 bits can be xored in at once: the feedback never reaches a bit that has still to enter. */
  lemma {:induction false} RunOfSpell<W(!new)>(a: Algebra<W>, x: W, bits: seq<bool>)
    requires Detecting(a) && |bits| <= 32
    ensures Run(a, x, bits) == Steps(a, a.xor(x, Spell(a, bits)), |bits|)
    decreases |bits|
  {
    if |bits| > 0 {
      var rest := Spell(a, bits[1..]);
      SpellFits(a, bits[1..]);
      RunOfSpell(a, a.Enter(x, bits[0]), bits[1..]);
      EnterOne(a, x, bits[0], rest, |bits| - 1);
      StepsShift(a, a.xor(x, Spell(a, bits)), |bits| - 1);
    }
  }

  lemma {:induction false} SpellInjective<W(!new)>(a: Algebra<W>, s: seq<bool>, t: seq<bool>)
    requires Detecting(a) && |s| == |t| <= 32 && Spell(a, s) == Spell(a, t)
    ensures s == t
  {
    if |s| > 0 {
      SpellFits(a, s[1..]);
      SpellFits(a, t[1..]);
      SamePush(a, s[0], Spell(a, s[1..]), t[0], Spell(a, t[1..]), |s| - 1);
      SpellInjective(a, s[1..], t[1..]);
      assert s == [s[0]] + s[1..] && t == [t[0]] + t[1..];
    }
  }

  lemma {:induction false} StepsInjective<W(!new)>(a: Algebra<W>, x: W, y: W, k: nat)
    requires Detecting(a) && Steps(a, x, k) == Steps(a, y, k)
    ensures x == y
  {
    if k > 0 {
      StepsInjective(a, x, y, k - 1);
    }
  }

  lemma {:induction false} RunInjective<W(!new)>(a: Algebra<W>, x: W, y: W, bits: seq<bool>)
    requires Detecting(a) && Run(a, x, bits) == Run(a, y, bits)
    ensures x == y
    decreases |bits|
  {
    if |bits| > 0 {
      var bit := a.bit(bits[0]);
      RunInjective(a, a.Enter(x, bits[0]), a.Enter(y, bits[0]), bits[1..]);
      assert a.xor(x, bit) == a.xor(y, bit);
    }
  }

  lemma {:induction false} RunConcat<W>(a: Algebra<W>, x: W, s: seq<bool>, t: seq<bool>)
    ensures Run(a, x, s + t) == Run(a, Run(a, x, s), t)
    decreases |s|
  {
    if |s| == 0 {
      assert s + t == t;
    } else {
      assert (s + t)[1..] == s[1..] + t;
      RunConcat(a, a.Enter(x, s[0]), s[1..], t);
    }
  }

  /** x and y agree outside the `width` positions from k on. */
  predicate AgreeOutside<T(==)>(x: seq<T>, y: seq<T>, k: nat, width: nat) {
    |x| == |y| && forall i :: 0 <= i < |x| && (i < k || k + width <= i) ==> x[i] == y[i]
  }

  /** Two bit strings that differ, but only inside 32 consecutive positions, leave different registers. */
  lemma BurstDetected<W(!new)>(a: Algebra<W>, start: W, s: seq<bool>, t: seq<bool>, k: nat)
    requires Detecting(a) && AgreeOutside(s, t, k, 32) && s != t
    ensures Run(a, start, s) != Run(a, start, t)
  {
    var lo, hi := Min(k, |s|), Min(k + 32, |s|);
    var burstS, burstT := s[lo..hi], t[lo..hi];
    assert s == s[..lo] + (burstS + s[hi..]);
    assert t == s[..lo] + (burstT + s[hi..]);
    var here := Run(a, start, s[..lo]);
    RunConcat(a, start, s[..lo], burstS + s[hi..]);
    RunConcat(a, start, s[..lo], burstT + s[hi..]);
    RunConcat(a, here, burstS, s[hi..]);
    RunConcat(a, here, burstT, s[hi..]);
    if Run(a, start, s) == Run(a, start, t) {
      RunInjective(a, Run(a, here, burstS), Run(a, here, burstT), s[hi..]);
      SameBurst(a, here, burstS, burstT);
    }
  }

  lemma SameBurst<W(!new)>(a: Algebra<W>, x: W, s: seq<bool>, t: seq<bool>)
    requires Detecting(a) && |s| == |t| <= 32 && Run(a, x, s) == Run(a, x, t)
    ensures s == t
  {
    RunOfSpell(a, x, s);
    RunOfSpell(a, x, t);
    StepsInjective(a, a.xor(x, Spell(a, s)), a.xor(x, Spell(a, t)), |s|);
    SpellInjective(a, s, t);
  }
}
