/**
 * Adaptive proposal depth: a bounded window of acceptance ratios, their average, and the staged scaling of the
 * depth by the average, the memory headroom and the verifier's saturation. Ratios are exact reals.
 */
module Policy {
  import opened Words

  datatype LatencyClass = Interactive | Balanced | Throughput

  datatype ProposalPolicy = ProposalPolicy(
    maxDepth: u32, maxBranches: u32, maxOutstanding: u32, latency: LatencyClass,
    speculatingEnabled: bool, minAcceptanceRatio: real, adaptiveDepthEnabled: bool)

  function Sum(s: seq<real>): real {
    if |s| == 0 then 0.0 else Sum(s[..|s| - 1]) + s[|s| - 1]
  }

  function Average(s: seq<real>): real {
    if |s| == 0 then 0.0 else Sum(s) / (|s| as real)
  }

  /** The share of the maximal depth that an average ratio earns. */
  function Factor(r: real): real {
    if r >= 0.80 then 1.0
    else if r >= 0.50 then 0.60 + 0.40 * ((r - 0.50) / 0.30)
    else 0.30 + 0.30 * (r / 0.50)
  }

  /** The share that the memory headroom allows; no headroom given means no limit. */
  function MemoryShare(maxDepth: u32, headroom: u32): real
    requires maxDepth >= 1
  {
    if headroom == 0 then 1.0
    else var share := (headroom as real) / (128.0 * (maxDepth as real)); if share < 1.0 then share else 1.0
  }

  /** A saturated verifier halves the depth. */
  function SaturationShare(saturation: real): real {
    1.0 - 0.5 * (if saturation < 0.0 then 0.0 else if saturation > 1.0 then 1.0 else saturation)
  }

  /** Rounds to the nearest integer, halves away from zero. */
  function Round(x: real): int {
    if x >= 0.0 then (x + 0.5).Floor else -((-x + 0.5).Floor)
  }

  /** A 64-bit integer cut to 32 bits and read back as a signed one. */
  function Signed32(x: int): int {
    var low := x % 0x1_0000_0000;
    if low >= 0x8000_0000 then low - 0x1_0000_0000 else low
  }

  function Clamp(x: int, lo: int, hi: int): int {
    if x < lo then lo else if x > hi then hi else x
  }

  /** Rescaling by a share. */
  function Scaled(x: real, share: real): real {
    x * share
  }

  /** The maximal depth rescaled by the three shares. */
  function ScaledDepth(maxDepth: u32, average: real, headroom: u32, saturation: real): real
    requires maxDepth >= 1
  {
    Scaled(Scaled(Scaled(maxDepth as real, Factor(average)), MemoryShare(maxDepth, headroom)),
        SaturationShare(saturation))
  }

  /** The depth for an average, when there is one. */
  function DepthFor(maxDepth: u32, average: real, headroom: u32, saturation: real): int
    requires 1 <= maxDepth < 0x8000_0000
  {
    Clamp(Signed32(Round(ScaledDepth(maxDepth, average, headroom, saturation))), 1, maxDepth)
  }

  /** A depth can be scaled and clamped when the clamp's bounds, as signed integers, are in order. */
  predicate Scalable(policy: ProposalPolicy, history: seq<real>) {
    policy.adaptiveDepthEnabled && history != [] ==> 1 <= policy.maxDepth < 0x8000_0000
  }

  function DepthSpec(policy: ProposalPolicy, history: seq<real>, headroom: u32, saturation: real): int
    requires Scalable(policy, history)
  {
    if !policy.adaptiveDepthEnabled || history == [] then policy.maxDepth
    else DepthFor(policy.maxDepth, Average(history), headroom, saturation)
  }

  /** The window after one more ratio. */
  function Pushed(window: nat, history: seq<real>, ratio: real): seq<real> {
    var longer := history + [ratio];
    if |longer| > window then longer[1..] else longer
  }

  class AdaptiveDepth {
    var history: seq<real>
    var window: nat

    constructor ()
      ensures history == [] && window == 32
    {
      history := [];
      window := 32;
    }

    method Record(ratio: real)
      modifies this
      ensures history == Pushed(window, old(history), ratio) && window == old(window)
    {
      history := history + [ratio];
      if |history| > window {
        history := history[1..];
      }
    }

    method SetWindow(w: u32)
      modifies this
      ensures window == w && history == old(history)
    {
      window := w;
    }

    method AverageRatio() returns (r: real)
      ensures r == Average(history)
    {
      if |history| == 0 {
        return 0.0;
      }
      var sum := 0.0;
      for i := 0 to |history|
        invariant sum == Sum(history[..i])
      {
        assert history[..i + 1][..i] == history[..i];
        sum := sum + history[i];
      }
      assert history[..|history|] == history;
      r := sum / (|history| as real);
    }

    /** Rescales the depth stage by stage. */
    method ChooseDepth(policy: ProposalPolicy, headroom: u32, saturation: real) returns (d: int)
      requires Scalable(policy, history)
      ensures d == DepthSpec(policy, history, headroom, saturation)
      ensures d <= policy.maxDepth && (policy.maxDepth >= 1 ==> d >= 1)
    {
      hide Scaled, Round, Signed32, Average;
      if !policy.adaptiveDepthEnabled || |history| == 0 {
        return policy.maxDepth;
      }
      var r := AverageRatio();
      var f;
      if r >= 0.80 {
        f := 1.0;
      } else if r >= 0.50 {
        f := 0.60 + 0.40 * ((r - 0.50) / 0.30);
      } else {
        f := 0.30 + 0.30 * (r / 0.50);
      }
      var depth := Scaled(policy.maxDepth as real, f);
      if headroom != 0 {
        var share := (headroom as real) / (128.0 * (policy.maxDepth as real));
        depth := Scaled(depth, if share < 1.0 then share else 1.0);
      } else {
        ScaledByOne(depth);
      }
      var sat := if saturation < 0.0 then 0.0 else if saturation > 1.0 then 1.0 else saturation;
      depth := Scaled(depth, 1.0 - 0.5 * sat);
      d := Clamp(Signed32(Round(depth)), 1, policy.maxDepth);
    }
  }

  // ---------------------------------------------------------------------------
  // The window
  // ---------------------------------------------------------------------------

  /** The history after recording the given ratios in turn, with a fixed window. */
  function Recorded(window: nat, ratios: seq<real>): seq<real>
    decreases |ratios|
  {
    if |ratios| == 0 then [] else Pushed(window, Recorded(window, ratios[..|ratios| - 1]), ratios[|ratios| - 1])
  }

  function LastOf(ratios: seq<real>, window: nat): seq<real> {
    if |ratios| <= window then ratios else ratios[|ratios| - window..]
  }

  /** With a fixed window the history is exactly the last `window` ratios. */
  lemma {:induction false} HistoryIsTheWindow(window: nat, ratios: seq<real>)
    ensures Recorded(window, ratios) == LastOf(ratios, window)
    decreases |ratios|
  {
    if |ratios| > 0 {
      HistoryIsTheWindow(window, ratios[..|ratios| - 1]);
    }
  }

  /** So the depth forgets everything older: equal recent ratios give equal depths. */
  lemma DepthForgets(policy: ProposalPolicy, window: nat, r1: seq<real>, r2: seq<real>, headroom: u32, saturation: real)
    requires LastOf(r1, window) == LastOf(r2, window)
    requires Scalable(policy, Recorded(window, r1)) && Scalable(policy, Recorded(window, r2))
    ensures DepthSpec(policy, Recorded(window, r1), headroom, saturation)
            == DepthSpec(policy, Recorded(window, r2), headroom, saturation)
  {
    HistoryIsTheWindow(window, r1);
    HistoryIsTheWindow(window, r2);
  }

  /** Averages of values between two bounds stay between them. */
  lemma {:induction false} SumBounds(s: seq<real>, lo: real, hi: real)
    requires forall i :: 0 <= i < |s| ==> lo <= s[i] <= hi
    ensures lo * (|s| as real) <= Sum(s) <= hi * (|s| as real)
    decreases |s|
  {
    if |s| > 0 {
      SumBounds(s[..|s| - 1], lo, hi);
    }
  }

  lemma AverageBounds(s: seq<real>, lo: real, hi: real)
    requires lo <= 0.0 <= hi && forall i :: 0 <= i < |s| ==> lo <= s[i] <= hi
    ensures lo <= Average(s) <= hi
  {
    if |s| > 0 {
      SumBounds(s, lo, hi);
      QuotientBounds(Sum(s), lo, hi, |s| as real);
    }
  }

  lemma QuotientBounds(x: real, lo: real, hi: real, n: real)
    requires n > 0.0 && lo * n <= x <= hi * n
    ensures lo <= x / n <= hi
  {
    assert x / n * n == x;
  }

  // ---------------------------------------------------------------------------
  // Monotonicity
  // ---------------------------------------------------------------------------

  lemma FactorMonotone(r1: real, r2: real)
    requires r1 <= r2
    ensures Factor(r1) <= Factor(r2) <= 1.0
  {
  }

  lemma ShareMonotone(maxDepth: u32, h1: u32, h2: u32)
    requires maxDepth >= 1 && 0 < h1 <= h2
    ensures 0.0 < MemoryShare(maxDepth, h1) <= MemoryShare(maxDepth, h2) <= MemoryShare(maxDepth, 0) == 1.0
  {
    var whole := 128.0 * (maxDepth as real);
    DivideMonotone(h1 as real, h2 as real, whole);
  }

  lemma DivideMonotone(x: real, y: real, d: real)
    requires 0.0 < x <= y && d > 0.0
    ensures 0.0 < x / d <= y / d
  {
    assert x / d * d == x && y / d * d == y;
    if x / d > y / d {
      TimesMonotone(y / d, x / d, d);
    }
  }

  lemma TimesMonotone(x: real, y: real, d: real)
    requires x <= y && d >= 0.0
    ensures x * d <= y * d
  {
  }

  lemma RoundMonotone(x: real, y: real, bound: int)
    requires 0.0 <= x <= y <= bound as real && bound < 0x8000_0000
    ensures 0 <= Signed32(Round(x)) <= Signed32(Round(y)) <= bound
  {
    assert Round(y) <= bound;
  }

  lemma ScaledByOne(x: real)
    ensures Scaled(x, 1.0) == x
  {
  }

  lemma ScaledInShare(x: real, a: real, b: real)
    requires x >= 0.0 && a <= b
    ensures Scaled(x, a) <= Scaled(x, b) && Scaled(x, 0.0) == 0.0 && Scaled(x, 1.0) == x
  {
    assert x * (b - a) >= 0.0;
  }

  lemma ScaledInValue(x: real, y: real, b: real)
    requires x <= y && b >= 0.0
    ensures Scaled(x, b) <= Scaled(y, b)
  {
    assert (y - x) * b >= 0.0;
  }

  lemma ScaledMonotone(x: real, y: real, a: real, b: real)
    requires 0.0 <= x <= y && 0.0 <= a <= b <= 1.0
    ensures 0.0 <= Scaled(x, a) <= Scaled(y, b) <= y
  {
    hide Scaled;
    ScaledInShare(x, a, b);
    ScaledInValue(x, y, b);
    ScaledInShare(y, b, 1.0);
    ScaledInShare(x, 0.0, a);
  }

  lemma ScaledDepthMonotone(maxDepth: u32, r1: real, r2: real, h1: u32, h2: u32, s1: real, s2: real)
    requires 1 <= maxDepth && r1 <= r2 && 0.0 <= Factor(r1) && Roomier(h1, h2) && s1 >= s2
    ensures 0.0 <= ScaledDepth(maxDepth, r1, h1, s1) <= ScaledDepth(maxDepth, r2, h2, s2) <= maxDepth as real
  {
    hide Factor, MemoryShare, SaturationShare, Scaled;
    FactorMonotone(r1, r2);
    MemoryShareMonotone(maxDepth, h1, h2);
    SaturationShareAntitone(s1, s2);
    var m := maxDepth as real;
    ScaledMonotone(m, m, Factor(r1), Factor(r2));
    var x1, x2 := Scaled(m, Factor(r1)), Scaled(m, Factor(r2));
    ScaledMonotone(x1, x2, MemoryShare(maxDepth, h1), MemoryShare(maxDepth, h2));
    ScaledMonotone(Scaled(x1, MemoryShare(maxDepth, h1)), Scaled(x2, MemoryShare(maxDepth, h2)),
                   SaturationShare(s1), SaturationShare(s2));
  }

  lemma MemoryShareMonotone(maxDepth: u32, h1: u32, h2: u32)
    requires 1 <= maxDepth && Roomier(h1, h2)
    ensures 0.0 < MemoryShare(maxDepth, h1) <= MemoryShare(maxDepth, h2) <= 1.0
  {
    if h1 != 0 {
      ShareMonotone(maxDepth, h1, if h2 == 0 then h1 else h2);
    }
  }

  lemma SaturationShareAntitone(s1: real, s2: real)
    requires s1 >= s2
    ensures 0.5 <= SaturationShare(s1) <= SaturationShare(s2) <= 1.0
  {
  }

  /** More headroom: a larger one, or none given, which means no limit. */
  predicate Roomier(h1: u32, h2: u32) {
    h2 == 0 || 0 < h1 <= h2
  }

  /**
   * The depth scaled by the average alone is not below the least 32-bit integer, as for every average from -0.5 up.
   */
  predicate Castable(maxDepth: u32, average: real) {
    Scaled(maxDepth as real, Factor(average)) >= -2147483648.0
  }

  /** Negative averages scale to depths that clamp to one. */
  lemma NegativeDepthIsOne(maxDepth: u32, r: real, headroom: u32, saturation: real)
    requires 1 <= maxDepth < 0x8000_0000 && Castable(maxDepth, r) && Factor(r) < 0.0
    ensures DepthFor(maxDepth, r, headroom, saturation) == 1
  {
    hide Factor, MemoryShare, SaturationShare, Round, Signed32;
    MemoryShareMonotone(maxDepth, if headroom == 0 then 1 else headroom, headroom);
    SaturationShareAntitone(saturation, saturation);
    NegativeScales(maxDepth, Factor(r), MemoryShare(maxDepth, headroom), SaturationShare(saturation));
    RoundNegative(ScaledDepth(maxDepth, r, headroom, saturation));
  }

  lemma NegativeScales(maxDepth: u32, f: real, memory: real, saturation: real)
    requires f < 0.0 && 0.0 <= memory <= 1.0 && 0.0 <= saturation <= 1.0
    requires Scaled(maxDepth as real, f) >= -2147483648.0
    ensures -2147483648.0 <= Scaled(Scaled(Scaled(maxDepth as real, f), memory), saturation) <= 0.0
  {
    NegativeShrinks(maxDepth as real, f);
    var x := Scaled(maxDepth as real, f);
    StaysNegative(x, memory);
    StaysNegative(Scaled(x, memory), saturation);
  }

  lemma NegativeShrinks(m: real, f: real)
    requires m >= 0.0 && f < 0.0
    ensures Scaled(m, f) <= 0.0
  {
    assert m * (-f) >= 0.0;
  }

  lemma StaysNegative(x: real, share: real)
    requires x <= 0.0 && 0.0 <= share <= 1.0
    ensures x <= Scaled(x, share) <= 0.0
  {
    assert (-x) * share >= 0.0 && (-x) * (1.0 - share) >= 0.0;
  }

  lemma RoundNegative(x: real)
    requires -2147483648.0 <= x <= 0.0
    ensures Signed32(Round(x)) <= 0
  {
    var n := Round(x);
    assert -0x8000_0000 <= n <= 0;
  }

  /**
   * The depth lies between one and the maximum, never falls as the average ratio or the headroom rises, and never
   * rises with the saturation, as long as the depth survives the cast to 32 bits.
   */
  lemma DepthIsMonotone(maxDepth: u32, r1: real, r2: real, h1: u32, h2: u32, s1: real, s2: real)
    requires 1 <= maxDepth < 0x8000_0000 && Castable(maxDepth, r1)
    requires r1 <= r2 && Roomier(h1, h2) && s1 >= s2
    ensures 1 <= DepthFor(maxDepth, r1, h1, s1) <= DepthFor(maxDepth, r2, h2, s2) <= maxDepth
  {
    hide ScaledDepth, Round, Signed32, Factor, Castable;
    if Factor(r1) < 0.0 {
      NegativeDepthIsOne(maxDepth, r1, h1, s1);
    } else {
      ScaledDepthMonotone(maxDepth, r1, r2, h1, h2, s1, s2);
      RoundMonotone(ScaledDepth(maxDepth, r1, h1, s1), ScaledDepth(maxDepth, r2, h2, s2), maxDepth);
    }
  }

  lemma RatiosAreCastable(maxDepth: u32, average: real)
    requires average >= -0.5
    ensures Castable(maxDepth, average)
  {
    assert Factor(average) >= 0.0;
    ScaledInShare(maxDepth as real, 0.0, Factor(average));
  }

  /** An average so low that the scaled depth is one below the least 32-bit integer. */
  function WrappingAverage(maxDepth: u32): real
    requires maxDepth >= 1
  {
    (-2147483649.0 / (maxDepth as real) - 0.30) / 0.60
  }

  /** Below that the cast wraps: a far smaller average then gets the maximal depth, more than the average zero gets. */
  lemma WrappedAverageGetsMaximum(maxDepth: u32)
    requires 2 <= maxDepth < 0x8000_0000
    ensures WrappingAverage(maxDepth) < 0.0 && !Castable(maxDepth, WrappingAverage(maxDepth))
    ensures DepthFor(maxDepth, WrappingAverage(maxDepth), 0, 0.0) == maxDepth > DepthFor(maxDepth, 0.0, 0, 0.0)
  {
    var m := maxDepth as real;
    var t := -2147483649.0 / m;
    assert m * t == -2147483649.0;
    assert t < 0.0;
    FactorOfWrapping(t);
    assert Factor(WrappingAverage(maxDepth)) == t;
    assert Scaled(m, t) == -2147483649.0;
    ScaledByOne(Scaled(m, t));
    ScaledByOne(Scaled(m, 0.30));
    assert Round(-2147483649.0) == -2147483649;
    assert Signed32(-2147483649) == 0x7FFF_FFFF;
    assert Factor(0.0) == 0.30;
    assert 0 <= Round(Scaled(m, 0.30)) < maxDepth;
  }

  lemma FactorOfWrapping(t: real)
    requires t < 0.0
    ensures (t - 0.30) / 0.60 < 0.0 && Factor((t - 0.30) / 0.60) == t
  {
  }

  /** The same for whole histories of ratios that are not negative. */
  lemma HistoriesOrderDepths(policy: ProposalPolicy, better: seq<real>, worse: seq<real>, headroom: u32,
      saturation: real)
    requires 1 <= policy.maxDepth < 0x8000_0000 && |better| == |worse|
    requires forall i :: 0 <= i < |worse| ==> 0.0 <= worse[i] <= better[i]
    ensures DepthSpec(policy, worse, headroom, saturation) <= DepthSpec(policy, better, headroom, saturation)
  {
    if policy.adaptiveDepthEnabled && |worse| > 0 {
      SumMonotone(worse, better);
      AverageOrder(worse, better);
      RatiosAreCastable(policy.maxDepth, Average(worse));
      DepthIsMonotone(policy.maxDepth, Average(worse), Average(better), headroom, headroom, saturation, saturation);
    }
  }

  lemma AverageOrder(worse: seq<real>, better: seq<real>)
    requires |worse| == |better| > 0 && 0.0 <= Sum(worse) <= Sum(better)
    ensures 0.0 <= Average(worse) <= Average(better)
  {
    QuotientOrder(Sum(worse), Sum(better), |worse| as real);
  }

  lemma QuotientOrder(x: real, y: real, n: real)
    requires 0.0 <= x <= y && n > 0.0
    ensures 0.0 <= x / n <= y / n
  {
    if x > 0.0 {
      DivideMonotone(x, y, n);
    }
  }

  lemma {:induction false} SumMonotone(worse: seq<real>, better: seq<real>)
    requires |better| == |worse| && forall i :: 0 <= i < |worse| ==> 0.0 <= worse[i] <= better[i]
    ensures 0.0 <= Sum(worse) <= Sum(better)
    decreases |worse|
  {
    if |worse| > 0 {
      SumMonotone(worse[..|worse| - 1], better[..|better| - 1]);
    }
  }

  // ---------------------------------------------------------------------------
  // The shape of the scaling
  // ---------------------------------------------------------------------------

  /**
   * The chosen depth at the knots, with nothing else limiting it: an average of 0, of 0.5 and of 0.8 or more earns the
   * rounded 30, 60 and 100 percent of the maximum, and at least one.
   */
  lemma DepthAtKnots(policy: ProposalPolicy, history: seq<real>)
    requires policy.adaptiveDepthEnabled && history != [] && 1 <= policy.maxDepth < 0x8000_0000
    ensures var m, d := policy.maxDepth as real, DepthSpec(policy, history, 0, 0.0);
            && (Average(history) == 0.0 ==> d == Max(1, Round(0.30 * m)))
            && (Average(history) == 0.5 ==> d == Round(0.60 * m))
            && (Average(history) >= 0.8 ==> d == policy.maxDepth)
  {
    hide Average, Round;
    var m := policy.maxDepth as real;
    var r := Average(history);
    Unlimited(policy.maxDepth, r);
    assert r == 0.5 ==> Factor(r) == 0.60;
    assert r == 0.0 ==> Factor(r) == 0.30;
    RoundShares(policy.maxDepth);
  }

  /** Without headroom given and without saturation only the average scales. */
  lemma Unlimited(maxDepth: u32, r: real)
    requires maxDepth >= 1
    ensures ScaledDepth(maxDepth, r, 0, 0.0) == Factor(r) * (maxDepth as real)
  {
  }

  lemma RoundShares(maxDepth: u32)
    requires 1 <= maxDepth < 0x8000_0000
    ensures var m := maxDepth as real;
            && 0 <= Signed32(Round(0.30 * m)) == Round(0.30 * m) <= maxDepth
            && 1 <= Signed32(Round(0.60 * m)) == Round(0.60 * m) <= maxDepth
            && Signed32(Round(1.0 * m)) == maxDepth
  {
    var m := maxDepth as real;
    RoundIs(1.0 * m, maxDepth);
  }

  lemma RoundIs(x: real, n: nat)
    requires x == n as real
    ensures Round(x) == n
  {
  }

  /** The depth an average alone scales the maximum to. */
  function Earned(maxDepth: u32, r: real): real
    requires maxDepth >= 1
  {
    ScaledDepth(maxDepth, r, 0, 0.0)
  }

  /** Between its knots the scaled depth is a straight line, so it is continuous where they meet. */
  lemma EarnedIsPiecewiseLinear(maxDepth: u32, r: real)
    requires maxDepth >= 1
    ensures var m := maxDepth as real;
            && Earned(maxDepth, 0.0) == 0.30 * m && Earned(maxDepth, 0.5) == 0.60 * m
            && (r <= 0.5 ==> Earned(maxDepth, r) == 0.30 * m + (0.60 * m) * r)
            && (0.5 <= r <= 0.8 ==> 3.0 * Earned(maxDepth, r) == 3.0 * (0.60 * m) + (4.0 * m) * (r - 0.5))
            && (r >= 0.8 ==> Earned(maxDepth, r) == m)
  {
    Unlimited(maxDepth, 0.0);
    Unlimited(maxDepth, 0.5);
    Unlimited(maxDepth, r);
    var m := maxDepth as real;
    if r <= 0.5 {
      assert Factor(r) == 0.30 + 0.60 * r;
    } else if r <= 0.8 {
      assert 3.0 * Factor(r) == 1.80 + 4.0 * (r - 0.5);
    }
  }

  /** It never moves by more than 4/3 of the maximum for each unit the average moves, and never against it. */
  lemma EarnedIsLipschitz(maxDepth: u32, r1: real, r2: real)
    requires maxDepth >= 1 && r1 <= r2
    ensures 0.0 <= 3.0 * (Earned(maxDepth, r2) - Earned(maxDepth, r1)) <= 4.0 * (maxDepth as real) * (r2 - r1)
  {
    hide Factor;
    Unlimited(maxDepth, r1);
    Unlimited(maxDepth, r2);
    FactorIsLipschitz(r1, r2);
    var m := maxDepth as real;
    TimesMonotone(0.0, 3.0 * (Factor(r2) - Factor(r1)), m);
    TimesMonotone(3.0 * (Factor(r2) - Factor(r1)), 4.0 * (r2 - r1), m);
  }

  lemma FactorIsLipschitz(r1: real, r2: real)
    requires r1 <= r2
    ensures 0.0 <= 3.0 * (Factor(r2) - Factor(r1)) <= 4.0 * (r2 - r1)
  {
  }

  /** A headroom of 128 tokens a slot or more takes nothing away, a smaller one scales in proportion. */
  lemma HeadroomScalesInProportion(maxDepth: u32, r: real, headroom: u32, saturation: real)
    requires maxDepth >= 1
    ensures headroom >= 128 * maxDepth ==>
              ScaledDepth(maxDepth, r, headroom, saturation) == ScaledDepth(maxDepth, r, 0, saturation)
    ensures 0 < headroom <= 128 * maxDepth ==>
              ScaledDepth(maxDepth, r, headroom, saturation) * (128.0 * (maxDepth as real))
              == ScaledDepth(maxDepth, r, 0, saturation) * (headroom as real)
  {
    HeadroomShare(maxDepth, headroom);
    var x := Scaled(maxDepth as real, Factor(r));
    var memory, kept := MemoryShare(maxDepth, headroom), SaturationShare(saturation);
    assert MemoryShare(maxDepth, 0) == 1.0;
    hide *;
    StagesInTurn(maxDepth, r, headroom, saturation);
    StagesInTurn(maxDepth, r, 0, saturation);
    Reorder(x, memory, kept, 128.0 * (maxDepth as real));
  }

  /** A saturation takes half its share away, cut off at 0 and at 1. */
  lemma SaturationHalves(maxDepth: u32, r: real, headroom: u32, saturation: real)
    requires maxDepth >= 1
    ensures 2.0 * ScaledDepth(maxDepth, r, headroom, saturation)
            == (if saturation <= 0.0 then 2.0 else if saturation >= 1.0 then 1.0 else 2.0 - saturation)
               * ScaledDepth(maxDepth, r, headroom, 0.0)
  {
    var kept := SaturationShare(saturation);
    assert SaturationShare(0.0) == 1.0;
    assert 2.0 * kept == if saturation <= 0.0 then 2.0 else if saturation >= 1.0 then 1.0 else 2.0 - saturation;
    StagesInTurn(maxDepth, r, headroom, saturation);
    StagesInTurn(maxDepth, r, headroom, 0.0);
    TwiceKept(Scaled(Scaled(maxDepth as real, Factor(r)), MemoryShare(maxDepth, headroom)), kept);
  }

  lemma StagesInTurn(maxDepth: u32, r: real, headroom: u32, saturation: real)
    requires maxDepth >= 1
    ensures ScaledDepth(maxDepth, r, headroom, saturation)
            == (Scaled(maxDepth as real, Factor(r)) * MemoryShare(maxDepth, headroom)) * SaturationShare(saturation)
    ensures Scaled(Scaled(maxDepth as real, Factor(r)), MemoryShare(maxDepth, headroom))
            == Scaled(maxDepth as real, Factor(r)) * MemoryShare(maxDepth, headroom)
  {
    hide Factor, MemoryShare, SaturationShare;
  }

  lemma TwiceKept(y: real, kept: real)
    ensures 2.0 * (y * kept) == (2.0 * kept) * (y * 1.0)
  {
  }

  lemma HeadroomShare(maxDepth: u32, headroom: u32)
    requires maxDepth >= 1
    ensures headroom >= 128 * maxDepth ==> MemoryShare(maxDepth, headroom) == 1.0
    ensures 0 < headroom <= 128 * maxDepth ==>
              MemoryShare(maxDepth, headroom) * (128.0 * (maxDepth as real)) == headroom as real
  {
    if headroom != 0 {
      assert 128.0 * (maxDepth as real) == (128 * maxDepth) as real;
      QuotientOf(headroom, 128 * maxDepth);
    }
  }

  lemma QuotientOf(h: nat, n: nat)
    requires n > 0
    ensures (h as real) / (n as real) < 1.0 <==> h < n
    ensures (h as real) / (n as real) * (n as real) == h as real
    ensures h == n ==> 1.0 * (n as real) == h as real
  {
    var share := (h as real) / (n as real);
    assert share * (n as real) == h as real;
    ShareBelowOneIff(share, n as real);
  }

  lemma ShareBelowOneIff(share: real, whole: real)
    requires whole > 0.0
    ensures share < 1.0 <==> share * whole < whole
  {
    if share < 1.0 {
      assert (1.0 - share) * whole > 0.0;
    } else {
      assert (share - 1.0) * whole >= 0.0;
    }
  }

  lemma Reorder(x: real, memory: real, kept: real, whole: real)
    ensures ((x * memory) * kept) * whole == ((x * 1.0) * kept) * (memory * whole)
    ensures memory == 1.0 ==> (x * memory) * kept == (x * 1.0) * kept
  {
  }

  // ---------------------------------------------------------------------------
  // Rounding, casting and averaging
  // ---------------------------------------------------------------------------

  /** The nearest integer, and of two equally near ones the one further from zero. */
  lemma RoundIsNearest(x: real, n: int)
    ensures n == Round(x) <==>
            if x >= 0.0 then (n as real) - 0.5 <= x < (n as real) + 0.5 else (n as real) - 0.5 < x <= (n as real) + 0.5
  {
  }

  /** The signed 32-bit integer congruent to a number modulo 2^32. */
  lemma Signed32IsCongruent(x: int, n: int)
    ensures n == Signed32(x) <==> -0x8000_0000 <= n < 0x8000_0000 && (x - n) % 0x1_0000_0000 == 0
  {
  }

  lemma {:induction false} SumOfParts(s: seq<real>, t: seq<real>)
    ensures Sum(s + t) == Sum(s) + Sum(t)
    decreases |t|
  {
    if |t| == 0 {
      assert s + t == s;
    } else {
      assert (s + t)[..|s + t| - 1] == s + t[..|t| - 1];
      SumOfParts(s, t[..|t| - 1]);
    }
  }

  /** The average of two histories weighs each by its length. */
  lemma AverageOfParts(s: seq<real>, t: seq<real>)
    ensures Average(s + t) * (|s + t| as real) == Average(s) * (|s| as real) + Average(t) * (|t| as real)
    ensures forall x: real :: Average([x]) == x
  {
    SumOfParts(s, t);
    WholeSum(s);
    WholeSum(t);
    WholeSum(s + t);
    forall x: real
      ensures Average([x]) == x
    {
      assert Sum([x]) == x;
    }
  }

  lemma WholeSum(s: seq<real>)
    ensures Average(s) * (|s| as real) == Sum(s)
  {
    if |s| > 0 {
      DivideBack(Sum(s), |s| as real);
    }
  }

  lemma DivideBack(x: real, n: real)
    requires n > 0.0
    ensures x / n * n == x
  {
  }
}
