/** The weighting model of the heuristics engine: a slider of five scales,
    each weighted by an exponential of its position, normalised over the
    scales in use.

    The abstract base `HeuristicsMathModel` has one concrete model, the
    slider, so the base's validation (`calculateWeights`, `isValidWeight`)
    and the slider's own operations are members of one class here. */
module MathModels {
  import opened Wrappers
  import opened Sums

  const VERY_LOW: int := 0
  const LOW: int := 1
  const MID: int := 2
  const HIGH: int := 3
  const VERY_HIGH: int := 4

  /** The scales the slider declares, lowest first. */
  const SCALES: seq<int> := [VERY_LOW, LOW, MID, HIGH, VERY_HIGH]

  /** The exponent of each scale, indexed by the scale. */
  const EXPONENTS: seq<int> := [0, 1, 2, 3, 4, 5]

  /** What the model relies on about `Math.exp`: it is positive ... */
  ghost predicate ExpLike(exp: real -> real) {
    forall x :: exp(x) > 0.0
  }

  /** ... and, for the ordering of the weights, increasing. */
  ghost predicate ExpIncreasing(exp: real -> real) {
    forall x, y | x <= y :: exp(x) <= exp(y)
  }

  /** Scales an exponent is declared for. */
  predicate HasExponents(scales: set<int>) {
    forall i | i in scales :: 0 <= i < |EXPONENTS|
  }

  /** The exponential term of scale `i`. */
  function Term(i: int, factor: real, exp: real -> real): real
    requires 0 <= i < |EXPONENTS|
  {
    exp((EXPONENTS[i] as real) * factor)
  }

  /** The exponential term of every requested scale. */
  function ExpTerms(scales: set<int>, factor: real, exp: real -> real): (m: map<int, real>)
    requires HasExponents(scales)
    ensures m.Keys == scales
  {
    map i | i in scales :: Term(i, factor, exp)
  }

  /** The weight of each requested scale: its term over the sum of all terms. */
  ghost function Weights(scales: set<int>, factor: real, exp: real -> real): (w: map<int, real>)
    requires ExpLike(exp) && HasExponents(scales)
    ensures w.Keys == scales
  {
    var terms := ExpTerms(scales, factor, exp);
    MapSumNonNegative(scales, terms);
    map i | i in scales :: terms[i] / MapSum(scales, terms)
  }

  class SliderMathModel {
    var factor: real

    /** The default factor is 2. */
    constructor ()
      ensures factor == 2.0
    {
      factor := 2.0;
    }

    constructor WithFactor(factor: real)
      ensures this.factor == factor
    {
      this.factor := factor;
    }

    method SetFactor(f: real)
      modifies this
      ensures factor == f
    {
      factor := f;
    }

    /** `getWeightScales`: the five scales from VERY_LOW to VERY_HIGH, in order. */
    method GetWeightScales() returns (scales: seq<int>)
      ensures |scales| == 5
      ensures forall i | 0 <= i < |scales| :: scales[i] == VERY_LOW + i
      ensures forall w :: w in scales <==> VERY_LOW <= w <= VERY_HIGH
    {
      scales := SCALES;
    }

    /** `isValidWeight`: a scan of the declared scales for `w`. */
    method IsValidWeight(w: int) returns (valid: bool)
      ensures valid <==> w in SCALES
    {
      var scales := GetWeightScales();
      valid := false;
      for i := 0 to |scales|
        invariant valid <==> w in scales[..i]
      {
        if scales[i] == w {
          valid := true;
        }
      }
      assert scales[..|scales|] == scales;
    }

    /** `processModelScales`: sums the terms of the requested scales, then
        divides each term by that sum. */
    method ProcessModelScales(scales: set<int>, exp: real -> real) returns (weights: map<int, real>)
      requires ExpLike(exp) && HasExponents(scales)
      ensures weights == Weights(scales, factor, exp)
    {
      ghost var terms := ExpTerms(scales, factor, exp);
      var denom := 0.0;
      var rest := scales;
      while rest != {}
        invariant rest <= scales
        invariant denom + MapSum(rest, terms) == MapSum(scales, terms)
        decreases rest
      {
        EmptyOrMember(rest);
        var i :| i in rest;
        var term := Term(i, factor, exp);
        MapSumRemove(rest, terms, i);
        denom := denom + term;
        rest := rest - {i};
      }
      MapSumNonNegative(scales, terms);
      weights := map[];
      rest := scales;
      while rest != {}
        invariant rest <= scales
        invariant weights.Keys == scales - rest
        invariant forall i | i in weights :: weights[i] == terms[i] / denom
        decreases rest
      {
        EmptyOrMember(rest);
        var i :| i in rest;
        weights := weights[i := Term(i, factor, exp) / denom];
        rest := rest - {i};
      }
      assert scales - rest == scales;
    }

    /** `calculateWeights`: every requested scale is checked first; any
        scale the model does not declare is IllegalWeight. */
    method CalculateWeights(scales: set<int>, exp: real -> real) returns (r: Result<map<int, real>>)
      requires ExpLike(exp)
      ensures r.Err? <==> exists s :: s in scales && s !in SCALES
      ensures r.Err? ==> r.error == IllegalWeight
      ensures r.Ok? ==> HasExponents(scales) && r.value == Weights(scales, factor, exp)
    {
      var rest := scales;
      while rest != {}
        invariant rest <= scales
        invariant forall s | s in scales - rest :: s in SCALES
        decreases rest
      {
        EmptyOrMember(rest);
        var s :| s in rest;
        var valid := IsValidWeight(s);
        if !valid {
          return Err(IllegalWeight);
        }
        rest := rest - {s};
      }
      assert scales - rest == scales;
      var weights := ProcessModelScales(scales, exp);
      return Ok(weights);
    }
  }

  /** Every weight lies in (0, 1]. */
  lemma {:induction false} WeightInUnit(scales: set<int>, factor: real, exp: real -> real, i: int)
    requires ExpLike(exp) && HasExponents(scales) && i in scales
    ensures 0.0 < Weights(scales, factor, exp)[i] <= 1.0
  {
    var terms := ExpTerms(scales, factor, exp);
    MapSumMember(scales, terms, i);
    var denom := MapSum(scales, terms);
    assert Weights(scales, factor, exp)[i] == terms[i] / denom;
    assert 0.0 < terms[i] <= denom;
    UnitFraction(terms[i], denom);
  }

  /** The weights of a non-empty request sum to 1. */
  lemma {:induction false} WeightsSumToOne(scales: set<int>, factor: real, exp: real -> real)
    requires ExpLike(exp) && HasExponents(scales) && scales != {}
    ensures MapSum(scales, Weights(scales, factor, exp)) == 1.0
  {
    var terms := ExpTerms(scales, factor, exp);
    MapSumNonNegative(scales, terms);
    var denom := MapSum(scales, terms);
    MapSumDivide(scales, terms, Weights(scales, factor, exp), denom);
    SelfDivide(denom);
  }

  /** A weighting of `keys`: one weight in (0, 1] per key, summing to 1. */
  ghost predicate Normalised(keys: set<int>, w: map<int, real>) {
    && w.Keys == keys
    && (forall k | k in keys :: 0.0 < w[k] <= 1.0)
    && MapSum(keys, w) == 1.0
  }

  /** The slider's weights of a non-empty request are a weighting of it. */
  lemma SliderWeightsNormalised(scales: set<int>, factor: real, exp: real -> real)
    requires ExpLike(exp) && HasExponents(scales) && scales != {}
    ensures Normalised(scales, Weights(scales, factor, exp))
  {
    forall k | k in scales
      ensures 0.0 < Weights(scales, factor, exp)[k] <= 1.0
    {
      WeightInUnit(scales, factor, exp, k);
    }
    WeightsSumToOne(scales, factor, exp);
  }

  /** A lone scale gets the whole weight, whatever the factor. */
  lemma {:induction false} SingleScaleWeight(s: int, factor: real, exp: real -> real)
    requires ExpLike(exp) && 0 <= s < |EXPONENTS|
    ensures Weights({s}, factor, exp)[s] == 1.0
  {
    var terms := ExpTerms({s}, factor, exp);
    MapSumRemove({s}, terms, s);
    assert {s} - {s} == {};
    assert MapSum({s}, terms) == terms[s];
    assert terms[s] > 0.0;
    SelfDivide(terms[s]);
    assert Weights({s}, factor, exp)[s] == terms[s] / terms[s];
  }

  /** With factor 0 every scale in use gets the same share. */
  lemma {:induction false} FactorZeroWeights(scales: set<int>, exp: real -> real, i: int)
    requires ExpLike(exp) && HasExponents(scales) && i in scales
    ensures Weights(scales, 0.0, exp)[i] == 1.0 / (|scales| as real)
  {
    var terms := ExpTerms(scales, 0.0, exp);
    ZeroFactorTerms(scales, exp);
    MapSumConst(scales, terms, exp(0.0));
    WeightIsShare(scales, 0.0, exp, i);
    ShareOfEqual(exp(0.0), |scales| as real);
  }

  /** A weight is its term over the sum of all terms. */
  lemma WeightIsShare(scales: set<int>, factor: real, exp: real -> real, i: int)
    requires ExpLike(exp) && HasExponents(scales) && i in scales
    ensures var terms := ExpTerms(scales, factor, exp);
            MapSum(scales, terms) > 0.0 && Weights(scales, factor, exp)[i] == terms[i] / MapSum(scales, terms)
  {
    MapSumNonNegative(scales, ExpTerms(scales, factor, exp));
  }

  /** With factor 0 every term is `exp(0)`. */
  lemma ZeroFactorTerms(scales: set<int>, exp: real -> real)
    requires HasExponents(scales)
    ensures forall k | k in scales :: ExpTerms(scales, 0.0, exp)[k] == exp(0.0)
  {
    forall k | k in scales
      ensures ExpTerms(scales, 0.0, exp)[k] == exp(0.0)
    {
      assert (EXPONENTS[k] as real) * 0.0 == 0.0;
    }
  }

  /** One of `n` equal positive parts is `1 / n` of their sum. */
  lemma ShareOfEqual(e: real, n: real)
    requires e > 0.0 && n > 0.0
    ensures e / (n * e) == 1.0 / n
  {
    assert n * e * (1.0 / n) == e;
  }

  /** With a non-negative factor a higher scale never weighs less. */
  lemma {:induction false} WeightsMonotone(scales: set<int>, factor: real, exp: real -> real, i: int, j: int)
    requires ExpLike(exp) && HasExponents(scales) && i in scales && j in scales
    requires ExpIncreasing(exp) && factor >= 0.0 && i <= j
    ensures Weights(scales, factor, exp)[i] <= Weights(scales, factor, exp)[j]
  {
    var terms := ExpTerms(scales, factor, exp);
    MapSumNonNegative(scales, terms);
    var denom := MapSum(scales, terms);
    assert EXPONENTS[i] <= EXPONENTS[j];
    ScaleMonotone(EXPONENTS[i] as real, EXPONENTS[j] as real, factor);
    assert terms[i] <= terms[j];
    DivideMonotone(terms[i], terms[j], denom);
  }

  lemma SelfDivide(d: real)
    requires d > 0.0
    ensures d / d == 1.0
  {
  }

  lemma UnitFraction(t: real, d: real)
    requires 0.0 < t <= d
    ensures 0.0 < t / d <= 1.0
  {
  }

  lemma ScaleMonotone(a: real, b: real, f: real)
    requires a <= b && f >= 0.0
    ensures a * f <= b * f
  {
  }

  lemma DivideMonotone(a: real, b: real, d: real)
    requires a <= b && d > 0.0
    ensures a / d <= b / d
  {
  }
}
