/** The heuristics engine: heuristics grouped by weight scale, each group
    averaged and the averages combined with the weights of the math model.

    The engine is generic in the heuristics it holds; what a heuristic
    scores is given to `Evaluate` as a function. */
module Engines {
  import opened Wrappers
  import opened Sums
  import opened Heuristics
  import opened MathModels

  /** A score defined on every heuristic. */
  ghost predicate Total<H(!new)>(score: H --> real) {
    forall h :: score.requires(h)
  }

  /** The scores of a group, in list order. */
  function Scores<H(!new)>(group: seq<H>, score: H --> real): (r: seq<real>)
    requires Total(score)
    ensures |r| == |group|
    ensures forall i | 0 <= i < |group| :: r[i] == score(group[i])
  {
    seq(|group|, i requires 0 <= i < |group| => score(group[i]))
  }

  /** The average score of a group. An empty group has none (Java computes
      NaN there); 0 stands in for it, and `Evaluate` reports EmptyGroup
      instead of using it. */
  function Mean<H(!new)>(group: seq<H>, score: H --> real): real
    requires Total(score)
  {
    if group == [] then 0.0 else SeqSum(Scores(group, score)) / (|group| as real)
  }

  /** Every group holds at least one heuristic. */
  predicate NonEmptyGroups<H(!new)>(groups: map<int, seq<H>>) {
    forall k | k in groups :: groups[k] != []
  }

  /** Each group's average multiplied by its group's weight. */
  function WeightedMeans<H(!new)>(groups: map<int, seq<H>>, weights: map<int, real>, score: H --> real): (m: map<int, real>)
    requires Total(score)
    requires groups.Keys <= weights.Keys
    ensures m.Keys == groups.Keys
  {
    map k | k in groups :: Mean(groups[k], score) * weights[k]
  }

  /** The engine's overall score: the sum of the weighted group averages. */
  ghost function Overall<H(!new)>(groups: map<int, seq<H>>, weights: map<int, real>, score: H --> real): real
    requires Total(score)
    requires groups.Keys <= weights.Keys
  {
    MapSum(groups.Keys, WeightedMeans(groups, weights, score))
  }

  /** The groups after `add(h, weight)`: `h` is appended to the group of
      `weight`, which is created empty first when missing. */
  function Added<H(!new)>(groups: map<int, seq<H>>, h: H, weight: int): (g: map<int, seq<H>>)
    ensures g.Keys == groups.Keys + {weight}
    ensures forall k | k in groups && k != weight :: g[k] == groups[k]
    ensures weight in groups ==> g[weight] == groups[weight] + [h]
    ensures weight !in groups ==> g[weight] == [h]
  {
    groups[weight := (if weight in groups then groups[weight] else []) + [h]]
  }

  class HeuristicsEngine<H(!new)> {
    var model: SliderMathModel?
    var weightedHeuristics: map<int, seq<H>>

    /** No model and no heuristics. */
    constructor ()
      ensures model == null && weightedHeuristics == map[]
    {
      model := null;
      weightedHeuristics := map[];
    }

    constructor WithModel(model: SliderMathModel?)
      ensures this.model == model && weightedHeuristics == map[]
    {
      this.model := model;
      weightedHeuristics := map[];
    }

    constructor WithGroups(model: SliderMathModel?, weightedHeuristics: map<int, seq<H>>)
      ensures this.model == model && this.weightedHeuristics == weightedHeuristics
    {
      this.model := model;
      this.weightedHeuristics := weightedHeuristics;
    }

    method SetModel(m: SliderMathModel?)
      modifies this
      ensures model == m && weightedHeuristics == old(weightedHeuristics)
    {
      model := m;
    }

    method SetWeightedHeuristics(groups: map<int, seq<H>>)
      modifies this
      ensures weightedHeuristics == groups && model == old(model)
    {
      weightedHeuristics := groups;
    }

    /** `add`: the weight is not checked against the model. */
    method Add(h: H, weight: int)
      modifies this
      ensures weightedHeuristics == Added(old(weightedHeuristics), h, weight)
      ensures model == old(model)
    {
      var group: seq<H>;
      if weight !in weightedHeuristics {
        group := [];
        weightedHeuristics := weightedHeuristics[weight := group];
      } else {
        group := weightedHeuristics[weight];
      }
      weightedHeuristics := weightedHeuristics[weight := group + [h]];
    }

    /** `evaluate`: the weights of the groups in use come from the model
        (a missing model or a scale the model does not declare fails), then
        every group is averaged and the averages are summed by weight. */
    method Evaluate(score: H --> real, exp: real -> real) returns (r: Result<real>)
      requires Total(score)
      requires ExpLike(exp)
      ensures model == null ==> r == Err(NullModel)
      ensures model != null && (exists k :: k in weightedHeuristics && k !in SCALES) ==> r == Err(IllegalWeight)
      ensures (&& model != null && (forall k | k in weightedHeuristics :: k in SCALES)
               && !NonEmptyGroups(weightedHeuristics)) ==> r == Err(EmptyGroup)
      ensures r.Ok? <==> && model != null && (forall k | k in weightedHeuristics :: k in SCALES)
                         && NonEmptyGroups(weightedHeuristics)
      ensures r.Ok? ==> && model != null && HasExponents(weightedHeuristics.Keys)
                        && NonEmptyGroups(weightedHeuristics)
                        && r.value == Overall(weightedHeuristics,
                                              Weights(weightedHeuristics.Keys, model.factor, exp), score)
    {
      if model == null {
        return Err(NullModel);
      }
      var keys := weightedHeuristics.Keys;
      var w := model.CalculateWeights(keys, exp);
      if w.Err? {
        return Err(w.error);
      }
      r := WeightedSum(weightedHeuristics, w.value, score);
    }
  }

  /** An engine without heuristics scores 0. */
  lemma OverallOfNoGroups<H(!new)>(weights: map<int, real>, score: H --> real)
    requires Total(score)
    ensures Overall(map[], weights, score) == 0.0
  {
  }

  /** The loop of `evaluate` over the groups: each group's average times its
      weight, added up; an empty group makes the result NaN in Java. */
  method WeightedSum<H(!new)>(groups: map<int, seq<H>>, weights: map<int, real>, score: H --> real)
    returns (r: Result<real>)
    requires Total(score)
    requires groups.Keys <= weights.Keys
    ensures r.Err? <==> !NonEmptyGroups(groups)
    ensures r.Err? ==> r.error == EmptyGroup
    ensures r.Ok? ==> r.value == Overall(groups, weights, score)
  {
    var keys := groups.Keys;
    ghost var means := WeightedMeans(groups, weights, score);
    var overall := 0.0;
    var rest := keys;
    while rest != {}
      invariant rest <= keys
      invariant forall k | k in keys - rest :: groups[k] != []
      invariant overall + MapSum(rest, means) == MapSum(keys, means)
      decreases rest
    {
      EmptyOrMember(rest);
      var k :| k in rest;
      var group := groups[k];
      if group == [] {
        return Err(EmptyGroup);
      }
      var partial := SumScores(group, score);
      var term := (partial / (|group| as real)) * weights[k];
      GroupTerm(groups, weights, score, k, partial);
      SumStep(keys, rest, means, k, overall, term);
      overall := overall + term;
      rest := rest - {k};
    }
    assert keys - rest == keys;
    return Ok(overall);
  }

  /** The inner loop of `evaluate`: the scores of a group added up in order. */
  method SumScores<H(!new)>(group: seq<H>, score: H --> real) returns (total: real)
    requires Total(score)
    ensures total == SeqSum(Scores(group, score))
  {
    ghost var scores := Scores(group, score);
    total := 0.0;
    for i := 0 to |group|
      invariant total == SeqSum(scores[..i])
    {
      assert scores[..i + 1] == scores[..i] + [score(group[i])];
      SeqSumSnoc(scores[..i], score(group[i]));
      total := total + score(group[i]);
    }
    assert scores[..|group|] == scores;
  }

  /** Adding a heuristic keeps every group non-empty. */
  lemma AddedKeepsNonEmpty<H(!new)>(groups: map<int, seq<H>>, h: H, weight: int)
    requires NonEmptyGroups(groups)
    ensures NonEmptyGroups(Added(groups, h, weight))
    ensures weight in Added(groups, h, weight)
  {
  }

  /** The average of scores within a range stays within it. */
  lemma {:induction false} MeanInRange<H(!new)>(group: seq<H>, score: H --> real, range: real)
    requires Total(score)
    requires group != []
    requires forall i | 0 <= i < |group| :: InRange(score(group[i]), range)
    ensures InRange(Mean(group, score), range)
  {
    var scores := Scores(group, score);
    SeqSumBounds(scores, 0.0, range);
    var n := |group| as real;
    assert 0.0 <= SeqSum(scores) <= n * range;
    DivideBetween(SeqSum(scores), n, range);
  }

  /** When every heuristic of every group scores within the range, so does
      the engine, for any weighting of the groups. */
  lemma {:induction false} OverallInRange<H(!new)>(groups: map<int, seq<H>>, w: map<int, real>,
                                              score: H --> real, range: real)
    requires Total(score)
    requires Normalised(groups.Keys, w) && NonEmptyGroups(groups)
    requires forall k, i | k in groups && 0 <= i < |groups[k]| :: InRange(score(groups[k][i]), range)
    ensures InRange(Overall(groups, w, score), range)
  {
    var keys := groups.Keys;
    var means := WeightedMeans(groups, w, score);
    var zero := map k | k in keys :: 0.0;
    var top := map k | k in keys :: w[k] * range;
    forall k | k in keys
      ensures zero[k] <= means[k] <= top[k]
    {
      InRangeTerm(groups, w, score, range, k);
    }
    MapSumMonotone(keys, zero, means);
    MapSumMonotone(keys, means, top);
    MapSumConst(keys, zero, 0.0);
    MapSumScale(keys, w, top, range);
  }

  /** When every heuristic gives the same score, that is the engine's
      score, for any weighting of the groups. */
  lemma {:induction false} OverallOfEqualScores<H(!new)>(groups: map<int, seq<H>>, w: map<int, real>,
                                                   score: H --> real, c: real)
    requires Total(score)
    requires Normalised(groups.Keys, w) && NonEmptyGroups(groups)
    requires forall k, i | k in groups && 0 <= i < |groups[k]| :: score(groups[k][i]) == c
    ensures Overall(groups, w, score) == c
  {
    var keys := groups.Keys;
    var means := WeightedMeans(groups, w, score);
    forall k | k in keys
      ensures WeightedMeans(groups, w, score)[k] == w[k] * c
    {
      EqualScoresTerm(groups, w, score, c, k);
    }
    MapSumScale(keys, w, means, c);
  }

  /** The engine with the slider model: scores within the range give an
      overall score within it. */
  lemma SliderOverallInRange<H(!new)>(groups: map<int, seq<H>>, factor: real, exp: real -> real,
                                score: H --> real, range: real)
    requires Total(score)
    requires ExpLike(exp) && HasExponents(groups.Keys) && NonEmptyGroups(groups) && groups.Keys != {}
    requires forall k, i | k in groups && 0 <= i < |groups[k]| :: InRange(score(groups[k][i]), range)
    ensures InRange(Overall(groups, Weights(groups.Keys, factor, exp), score), range)
  {
    SliderWeightsNormalised(groups.Keys, factor, exp);
    OverallInRange(groups, Weights(groups.Keys, factor, exp), score, range);
  }

  /** One step of `WeightedSum`: a group's term from the sum of its scores. */
  lemma GroupTerm<H(!new)>(groups: map<int, seq<H>>, weights: map<int, real>, score: H --> real, k: int, partial: real)
    requires Total(score)
    requires groups.Keys <= weights.Keys && k in groups && groups[k] != []
    requires partial == SeqSum(Scores(groups[k], score))
    ensures WeightedMeans(groups, weights, score)[k] == (partial / (|groups[k]| as real)) * weights[k]
  {
    var average := partial / (|groups[k]| as real);
    assert average == Mean(groups[k], score);
    ScaledEqual(average, Mean(groups[k], score), weights[k], WeightedMeans(groups, weights, score)[k]);
  }

  /** A group scoring within the range contributes between 0 and its
      weight times the range. */
  lemma InRangeTerm<H(!new)>(groups: map<int, seq<H>>, w: map<int, real>, score: H --> real, range: real, k: int)
    requires Total(score)
    requires groups.Keys <= w.Keys && k in groups && groups[k] != [] && 0.0 < w[k] <= 1.0
    requires forall i | 0 <= i < |groups[k]| :: InRange(score(groups[k][i]), range)
    ensures 0.0 <= WeightedMeans(groups, w, score)[k] <= w[k] * range
  {
    MeanInRange(groups[k], score, range);
    ScaleBetween(Mean(groups[k], score), w[k], range);
  }

  /** The running sum of `WeightedSum` after one more group. */
  lemma SumStep(keys: set<int>, rest: set<int>, means: map<int, real>, k: int, overall: real, term: real)
    requires rest <= keys <= means.Keys && k in rest && means[k] == term
    requires overall + MapSum(rest, means) == MapSum(keys, means)
    ensures (overall + term) + MapSum(rest - {k}, means) == MapSum(keys, means)
  {
    MapSumRemove(rest, means, k);
  }

  /** A group whose heuristics all score `c` contributes `c` times its weight. */
  lemma EqualScoresTerm<H(!new)>(groups: map<int, seq<H>>, w: map<int, real>, score: H --> real, c: real, k: int)
    requires Total(score)
    requires groups.Keys <= w.Keys && k in groups && groups[k] != []
    requires forall i | 0 <= i < |groups[k]| :: score(groups[k][i]) == c
    ensures WeightedMeans(groups, w, score)[k] == w[k] * c
  {
    var scores := Scores(groups[k], score);
    SeqSumConst(scores, c);
    MeanOfConstant(SeqSum(scores), |groups[k]| as real, c);
    ScaledEqual(Mean(groups[k], score), c, w[k], WeightedMeans(groups, w, score)[k]);
  }

  lemma DivideBetween(t: real, n: real, range: real)
    requires n > 0.0 && 0.0 <= t <= n * range
    ensures 0.0 <= t / n <= range
  {
  }

  lemma ScaleBetween(m: real, w: real, range: real)
    requires 0.0 <= m <= range && 0.0 < w <= 1.0
    ensures 0.0 <= m * w <= w * range
  {
  }

  lemma ScaledEqual(a: real, b: real, w: real, p: real)
    requires a == b && p == b * w
    ensures p == a * w && p == w * a
  {
  }

  lemma MeanOfConstant(t: real, n: real, c: real)
    requires n > 0.0 && t == n * c
    ensures t / n == c
  {
  }
}
