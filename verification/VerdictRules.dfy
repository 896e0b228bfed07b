/**
 * What a verdict must be to be accepted, in numbers: the bounds, the tolerance and the rounding written
 * out, with sums and means of their own.
 */
module VerdictRules {
  import opened Wrappers
  import opened JsonValues
  import opened Evaluations
  import opened Validation
  import opened Sorting

  predicate AllFinite(ps: seq<F64>) {
    forall i :: 0 <= i < |ps| ==> ps[i].Finite?
  }

  function AddedUp(ps: seq<F64>): real
    requires AllFinite(ps)
  {
    if ps == [] then 0.0 else ps[0].value + AddedUp(ps[1..])
  }

  /** The sum of each value times its level, counting levels up from `level`. */
  function LevelSum(ps: seq<F64>, level: nat): real
    requires AllFinite(ps)
  {
    if ps == [] then 0.0 else level as real * ps[0].value + LevelSum(ps[1..], level + 1)
  }

  function TenTo(d: nat): (p: real)
    ensures p >= 1.0
  {
    if d == 0 then 1.0 else TenTo(d - 1) * 10.0
  }

  /** The most a value rounded to the declared places can be off by. */
  function HalfAPlace(decimals: Option<nat>): real {
    if decimals.None? then 0.0 else 0.5 / TenTo(decimals.value)
  }

  /** `a` and `b` differ by no more than `bound`. */
  predicate Near(a: real, b: real, bound: real) {
    a <= b + bound && b <= a + bound
  }

  /** A distribution over the outcomes: each probability in range, and their sum one up to a millionth and the rounding. */
  predicate SumsToOne(ps: seq<F64>, unit: real) {
    && (forall i :: 0 <= i < |ps| ==> ps[i].Finite? && 0.0 <= ps[i].value <= 1.0)
    && Near(AddedUp(ps), 1.0, 0.000001 + |ps| as real * unit)
  }

  /** Whether an answer keeps the rules of its question, for values rounded by up to `p` and scores by up to `s`. */
  ghost predicate KeepsTheRules(question: Question, answer: Answer, p: real, s: real) {
    match question
    case Choice(options) =>
      && answer.ChoiceAnswer? && answer.choice in options
      && (answer.distribution.Some? ==>
            var pairs := answer.distribution.value;
            && (forall option :: option in options <==> exists k :: 0 <= k < |pairs| && pairs[k].0 == option)
            && SumsToOne(Values(pairs), p)
            && forall j, k :: 0 <= j < |pairs| && 0 <= k < |pairs| && pairs[k].0 == answer.choice ==>
                 (pairs[j].1.Finite? && pairs[k].1.Finite? ==> pairs[j].1.value <= pairs[k].1.value + 0.000001))
    case Score(levels) =>
      && answer.ScoreAnswer? && answer.score.Finite? && 0.0 <= answer.score.value <= (levels as real - 1.0)
      && (answer.weights.Some? ==>
            var ps := answer.weights.value;
            && |ps| == levels && SumsToOne(ps, p)
            && Near(LevelSum(ps, 0), answer.score.value, 0.000001 + (levels * (levels - 1) / 2) as real * p + s))
    case Boolean =>
      answer.BooleanAnswer? && answer.probability.Finite? && 0.0 <= answer.probability.value <= 1.0
  }

  // ---------------------------------------------------------------------------------------------
  // The sums agree
  // ---------------------------------------------------------------------------------------------

  lemma {:induction false} TenToIsPow10(d: nat)
    ensures TenTo(d) == Pow10(d)
  {
    if d > 0 {
      TenToIsPow10(d - 1);
    }
  }

  lemma {:induction false} AddedUpSnoc(ps: seq<F64>, last: F64)
    requires AllFinite(ps + [last])
    ensures AllFinite(ps) && last.Finite? && AddedUp(ps + [last]) == AddedUp(ps) + last.value
  {
    assert (ps + [last])[|ps|] == last;
    assert forall i :: 0 <= i < |ps| ==> (ps + [last])[i] == ps[i];
    if ps == [] {
      assert ps + [last] == [last] && [last][1..] == [];
    } else {
      assert (ps + [last])[1..] == ps[1..] + [last];
      AddedUpSnoc(ps[1..], last);
    }
  }

  lemma {:induction false} SumIsAddedUp(ps: seq<F64>)
    requires AllProbabilities(ps)
    ensures Sum(ps) == AddedUp(ps)
  {
    if ps != [] {
      var front, last := ps[..|ps| - 1], ps[|ps| - 1];
      assert ps == front + [last];
      SumIsAddedUp(front);
      AddedUpSnoc(front, last);
    }
  }

  lemma {:induction false} LevelSumSnoc(ps: seq<F64>, last: F64, level: nat)
    requires AllFinite(ps + [last])
    ensures AllFinite(ps) && last.Finite?
    ensures LevelSum(ps + [last], level) == LevelSum(ps, level) + (level + |ps|) as real * last.value
    decreases |ps|
  {
    assert (ps + [last])[|ps|] == last;
    assert forall i :: 0 <= i < |ps| ==> (ps + [last])[i] == ps[i];
    if ps == [] {
      assert ps + [last] == [last] && [last][1..] == [];
    } else {
      assert (ps + [last])[1..] == ps[1..] + [last];
      LevelSumSnoc(ps[1..], last, level + 1);
    }
  }

  lemma {:induction false} WeightedSumIsLevelSum(ps: seq<F64>)
    requires AllProbabilities(ps)
    ensures WeightedSum(ps) == LevelSum(ps, 0)
  {
    if ps != [] {
      var front, last := ps[..|ps| - 1], ps[|ps| - 1];
      assert ps == front + [last];
      WeightedSumIsLevelSum(front);
      LevelSumSnoc(front, last, 0);
      hide LevelSum;
      assert Weighted(|front|, last.value) == |front| as real * last.value;
    }
  }

  /** The rounding of each weight counts once for every level below it. */
  lemma {:induction false} WeightedErrorIs(n: nat, error: real)
    ensures WeightedError(n, error) == (n * (n - 1) / 2) as real * error
  {
    if n > 0 {
      WeightedErrorIs(n - 1, error);
      var before := (n - 1) * (n - 2) / 2;
      assert n * (n - 1) == (n - 1) * (n - 2) + 2 * (n - 1);
      assert n * (n - 1) / 2 == before + (n - 1);
      MoreOfOne(before, n - 1, error);
    }
  }

  lemma MoreOfOne(m: int, n: int, x: real)
    ensures (m + n) as real * x == m as real * x + n as real * x
  {}

  lemma DistributionIsNear(ps: seq<F64>, unit: real)
    ensures SumsToOne(ps, unit) <==> NearlyADistribution(ps, |ps|, unit)
  {
    hide AddedUp, Sum;
    if AllProbabilities(ps) {
      SumIsAddedUp(ps);
    }
  }

  lemma AcceptableChoiceIs(options: seq<string>, answer: Answer, p: real, s: real)
    requires ValidQuestion(Choice(options)) && WellFormed(answer)
    ensures Acceptable(Choice(options), answer, p, s) <==> KeepsTheRules(Choice(options), answer, p, s)
  {
    hide AddedUp, Sum, SumsToOne, NearlyADistribution;
    if answer.ChoiceAnswer? && answer.distribution.Some? {
      var pairs := answer.distribution.value;
      DistributionIsNear(Values(pairs), p);
      assert |Values(pairs)| == |pairs|;
      KeysAre(pairs, options);
      if SumsToOne(Values(pairs), p) && answer.choice in Keys(pairs) {
        assert forall k :: 0 <= k < |pairs| ==> pairs[k].1.Finite? by { NearIsFinite(pairs, p); }
        ModeIs(pairs, answer.choice);
      }
    }
  }

  lemma NearIsFinite(pairs: seq<(string, F64)>, p: real)
    requires SumsToOne(Values(pairs), p)
    ensures forall k :: 0 <= k < |pairs| ==> pairs[k].1.Finite?
  {
    assert forall k :: 0 <= k < |pairs| ==> Values(pairs)[k] == pairs[k].1;
  }

  lemma KeysAre(pairs: seq<(string, F64)>, options: seq<string>)
    ensures Keys(pairs) == NameSet(options) <==>
            forall option :: option in options <==> exists k :: 0 <= k < |pairs| && pairs[k].0 == option
  {
    assert forall option :: option in Keys(pairs) <==> exists k :: 0 <= k < |pairs| && pairs[k].0 == option;
    if Keys(pairs) == NameSet(options) {
      assert forall option :: option in options <==> option in Keys(pairs);
    }
  }

  lemma ModeIs(pairs: seq<(string, F64)>, choice: string)
    requires DistinctKeys(pairs, KeyOf) && choice in Keys(pairs)
    requires forall k :: 0 <= k < |pairs| ==> pairs[k].1.Finite?
    ensures MostProbable(pairs, choice) <==>
            forall j, k :: 0 <= j < |pairs| && 0 <= k < |pairs| && pairs[k].0 == choice ==>
              pairs[j].1.value <= pairs[k].1.value + 0.000001
  {
    var c :| 0 <= c < |pairs| && pairs[c].0 == choice;
    assert forall k :: 0 <= k < |pairs| && pairs[k].0 == choice ==> k == c by {
      forall k | 0 <= k < |pairs| && pairs[k].0 == choice
        ensures k == c
      {
        assert KeyOf(pairs[k]) == KeyOf(pairs[c]);
      }
    }
    assert forall j :: 0 <= j < |pairs| ==> Values(pairs)[j] == pairs[j].1;
    assert NoneAbove(Values(pairs), pairs[c].1.value) <==>
      forall j :: 0 <= j < |pairs| ==> pairs[j].1.value <= pairs[c].1.value + 0.000001;
  }

  lemma AcceptableScoreIs(levels: nat, answer: Answer, p: real, s: real)
    requires ValidQuestion(Score(levels))
    ensures Acceptable(Score(levels), answer, p, s) <==> KeepsTheRules(Score(levels), answer, p, s)
  {
    hide AddedUp, Sum, SumsToOne, NearlyADistribution, WeightedSum, LevelSum, WeightedError;
    WeightedErrorIs(levels, p);
    assert (levels - 1) as real == levels as real - 1.0;
    if answer.ScoreAnswer? && answer.weights.Some? {
      var ps := answer.weights.value;
      NearlyIsAll(ps, levels, p);
      DistributionIsNear(ps, p);
      if |ps| == levels && SumsToOne(ps, p) {
        WeightedSumIsLevelSum(ps);
      }
    }
  }

  lemma NearlyIsAll(ps: seq<F64>, n: nat, p: real)
    ensures NearlyADistribution(ps, n, p) ==> |ps| == n && AllProbabilities(ps)
  {}

  lemma AcceptableIs(question: Question, answer: Answer, p: real, s: real)
    requires ValidQuestion(question) && WellFormed(answer)
    ensures Acceptable(question, answer, p, s) <==> KeepsTheRules(question, answer, p, s)
  {
    match question
    case Choice(options) => AcceptableChoiceIs(options, answer, p, s);
    case Score(levels) => AcceptableScoreIs(levels, answer, p, s);
    case Boolean =>
  }

  // ---------------------------------------------------------------------------------------------
  // Acceptance
  // ---------------------------------------------------------------------------------------------

  /**
   * A verdict is accepted exactly when it declares at most fifteen places, answers the questions asked
   * and no others, and every answer keeps its question's rules: probabilities from zero to one that sum
   * to one, a choice no option exceeds, a score from zero to the last level that agrees with its
   * weights, each within a millionth and what the declared rounding can account for.
   */
  lemma AcceptanceWrittenOut(e: Evaluation, v: Verdict)
    requires ValidEvaluation(e) && forall id <- v.answers :: WellFormed(v.answers[id])
    ensures
      var rounding := if v.rounding.Some? then v.rounding.value else Rounding(None, None);
      ValidateVerdict(e, v).Ok? <==>
        && (rounding.probabilityDecimals.Some? ==> rounding.probabilityDecimals.value <= 15)
        && (rounding.scoreDecimals.Some? ==> rounding.scoreDecimals.value <= 15)
        && (forall id :: id in v.answers <==> exists i :: 0 <= i < |e.questions| && e.questions[i].id == id)
        && forall i :: 0 <= i < |e.questions| ==>
             && e.questions[i].id in v.answers
             && KeepsTheRules(e.questions[i].question, v.answers[e.questions[i].id],
                              HalfAPlace(rounding.probabilityDecimals), HalfAPlace(rounding.scoreDecimals))
  {
    AcceptanceIsExact(e, v);
    var rounding := if v.rounding.Some? then v.rounding.value else Rounding(None, None);
    RoundingErrorIsHalfAPlace(rounding.probabilityDecimals);
    RoundingErrorIsHalfAPlace(rounding.scoreDecimals);
    assert rounding == DeclaredRounding(v);
    var p, s := HalfAPlace(rounding.probabilityDecimals), HalfAPlace(rounding.scoreDecimals);
    hide HalfAPlace, RoundingError, ValidateVerdict, Acceptable, KeepsTheRules, WellFormed, ValidQuestion;
    forall i | 0 <= i < |e.questions| && e.questions[i].id in v.answers
      ensures Acceptable(e.questions[i].question, v.answers[e.questions[i].id], p, s) <==>
              KeepsTheRules(e.questions[i].question, v.answers[e.questions[i].id], p, s)
    {
      AcceptableIs(e.questions[i].question, v.answers[e.questions[i].id], p, s);
    }
  }

  lemma RoundingErrorIsHalfAPlace(decimals: Option<nat>)
    ensures RoundingError(decimals).Ok? <==> decimals.None? || decimals.value <= 15
    ensures RoundingError(decimals).Ok? ==> RoundingError(decimals).value == HalfAPlace(decimals)
  {
    if decimals.Some? {
      TenToIsPow10(decimals.value);
    }
  }

  /** A choice that some option's probability exceeds by more than a millionth is refused, whatever else the verdict holds. */
  lemma BeatenChoiceIsRefused(e: Evaluation, v: Verdict, i: nat, j: nat, k: nat)
    requires ValidEvaluation(e) && (forall id <- v.answers :: WellFormed(v.answers[id]))
    requires i < |e.questions| && e.questions[i].id in v.answers
    requires
      var answer := v.answers[e.questions[i].id];
      && answer.ChoiceAnswer? && answer.distribution.Some?
      && var pairs := answer.distribution.value;
         && j < |pairs| && k < |pairs| && pairs[k].0 == answer.choice
         && pairs[j].1.Finite? && pairs[k].1.Finite? && pairs[j].1.value > pairs[k].1.value + 0.000001
    ensures ValidateVerdict(e, v).Err?
  {
    AcceptanceWrittenOut(e, v);
    hide SumsToOne, ValidateVerdict, WellFormed;
  }
}
