/**
 * A provider that knows a true distribution and rounds it to the places it declares is always
 * accepted, however many outcomes there are and however the rounding falls.
 */
module HonestProvider {
  import opened Wrappers
  import opened JsonValues
  import opened Evaluations
  import opened Validation

  // ---------------------------------------------------------------------------------------------
  // Rounding
  // ---------------------------------------------------------------------------------------------

  /** The whole number nearest to `x * scale`, halves going up. */
  function HalfUp(x: real, scale: real): int {
    (x * scale + 0.5).Floor
  }

  function Ratio(n: int, scale: real): real
    requires scale >= 1.0
  {
    n as real / scale
  }

  /** Half up, to `d` decimal places. */
  function RoundTo(x: real, d: nat): real {
    Ratio(HalfUp(x, Pow10(d)), Pow10(d))
  }

  function Rounded(x: real, decimals: Option<nat>): real {
    match decimals
    case None => x
    case Some(d) => RoundTo(x, d)
  }

  /** The most a rounded value can be off by. */
  function UnitError(decimals: Option<nat>): (error: real)
    ensures error >= 0.0
  {
    match decimals
    case None => 0.0
    case Some(d) => 0.5 / Pow10(d)
  }

  function IntPow10(n: nat): (p: int)
    ensures p >= 1
  {
    if n == 0 then 1 else 10 * IntPow10(n - 1)
  }

  lemma {:induction false} Pow10IsWhole(n: nat)
    ensures Pow10(n) == IntPow10(n) as real
  {
    if n > 0 {
      Pow10IsWhole(n - 1);
    }
  }

  lemma RoundedIsNear(x: real, decimals: Option<nat>)
    ensures -UnitError(decimals) <= Rounded(x, decimals) - x <= UnitError(decimals)
  {
    hide Pow10, HalfUp, Ratio;
    if decimals.Some? {
      var scale := Pow10(decimals.value);
      HalfUpIsNear(x, scale);
      RatioIsNear(x, HalfUp(x, scale), scale);
    }
  }

  lemma HalfUpIsNear(x: real, scale: real)
    ensures -0.5 <= HalfUp(x, scale) as real - x * scale <= 0.5
  {}

  lemma RatioIsNear(x: real, n: int, scale: real)
    requires scale >= 1.0 && -0.5 <= n as real - x * scale <= 0.5
    ensures -0.5 / scale <= Ratio(n, scale) - x <= 0.5 / scale
  {
    var q, half := n as real / scale, 0.5 / scale;
    assert q * scale == n as real && half * scale == 0.5;
    ScalingKeepsOrder(q - x, half, scale);
    ScalingKeepsOrder(-half, q - x, scale);
  }

  lemma ScalingKeepsOrder(x: real, y: real, scale: real)
    requires scale > 0.0 && x * scale <= y * scale
    ensures x <= y
  {
    assert (x - y) * scale == x * scale - y * scale;
    if x > y {
      ProductIsPositive(x - y, scale);
    }
  }

  lemma ProductIsPositive(x: real, y: real)
    requires x > 0.0 && y > 0.0
    ensures x * y > 0.0
  {}

  lemma RoundedIsMonotone(x: real, y: real, decimals: Option<nat>)
    requires x <= y
    ensures Rounded(x, decimals) <= Rounded(y, decimals)
  {
    hide Pow10, HalfUp, Ratio;
    if decimals.Some? {
      var scale := Pow10(decimals.value);
      HalfUpKeepsOrder(x, y, scale);
      RatioKeepsOrder(HalfUp(x, scale), HalfUp(y, scale), scale);
    }
  }

  lemma HalfUpKeepsOrder(x: real, y: real, scale: real)
    requires x <= y && scale >= 1.0
    ensures HalfUp(x, scale) <= HalfUp(y, scale)
  {}

  lemma RatioKeepsOrder(m: int, n: int, scale: real)
    requires m <= n && scale >= 1.0
    ensures Ratio(m, scale) <= Ratio(n, scale)
  {}

  /** Rounding leaves whole numbers alone, so it never carries a value past one. */
  lemma WholeNumbersStay(n: int, decimals: Option<nat>)
    ensures Rounded(n as real, decimals) == n as real
  {
    hide Pow10, IntPow10, HalfUp, Ratio;
    if decimals.Some? {
      Pow10IsWhole(decimals.value);
      HalfUpOfWhole(n, IntPow10(decimals.value));
    }
  }

  lemma HalfUpOfWhole(n: int, scale: int)
    requires scale >= 1
    ensures Ratio(HalfUp(n as real, scale as real), scale as real) == n as real
  {
    assert n as real * scale as real == (n * scale) as real;
    assert HalfUp(n as real, scale as real) == n * scale;
  }

  lemma RoundedStaysWithin(x: real, top: nat, decimals: Option<nat>)
    requires 0.0 <= x <= top as real
    ensures 0.0 <= Rounded(x, decimals) <= top as real
  {
    RoundedIsMonotone(0.0, x, decimals);
    RoundedIsMonotone(x, top as real, decimals);
    WholeNumbersStay(0, decimals);
    WholeNumbersStay(top, decimals);
  }

  // ---------------------------------------------------------------------------------------------
  // Sums of rounded values
  // ---------------------------------------------------------------------------------------------

  function Total(ws: seq<real>): real {
    if ws == [] then 0.0 else Total(ws[..|ws| - 1]) + ws[|ws| - 1]
  }

  function Mean(ws: seq<real>): real {
    if ws == [] then 0.0 else Mean(ws[..|ws| - 1]) + Weighted(|ws| - 1, ws[|ws| - 1])
  }

  predicate Proportions(ws: seq<real>) {
    forall i :: 0 <= i < |ws| ==> 0.0 <= ws[i] <= 1.0
  }

  predicate TrueDistribution(ws: seq<real>) {
    Proportions(ws) && Total(ws) == 1.0
  }

  function RoundedAll(ws: seq<real>, decimals: Option<nat>): seq<F64> {
    seq(|ws|, i requires 0 <= i < |ws| => Finite(Rounded(ws[i], decimals)))
  }

  lemma RoundedProbabilities(ws: seq<real>, decimals: Option<nat>)
    requires Proportions(ws)
    ensures AllProbabilities(RoundedAll(ws, decimals))
  {
    forall i | 0 <= i < |ws|
      ensures IsProbability(RoundedAll(ws, decimals)[i])
    {
      RoundedStaysWithin(ws[i], 1, decimals);
    }
  }

  lemma DropLast(ws: seq<real>, decimals: Option<nat>)
    requires ws != []
    ensures RoundedAll(ws, decimals)[..|ws| - 1] == RoundedAll(ws[..|ws| - 1], decimals)
  {}

  lemma OneMore(n: nat, error: real)
    ensures Weighted(n + 1, error) == Weighted(n, error) + error
  {}

  lemma {:induction false} SumDrift(ws: seq<real>, decimals: Option<nat>)
    requires Proportions(ws) && AllProbabilities(RoundedAll(ws, decimals))
    ensures Abs(Sum(RoundedAll(ws, decimals)) - Total(ws)) <= Weighted(|ws|, UnitError(decimals))
  {
    hide Rounded, UnitError;
    if ws != [] {
      hide Weighted;
      var last := |ws| - 1;
      DropLast(ws, decimals);
      RoundedProbabilities(ws[..last], decimals);
      SumDrift(ws[..last], decimals);
      RoundedIsNear(ws[last], decimals);
      OneMore(last, UnitError(decimals));
    }
  }

  lemma WeightedGap(k: nat, x: real, y: real, error: real)
    requires -error <= x - y <= error
    ensures -Weighted(k, error) <= Weighted(k, x) - Weighted(k, y) <= Weighted(k, error)
  {}

  lemma {:induction false} MeanDrift(ws: seq<real>, decimals: Option<nat>)
    requires Proportions(ws) && AllProbabilities(RoundedAll(ws, decimals))
    ensures Abs(WeightedSum(RoundedAll(ws, decimals)) - Mean(ws)) <= WeightedError(|ws|, UnitError(decimals))
  {
    hide Rounded, UnitError, Weighted;
    if ws != [] {
      var last := |ws| - 1;
      DropLast(ws, decimals);
      RoundedProbabilities(ws[..last], decimals);
      MeanDrift(ws[..last], decimals);
      RoundedIsNear(ws[last], decimals);
      WeightedGap(last, Rounded(ws[last], decimals), ws[last], UnitError(decimals));
    }
  }

  lemma ProductIsNonNegative(x: real, y: real)
    requires x >= 0.0 && y >= 0.0
    ensures x * y >= 0.0
  {}

  lemma {:induction false} MeanIsOnTheScale(ws: seq<real>, top: nat)
    requires Proportions(ws) && |ws| <= top + 1
    ensures 0.0 <= Mean(ws) <= top as real * Total(ws)
  {
    if ws != [] {
      var last := |ws| - 1;
      var k, w, t := last as real, ws[last], Total(ws[..last]);
      MeanIsOnTheScale(ws[..last], top);
      ProductIsNonNegative(k, w);
      ProductIsNonNegative(top as real - k, w);
      assert (top as real - k) * w == top as real * w - k * w;
      assert top as real * (t + w) == top as real * t + top as real * w;
    }
  }

  // ---------------------------------------------------------------------------------------------
  // Honest answers
  // ---------------------------------------------------------------------------------------------

  /** What a provider knows about one question, and whether it reports the distribution. */
  datatype Truth =
    | KnownChoice(weights: seq<real>, best: nat, reported: bool)
    | KnownScore(weights: seq<real>, reported: bool)
    | KnownProbability(p: real)

  /** `best` may be any of the most probable options. */
  predicate Fits(question: Question, truth: Truth) {
    match question
    case Choice(options) =>
      && truth.KnownChoice? && |truth.weights| == |options| && TrueDistribution(truth.weights)
      && truth.best < |options|
      && forall i :: 0 <= i < |options| ==> truth.weights[i] <= truth.weights[truth.best]
    case Score(levels) =>
      truth.KnownScore? && |truth.weights| == levels && TrueDistribution(truth.weights)
    case Boolean =>
      truth.KnownProbability? && 0.0 <= truth.p <= 1.0
  }

  function Paired(options: seq<string>, ps: seq<F64>): seq<(string, F64)>
    requires |options| == |ps|
  {
    seq(|options|, i requires 0 <= i < |options| => (options[i], ps[i]))
  }

  function HonestAnswer(question: Question, truth: Truth, rounding: Rounding): Answer
    requires Fits(question, truth)
  {
    var places := rounding.probabilityDecimals;
    match question
    case Choice(options) =>
      ChoiceAnswer(options[truth.best],
                   if truth.reported then Some(Paired(options, RoundedAll(truth.weights, places))) else None)
    case Score(levels) =>
      ScoreAnswer(Finite(Rounded(Mean(truth.weights), rounding.scoreDecimals)),
                  if truth.reported then Some(RoundedAll(truth.weights, places)) else None)
    case Boolean =>
      BooleanAnswer(Finite(Rounded(truth.p, places)))
  }

  lemma RoundedDistributionIsNear(ws: seq<real>, decimals: Option<nat>)
    requires TrueDistribution(ws)
    ensures NearlyADistribution(RoundedAll(ws, decimals), |ws|, UnitError(decimals))
  {
    hide RoundedAll, UnitError, AllProbabilities, Sum, Total, Proportions;
    assert |RoundedAll(ws, decimals)| == |ws| by { LengthKept(ws, decimals); }
    RoundedProbabilities(ws, decimals);
    SumDrift(ws, decimals);
    assert Weighted(|ws|, UnitError(decimals)) == |ws| as real * UnitError(decimals);
  }

  lemma LengthKept(ws: seq<real>, decimals: Option<nat>)
    ensures |RoundedAll(ws, decimals)| == |ws|
  {}

  lemma HonestChoiceIsAcceptable(question: Question, truth: Truth, rounding: Rounding, scoreError: real)
    requires question.Choice? && ValidQuestion(question) && Fits(question, truth)
    ensures WellFormed(HonestAnswer(question, truth, rounding))
    ensures Acceptable(question, HonestAnswer(question, truth, rounding), UnitError(rounding.probabilityDecimals), scoreError)
  {
    hide NearlyADistribution, Rounded, TrueDistribution;
    var options, places := question.options, rounding.probabilityDecimals;
    if truth.reported {
      var ps := RoundedAll(truth.weights, places);
      var pairs := Paired(options, ps);
      assert Values(pairs) == ps;
      RoundedDistributionIsNear(truth.weights, places);
      assert Keys(pairs) == NameSet(options) by {
        assert forall i :: 0 <= i < |pairs| ==> pairs[i].0 == options[i];
        forall name | name in options
          ensures name in Keys(pairs)
        {
          var i :| 0 <= i < |options| && options[i] == name;
          assert pairs[i].0 == name;
        }
      }
      forall i | 0 <= i < |ps|
        ensures ps[i].value <= ps[truth.best].value
      {
        RoundedIsMonotone(truth.weights[i], truth.weights[truth.best], places);
      }
      assert NoneAbove(Values(pairs), pairs[truth.best].1.value);
    }
  }

  lemma HonestScoreIsAcceptable(question: Question, truth: Truth, rounding: Rounding)
    requires question.Score? && ValidQuestion(question) && Fits(question, truth)
    ensures Acceptable(question, HonestAnswer(question, truth, rounding),
                       UnitError(rounding.probabilityDecimals), UnitError(rounding.scoreDecimals))
  {
    hide Rounded, UnitError, Mean, Total, RoundedAll, Sum, WeightedSum, WeightedError, NearlyADistribution;
    var ws, places := truth.weights, rounding.probabilityDecimals;
    MeanIsOnTheScale(ws, |ws| - 1);
    assert (|ws| - 1) as real * Total(ws) == (|ws| - 1) as real;
    RoundedStaysWithin(Mean(ws), |ws| - 1, rounding.scoreDecimals);
    if truth.reported {
      RoundedDistributionIsNear(ws, places);
      RoundedProbabilities(ws, places);
      MeanDrift(ws, places);
      RoundedIsNear(Mean(ws), rounding.scoreDecimals);
    }
  }

  lemma HonestAnswerIsAcceptable(question: Question, truth: Truth, rounding: Rounding)
    requires ValidQuestion(question) && Fits(question, truth)
    ensures WellFormed(HonestAnswer(question, truth, rounding))
    ensures Acceptable(question, HonestAnswer(question, truth, rounding),
                       UnitError(rounding.probabilityDecimals), UnitError(rounding.scoreDecimals))
  {
    match question
    case Choice(_) => HonestChoiceIsAcceptable(question, truth, rounding, UnitError(rounding.scoreDecimals));
    case Score(_) => HonestScoreIsAcceptable(question, truth, rounding);
    case Boolean => RoundedStaysWithin(truth.p, 1, rounding.probabilityDecimals);
  }

  predicate AllowedPlaces(decimals: Option<nat>) {
    decimals.None? || decimals.value <= MAX_DECIMALS
  }

  /** Every question answered honestly, and nothing else answered. */
  ghost predicate Honest(e: Evaluation, truths: seq<Truth>, rounding: Rounding, answers: map<string, Answer>)
    requires |truths| == |e.questions|
    requires forall i :: 0 <= i < |truths| ==> Fits(e.questions[i].question, truths[i])
  {
    && (forall id :: id in answers <==> Asks(e, id))
    && forall i :: 0 <= i < |truths| ==>
         && e.questions[i].id in answers
         && answers[e.questions[i].id] == HonestAnswer(e.questions[i].question, truths[i], rounding)
  }

  /**
   * An honest verdict is accepted for every evaluation, every true distribution and every choice among
   * equally probable options, exactly when the declared places do not exceed the fifteen allowed.
   */
  lemma HonestVerdictsAreAccepted(e: Evaluation, truths: seq<Truth>, v: Verdict)
    requires ValidEvaluation(e) && |truths| == |e.questions|
    requires forall i :: 0 <= i < |truths| ==> Fits(e.questions[i].question, truths[i])
    requires Honest(e, truths, DeclaredRounding(v), v.answers)
    ensures ValidateVerdict(e, v).Ok? <==>
      AllowedPlaces(DeclaredRounding(v).probabilityDecimals) && AllowedPlaces(DeclaredRounding(v).scoreDecimals)
  {
    hide Fits, HonestAnswer, Acceptable, WellFormed, ValidateVerdict, UnitError, ValidQuestion;
    var rounding := DeclaredRounding(v);
    forall i | 0 <= i < |truths|
      ensures WellFormed(v.answers[e.questions[i].id])
      ensures Acceptable(e.questions[i].question, v.answers[e.questions[i].id],
                         UnitError(rounding.probabilityDecimals), UnitError(rounding.scoreDecimals))
    {
      HonestAnswerIsAcceptable(e.questions[i].question, truths[i], rounding);
    }
    forall id | id in v.answers
      ensures WellFormed(v.answers[id])
    {
      var i :| 0 <= i < |e.questions| && e.questions[i].id == id;
    }
    RoundingErrorIs(rounding.probabilityDecimals);
    RoundingErrorIs(rounding.scoreDecimals);
    AcceptanceIsExact(e, v);
  }

  lemma RoundingErrorIs(decimals: Option<nat>)
    ensures RoundingError(decimals).Ok? <==> AllowedPlaces(decimals)
    ensures RoundingError(decimals).Ok? ==> RoundingError(decimals).value == UnitError(decimals)
  {}

  /** Why the places must be declared: three equal thirds at two places are refused without them, and accepted with. */
  lemma UndeclaredRoundingIsRefused(id: string, options: seq<string>, rounding: Rounding)
    requires ValidQuestion(Choice(options)) && |options| == 3
    requires rounding == Rounding(Some(2), None)
    ensures
      var third := Finite(0.33);
      var distribution := Paired(options, [third, third, third]);
      && CheckChoice(id, options, options[0], Some(distribution), UnitError(None)) == Err(BadSum(id))
      && CheckChoice(id, options, options[0], Some(distribution), UnitError(Some(2))).Ok?
  {
    var third := Finite(0.33);
    var ps := [third, third, third];
    var pairs := Paired(options, ps);
    assert Values(pairs) == ps;
    var one, two := [third], [third, third];
    assert one[..0] == [] && two[..1] == one && ps[..2] == two;
    assert Sum(one) == 0.33 && Sum(two) == 0.66 && Sum(ps) == 0.99;
    assert Pow10(2) == 100.0;
    assert Keys(pairs) == NameSet(options) by {
      assert pairs[0].0 == options[0] && pairs[1].0 == options[1] && pairs[2].0 == options[2];
    }
    assert Lookup(pairs, options[0]) == Some(third);
  }
}
