/** The checks every verdict passes before it is returned. */
module Validation {
  import opened Wrappers
  import opened JsonValues
  import opened Evaluations
  import opened Sorting

  const TOLERANCE: real := 0.000001
  const MAX_DECIMALS: nat := 15

  datatype VerdictError =
    | RoundingTooFine(decimals: nat)
    | Unanswered(id: string)
    | Unasked(id: string)
    | WrongKind(id: string)
    | UnknownOption(id: string, choice: string)
    | BadDistribution(id: string)
    | BadSum(id: string)
    | NotMostProbable(id: string)
    | ScoreOutOfRange(id: string)
    | MeanDisagrees(id: string)
    | BadProbability(id: string)

  type Check = Result<(), VerdictError>

  function Pow10(n: nat): (p: real)
    ensures p >= 1.0
  {
    if n == 0 then 1.0 else 10.0 * Pow10(n - 1)
  }

  /** Half a unit in the last declared place. */
  function RoundingError(decimals: Option<nat>): Result<real, VerdictError> {
    match decimals
    case None => Ok(0.0)
    case Some(d) => if d > MAX_DECIMALS then Err(RoundingTooFine(d)) else Ok(0.5 / Pow10(d))
  }

  function Abs(x: real): real {
    if x < 0.0 then -x else x
  }

  predicate AllProbabilities(ps: seq<F64>) {
    forall i :: 0 <= i < |ps| ==> IsProbability(ps[i])
  }

  function Sum(ps: seq<F64>): real
    requires AllProbabilities(ps)
  {
    if ps == [] then 0.0 else Sum(ps[..|ps| - 1]) + ps[|ps| - 1].value
  }

  function Weighted(index: nat, x: real): real {
    index as real * x
  }

  /** The sum of each value times its index. */
  function WeightedSum(ps: seq<F64>): real
    requires AllProbabilities(ps)
  {
    if ps == [] then 0.0 else WeightedSum(ps[..|ps| - 1]) + Weighted(|ps| - 1, ps[|ps| - 1].value)
  }

  /** The sum of `error` times each index below `n`. */
  function WeightedError(n: nat, error: real): real {
    if n == 0 then 0.0 else WeightedError(n - 1, error) + Weighted(n - 1, error)
  }

  function Keys(distribution: seq<(string, F64)>): set<string> {
    set i | 0 <= i < |distribution| :: distribution[i].0
  }

  function Values(distribution: seq<(string, F64)>): seq<F64> {
    seq(|distribution|, i requires 0 <= i < |distribution| => distribution[i].1)
  }

  function Lookup(distribution: seq<(string, F64)>, key: string): Option<F64> {
    if distribution == [] then None
    else if distribution[0].0 == key then Some(distribution[0].1)
    else Lookup(distribution[1..], key)
  }

  function ValidateDistribution(id: string, complete: bool, ps: seq<F64>, error: real): Check {
    if !complete || !AllProbabilities(ps) then Err(BadDistribution(id))
    else if Abs(Sum(ps) - 1.0) > TOLERANCE + |ps| as real * error then Err(BadSum(id))
    else Ok(())
  }

  predicate NoneAbove(ps: seq<F64>, selected: real) {
    forall i :: 0 <= i < |ps| ==> ps[i].Finite? ==> ps[i].value <= selected + TOLERANCE
  }

  lemma {:induction false} LookupFinds(distribution: seq<(string, F64)>, key: string)
    ensures Lookup(distribution, key).Some? <==> key in Keys(distribution)
    ensures Lookup(distribution, key).Some? ==>
      exists i :: 0 <= i < |distribution| && distribution[i] == (key, Lookup(distribution, key).value)
  {
    if distribution != [] {
      var rest := distribution[1..];
      LookupFinds(rest, key);
      forall i | 0 <= i < |rest|
        ensures rest[i] == distribution[i + 1]
      {}
      assert forall i :: 1 <= i < |distribution| ==> distribution[i] == rest[i - 1];
      if distribution[0].0 == key {
        assert distribution[0] == (key, Lookup(distribution, key).value);
      } else if Lookup(rest, key).Some? {
        var i :| 0 <= i < |rest| && rest[i] == (key, Lookup(rest, key).value);
        assert distribution[i + 1] == (key, Lookup(distribution, key).value);
      }
    }
  }

  function CheckChoice(id: string, options: seq<string>, choice: string,
                       distribution: Option<seq<(string, F64)>>, error: real): Check
  {
    if choice !in options then Err(UnknownOption(id, choice))
    else if distribution.None? then Ok(())
    else
      var pairs := distribution.value;
      var ps := Values(pairs);
      match ValidateDistribution(id, NameSet(options) == Keys(pairs), ps, error)
      case Err(e) => Err(e)
      case Ok(_) =>
        match Lookup(pairs, choice)
        case Some(Finite(selected)) => if NoneAbove(ps, selected) then Ok(()) else Err(NotMostProbable(id))
        case _ => Err(NotMostProbable(id))
  }

  function CheckScore(id: string, levels: nat, score: F64, weights: Option<seq<F64>>,
                      probabilityError: real, scoreError: real): Check
    requires levels > 0
  {
    if !Within(score, 0.0, (levels - 1) as real) then Err(ScoreOutOfRange(id))
    else if weights.None? then Ok(())
    else
      var ps := weights.value;
      match ValidateDistribution(id, |ps| == levels, ps, probabilityError)
      case Err(e) => Err(e)
      case Ok(_) =>
        if Abs(WeightedSum(ps) - score.value) > TOLERANCE + WeightedError(levels, probabilityError) + scoreError
        then Err(MeanDisagrees(id))
        else Ok(())
  }

  function CheckAnswer(id: string, question: Question, answer: Answer, probabilityError: real, scoreError: real): Check
    requires ValidQuestion(question)
  {
    if !SameKind(question, answer) then Err(WrongKind(id))
    else
      match question
      case Choice(options) => CheckChoice(id, options, answer.choice, answer.distribution, probabilityError)
      case Score(levels) => CheckScore(id, levels, answer.score, answer.weights, probabilityError, scoreError)
      case Boolean => if IsProbability(answer.probability) then Ok(()) else Err(BadProbability(id))
  }

  /** The first question, in id order, without an answer. */
  function FirstUnanswered(questions: seq<Asked>, answers: map<string, Answer>): Option<string> {
    if questions == [] then None
    else if questions[0].id !in answers then Some(questions[0].id)
    else FirstUnanswered(questions[1..], answers)
  }

  function CheckAll(questions: seq<Asked>, answers: map<string, Answer>, probabilityError: real, scoreError: real): Check
    requires forall i :: 0 <= i < |questions| ==> ValidQuestion(questions[i].question) && questions[i].id in answers
  {
    if questions == [] then Ok(())
    else
      var asked := questions[0];
      match CheckAnswer(asked.id, asked.question, answers[asked.id], probabilityError, scoreError)
      case Err(e) => Err(e)
      case Ok(_) => CheckAll(questions[1..], answers, probabilityError, scoreError)
  }

  lemma {:induction false} NothingUnanswered(questions: seq<Asked>, answers: map<string, Answer>)
    ensures FirstUnanswered(questions, answers).None? <==>
      forall i :: 0 <= i < |questions| ==> questions[i].id in answers
    ensures FirstUnanswered(questions, answers).Some? ==> FirstUnanswered(questions, answers).value !in answers
  {
    if questions != [] {
      NothingUnanswered(questions[1..], answers);
      assert questions == [questions[0]] + questions[1..];
    }
  }

  function DeclaredRounding(v: Verdict): Rounding {
    v.rounding.GetOr(Rounding(None, None))
  }

  /** The first answer, in id order, to no question. */
  ghost predicate IsFirstUnasked(e: Evaluation, answers: map<string, Answer>, id: string) {
    id in answers && !Asks(e, id)
    && forall other <- answers :: !Asks(e, other) ==> other == id || Less(id, other)
  }

  lemma {:induction false} LeastExists(names: set<string>) returns (least: string)
    requires names != {}
    ensures least in names && forall other <- names :: other == least || Less(least, other)
    decreases |names|
  {
    least :| least in names;
    var rest := names - {least};
    if rest != {} {
      var next := LeastExists(rest);
      LessIsTotal(least, next);
      if Less(next, least) {
        least := next;
      } else {
        forall other | other in rest
          ensures Less(least, other)
        {
          if other != next {
            LessIsTransitive(least, next, other);
          }
        }
      }
    }
  }

  lemma FirstUnaskedExists(e: Evaluation, answers: map<string, Answer>)
    requires exists id :: id in answers && !Asks(e, id)
    ensures exists id :: IsFirstUnasked(e, answers, id)
  {
    var unasked := set id | id in answers && !Asks(e, id);
    var some :| some in answers && !Asks(e, some);
    assert some in unasked;
    var least := LeastExists(unasked);
    assert IsFirstUnasked(e, answers, least);
  }

  ghost function ValidateVerdict(e: Evaluation, v: Verdict): Check
    requires ValidEvaluation(e)
  {
    var probabilityError, scoreError :=
      RoundingError(DeclaredRounding(v).probabilityDecimals), RoundingError(DeclaredRounding(v).scoreDecimals);
    if probabilityError.Err? then Err(probabilityError.error)
    else if scoreError.Err? then Err(scoreError.error)
    else
      match FirstUnanswered(e.questions, v.answers)
      case Some(id) => Err(Unanswered(id))
      case None =>
        NothingUnanswered(e.questions, v.answers);
        if exists id :: id in v.answers && !Asks(e, id) then
          FirstUnaskedExists(e, v.answers);
          var first :| IsFirstUnasked(e, v.answers, first);
          Err(Unasked(first))
        else CheckAll(e.questions, v.answers, probabilityError.value, scoreError.value)
  }

  // ---------------------------------------------------------------------------------------------
  // What acceptance means
  // ---------------------------------------------------------------------------------------------

  /** A distribution over `n` outcomes: probabilities whose sum is one up to the rounding of each. */
  predicate NearlyADistribution(ps: seq<F64>, n: nat, error: real) {
    |ps| == n && AllProbabilities(ps) && Abs(Sum(ps) - 1.0) <= TOLERANCE + n as real * error
  }

  function KeyOf(pair: (string, F64)): string {
    pair.0
  }

  /** No outcome is more probable than the chosen one, up to the tolerance. */
  ghost predicate MostProbable(pairs: seq<(string, F64)>, choice: string) {
    exists k :: 0 <= k < |pairs| && pairs[k].0 == choice && pairs[k].1.Finite?
                && NoneAbove(Values(pairs), pairs[k].1.value)
  }

  /** An answer a caller may rely on. */
  ghost predicate Acceptable(question: Question, answer: Answer, probabilityError: real, scoreError: real)
    requires ValidQuestion(question)
  {
    match question
    case Choice(options) =>
      && answer.ChoiceAnswer?
      && answer.choice in options
      && (answer.distribution.Some? ==>
            var pairs := answer.distribution.value;
            && Keys(pairs) == NameSet(options)
            && NearlyADistribution(Values(pairs), |pairs|, probabilityError)
            && MostProbable(pairs, answer.choice))
    case Score(levels) =>
      && answer.ScoreAnswer?
      && Within(answer.score, 0.0, (levels - 1) as real)
      && (answer.weights.Some? ==>
            && NearlyADistribution(answer.weights.value, levels, probabilityError)
            && Abs(WeightedSum(answer.weights.value) - answer.score.value)
               <= TOLERANCE + WeightedError(levels, probabilityError) + scoreError)
    case Boolean =>
      answer.BooleanAnswer? && IsProbability(answer.probability)
  }

  lemma LookupAtKey(pairs: seq<(string, F64)>, k: nat)
    requires DistinctKeys(pairs, KeyOf) && k < |pairs|
    ensures Lookup(pairs, pairs[k].0) == Some(pairs[k].1)
  {
    LookupFinds(pairs, pairs[k].0);
    var i :| 0 <= i < |pairs| && pairs[i] == (pairs[k].0, Lookup(pairs, pairs[k].0).value);
  }

  lemma LookupDecidesTheMode(pairs: seq<(string, F64)>, choice: string)
    requires DistinctKeys(pairs, KeyOf) && AllProbabilities(Values(pairs)) && choice in Keys(pairs)
    ensures Lookup(pairs, choice).Some? && Lookup(pairs, choice).value.Finite?
    ensures NoneAbove(Values(pairs), Lookup(pairs, choice).value.value) <==> MostProbable(pairs, choice)
  {
    hide NoneAbove;
    var k :| 0 <= k < |pairs| && pairs[k].0 == choice;
    LookupAtKey(pairs, k);
    assert IsProbability(Values(pairs)[k]);
  }

  lemma ChoiceIsAcceptable(id: string, options: seq<string>, answer: Answer, error: real)
    requires ValidQuestion(Choice(options)) && answer.ChoiceAnswer?
    requires answer.distribution.Some? ==> DistinctKeys(answer.distribution.value, KeyOf)
    ensures CheckChoice(id, options, answer.choice, answer.distribution, error).Ok? <==>
            Acceptable(Choice(options), answer, error, 0.0)
  {
    hide NoneAbove, MostProbable, Lookup, AllProbabilities, Sum, DistinctKeys;
    if answer.distribution.Some? && answer.choice in options {
      var pairs := answer.distribution.value;
      if Keys(pairs) == NameSet(options) && AllProbabilities(Values(pairs)) {
        assert answer.choice in NameSet(options);
        LookupDecidesTheMode(pairs, answer.choice);
      }
    }
  }

  /** The maps inside a verdict have no repeated keys. */
  ghost predicate WellFormed(a: Answer) {
    a.ChoiceAnswer? && a.distribution.Some? ==> DistinctKeys(a.distribution.value, KeyOf)
  }

  lemma AnswerIsAcceptable(id: string, question: Question, answer: Answer, probabilityError: real, scoreError: real)
    requires ValidQuestion(question) && WellFormed(answer)
    ensures CheckAnswer(id, question, answer, probabilityError, scoreError).Ok? <==>
            Acceptable(question, answer, probabilityError, scoreError)
  {
    if question.Choice? && answer.ChoiceAnswer? {
      ChoiceIsAcceptable(id, question.options, answer, probabilityError);
    }
  }

  lemma {:induction false} CheckAllIs(questions: seq<Asked>, answers: map<string, Answer>, probabilityError: real, scoreError: real)
    requires forall i :: 0 <= i < |questions| ==> ValidQuestion(questions[i].question) && questions[i].id in answers
    requires forall id <- answers :: WellFormed(answers[id])
    ensures CheckAll(questions, answers, probabilityError, scoreError).Ok? <==>
      forall i :: 0 <= i < |questions| ==>
        Acceptable(questions[i].question, answers[questions[i].id], probabilityError, scoreError)
  {
    hide Acceptable, CheckAnswer, ValidQuestion;
    if questions != [] {
      var asked := questions[0];
      AnswerIsAcceptable(asked.id, asked.question, answers[asked.id], probabilityError, scoreError);
      CheckAllIs(questions[1..], answers, probabilityError, scoreError);
      assert questions == [asked] + questions[1..];
    }
  }

  /**
   * A verdict is accepted exactly when its declared rounding is at most fifteen places, it answers the
   * questions asked and no others, and every answer is acceptable at that rounding.
   */
  lemma AcceptanceIsExact(e: Evaluation, v: Verdict)
    requires ValidEvaluation(e) && forall id <- v.answers :: WellFormed(v.answers[id])
    ensures
      var p, s := RoundingError(DeclaredRounding(v).probabilityDecimals), RoundingError(DeclaredRounding(v).scoreDecimals);
      ValidateVerdict(e, v).Ok? <==>
        && p.Ok? && s.Ok?
        && (forall id :: id in v.answers <==> Asks(e, id))
        && forall i :: 0 <= i < |e.questions| ==>
             && e.questions[i].id in v.answers
             && Acceptable(e.questions[i].question, v.answers[e.questions[i].id], p.value, s.value)
  {
    hide Acceptable, ValidQuestion;
    var p, s := RoundingError(DeclaredRounding(v).probabilityDecimals), RoundingError(DeclaredRounding(v).scoreDecimals);
    NothingUnanswered(e.questions, v.answers);
    if p.Ok? && s.Ok? && FirstUnanswered(e.questions, v.answers).None? {
      CheckAllIs(e.questions, v.answers, p.value, s.value);
      assert forall id :: Asks(e, id) ==> id in v.answers;
    } else {
      assert forall i :: 0 <= i < |e.questions| ==> Asks(e, e.questions[i].id);
    }
  }

  // ---------------------------------------------------------------------------------------------
  // What a refusal says
  // ---------------------------------------------------------------------------------------------

  /** The question an answer's refusal names. */
  function Offender(e: VerdictError): Option<string> {
    match e
    case RoundingTooFine(_) => None
    case _ => Some(e.id)
  }

  lemma {:induction false} FirstOffenderIsNamed(questions: seq<Asked>, answers: map<string, Answer>, p: real, s: real)
    requires forall i :: 0 <= i < |questions| ==> ValidQuestion(questions[i].question) && questions[i].id in answers
    requires forall id <- answers :: WellFormed(answers[id])
    requires CheckAll(questions, answers, p, s).Err?
    ensures exists k :: 0 <= k < |questions|
                        && Offender(CheckAll(questions, answers, p, s).error) == Some(questions[k].id)
                        && !Acceptable(questions[k].question, answers[questions[k].id], p, s)
                        && forall i :: 0 <= i < k ==> Acceptable(questions[i].question, answers[questions[i].id], p, s)
  {
    var asked, rest := questions[0], questions[1..];
    AnswerIsAcceptable(asked.id, asked.question, answers[asked.id], p, s);
    hide Acceptable, CheckAnswer, ValidQuestion, Offender;
    if CheckAnswer(asked.id, asked.question, answers[asked.id], p, s).Ok? {
      FirstOffenderIsNamed(rest, answers, p, s);
      var k :| 0 <= k < |rest| && Offender(CheckAll(rest, answers, p, s).error) == Some(rest[k].id)
               && !Acceptable(rest[k].question, answers[rest[k].id], p, s)
               && forall i :: 0 <= i < k ==> Acceptable(rest[i].question, answers[rest[i].id], p, s);
      assert forall i :: 1 <= i < |questions| ==> questions[i] == rest[i - 1];
      assert questions[k + 1] == rest[k];
    } else {
      CheckNamesItsQuestion(asked.id, asked.question, answers[asked.id], p, s);
      assert questions[0] == asked;
    }
  }

  lemma CheckNamesItsQuestion(id: string, question: Question, answer: Answer, p: real, s: real)
    requires ValidQuestion(question) && CheckAnswer(id, question, answer, p, s).Err?
    ensures Offender(CheckAnswer(id, question, answer, p, s).error) == Some(id)
  {}

  /**
   * A refusal comes in the documented order: rounding finer than fifteen places before any answer is
   * read, then the first missing answer, then the first one nobody asked for, then the first unacceptable answer, each
   * by its id.
   */
  lemma RefusalsAreOrdered(e: Evaluation, v: Verdict)
    requires ValidEvaluation(e) && forall id <- v.answers :: WellFormed(v.answers[id])
    ensures
      var places := DeclaredRounding(v);
      var p, s := RoundingError(places.probabilityDecimals), RoundingError(places.scoreDecimals);
      var r := ValidateVerdict(e, v);
      if p.Err? || s.Err? then r.Err? && r.error.RoundingTooFine? && r.error.decimals > MAX_DECIMALS
      else if exists i :: 0 <= i < |e.questions| && e.questions[i].id !in v.answers then
        && r.Err? && r.error.Unanswered?
        && exists i :: 0 <= i < |e.questions| && e.questions[i].id == r.error.id && r.error.id !in v.answers
                       && forall j :: 0 <= j < i ==> e.questions[j].id in v.answers
      else if exists id :: id in v.answers && !Asks(e, id) then
        r.Err? && r.error.Unasked? && IsFirstUnasked(e, v.answers, r.error.id)
      else
        r.Err? ==>
          exists k :: 0 <= k < |e.questions| && Offender(r.error) == Some(e.questions[k].id)
                      && !Acceptable(e.questions[k].question, v.answers[e.questions[k].id], p.value, s.value)
                      && forall i :: 0 <= i < k ==>
                           Acceptable(e.questions[i].question, v.answers[e.questions[i].id], p.value, s.value)
  {
    hide Acceptable, ValidQuestion, CheckAll;
    var places := DeclaredRounding(v);
    var p, s := RoundingError(places.probabilityDecimals), RoundingError(places.scoreDecimals);
    NothingUnanswered(e.questions, v.answers);
    if p.Ok? && s.Ok? {
      if FirstUnanswered(e.questions, v.answers).Some? {
        UnansweredIsAsked(e.questions, v.answers);
      } else if CheckAll(e.questions, v.answers, p.value, s.value).Err? {
        FirstOffenderIsNamed(e.questions, v.answers, p.value, s.value);
      }
    }
  }

  lemma {:induction false} UnansweredIsAsked(questions: seq<Asked>, answers: map<string, Answer>)
    requires FirstUnanswered(questions, answers).Some?
    ensures exists i :: 0 <= i < |questions| && questions[i].id == FirstUnanswered(questions, answers).value
                        && forall j :: 0 <= j < i ==> questions[j].id in answers
  {
    if questions[0].id in answers {
      var rest := questions[1..];
      UnansweredIsAsked(rest, answers);
      var i :| 0 <= i < |rest| && rest[i].id == FirstUnanswered(rest, answers).value
               && forall j :: 0 <= j < i ==> rest[j].id in answers;
      assert forall j :: 1 <= j < |questions| ==> questions[j] == rest[j - 1];
      assert questions[i + 1] == rest[i];
    } else {
      assert questions[0].id == FirstUnanswered(questions, answers).value;
    }
  }
}
