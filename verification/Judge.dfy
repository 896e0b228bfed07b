/** Evaluation through a generation model: the schema it is given and the object it sends back. */
module Judge {
  import opened Wrappers
  import opened Sequences
  import opened JsonValues
  import opened Evaluations
  import opened Validation
  import StreamTypes

  type FinishReason = StreamTypes.FinishReason

  datatype JudgeError =
    | NotFinished(reason: FinishReason)
    | NotOneValuePerQuestion
    | UnknownCode(id: string)
    | ScoreOutsideRubric(id: string)
    | NotAProbability(id: string)

  datatype Property = CodeOf(codes: seq<string>) | AnyNumber

  /** An object schema that allows no other properties. */
  datatype Schema = Schema(properties: map<string, Property>, required: seq<string>)

  function QuestionKey(index: nat): string {
    "q" + Decimal(index)
  }

  function OptionCode(index: nat): string {
    "c" + Decimal(index)
  }

  function OptionCodes(options: seq<string>): seq<string> {
    seq(|options|, i requires 0 <= i < |options| => OptionCode(i))
  }

  function QuestionKeys(n: nat): seq<string> {
    seq(n, i requires 0 <= i < n => QuestionKey(i))
  }

  lemma QuestionKeysAreDistinct(n: nat)
    ensures Distinct(QuestionKeys(n))
  {
    forall i, j | 0 <= i < j < n
      ensures QuestionKeys(n)[i] != QuestionKeys(n)[j]
    {
      QuestionKeyIsInjective(i, j);
    }
  }

  // ---------------------------------------------------------------------------------------------
  // What the model is shown
  // ---------------------------------------------------------------------------------------------

  function PropertyFor(question: Question): Property {
    match question
    case Choice(options) => CodeOf(OptionCodes(options))
    case Score(_) => AnyNumber
    case Boolean => AnyNumber
  }

  /** The label each option code stands for in the rubric the model reads. */
  function RubricLabels(options: seq<string>): seq<(string, string)> {
    seq(|options|, i requires 0 <= i < |options| => (OptionCode(i), options[i]))
  }

  /** One required property per question under its own key. */
  ghost predicate Describes(schema: Schema, questions: seq<Asked>) {
    && schema.required == QuestionKeys(|questions|)
    && schema.properties.Keys == NameSet(schema.required)
    && forall i :: 0 <= i < |questions| ==>
         && QuestionKey(i) in schema.properties
         && schema.properties[QuestionKey(i)] == PropertyFor(questions[i].question)
  }

  lemma DescribeOneMore(schema: Schema, questions: seq<Asked>, asked: Asked)
    requires Describes(schema, questions)
    ensures
      var key := QuestionKey(|questions|);
      Describes(Schema(schema.properties[key := PropertyFor(asked.question)], schema.required + [key]), questions + [asked])
  {
    hide QuestionKey, PropertyFor;
    var n := |questions|;
    var key := QuestionKey(n);
    forall k | 0 <= k < n
      ensures QuestionKey(k) != key
    {
      QuestionKeyIsInjective(k, n);
    }
    assert QuestionKeys(n + 1) == QuestionKeys(n) + [key];
    assert NameSet(schema.required + [key]) == NameSet(schema.required) + {key};
  }

  lemma DescribeNothing()
    ensures Describes(Schema(map[], []), [])
  {}

  lemma QuestionKeyIsInjective(i: nat, j: nat)
    ensures QuestionKey(i) == QuestionKey(j) <==> i == j
  {
    CodeIsInjective("q", i, j);
  }

  /** A choice is one of the codes "c0", "c1", and so on, one for each option; anything else is a number. */
  predicate IsPropertyOf(property: Property, question: Question) {
    if question.Choice? then
      property == CodeOf(seq(|question.options|, k requires 0 <= k < |question.options| => "c" + Decimal(k)))
    else property == AnyNumber
  }

  lemma SchemaWrittenOut(questions: seq<Asked>)
    ensures forall schema :: Describes(schema, questions) ==>
      && schema.required == seq(|questions|, i requires 0 <= i < |questions| => "q" + Decimal(i))
      && schema.properties.Keys == (set key | key in schema.required)
      && forall i :: 0 <= i < |questions| ==>
           && "q" + Decimal(i) in schema.properties
           && IsPropertyOf(schema.properties["q" + Decimal(i)], questions[i].question)
  {
    forall schema | Describes(schema, questions)
      ensures
        && schema.required == seq(|questions|, i requires 0 <= i < |questions| => "q" + Decimal(i))
        && schema.properties.Keys == (set key | key in schema.required)
        && forall i :: 0 <= i < |questions| ==>
             && "q" + Decimal(i) in schema.properties
             && IsPropertyOf(schema.properties["q" + Decimal(i)], questions[i].question)
    {
      forall i | 0 <= i < |questions|
        ensures QuestionKey(i) == "q" + Decimal(i) && IsPropertyOf(PropertyFor(questions[i].question), questions[i].question)
      {
        PropertyIs(questions[i].question);
      }
      hide PropertyFor, IsPropertyOf;
    }
  }

  lemma PropertyIs(question: Question)
    ensures IsPropertyOf(PropertyFor(question), question)
  {
    if question.Choice? {
      assert OptionCodes(question.options) ==
             seq(|question.options|, k requires 0 <= k < |question.options| => "c" + Decimal(k));
    }
  }

  method SchemaFor(e: Evaluation) returns (schema: Schema)
    ensures Describes(schema, e.questions)
    ensures schema.required == seq(|e.questions|, i requires 0 <= i < |e.questions| => "q" + Decimal(i))
    ensures schema.properties.Keys == set key | key in schema.required
    ensures forall i :: 0 <= i < |e.questions| ==>
      && "q" + Decimal(i) in schema.properties
      && IsPropertyOf(schema.properties["q" + Decimal(i)], e.questions[i].question)
  {
    SchemaWrittenOut(e.questions);
    hide Describes, QuestionKey, PropertyFor;
    var properties: map<string, Property> := map[];
    var required: seq<string> := [];
    assert Describes(Schema(properties, required), []) by { DescribeNothing(); }
    for i := 0 to |e.questions|
      invariant Describes(Schema(properties, required), e.questions[..i])
    {
      DescribeOneMore(Schema(properties, required), e.questions[..i], e.questions[i]);
      assert e.questions[..i + 1] == e.questions[..i] + [e.questions[i]];
      var key := QuestionKey(i);
      properties := properties[key := PropertyFor(e.questions[i].question)];
      required := required + [key];
    }
    assert e.questions[..|e.questions|] == e.questions;
    return Schema(properties, required);
  }

  // ---------------------------------------------------------------------------------------------
  // Decoding
  // ---------------------------------------------------------------------------------------------

  /** The option a code names: the first whose code it is. */
  function OptionForCode(options: seq<string>, code: string, from: nat): Option<string>
    requires from <= |options|
    decreases |options| - from
  {
    if from == |options| then None
    else if OptionCode(from) == code then Some(options[from])
    else OptionForCode(options, code, from + 1)
  }

  function DecodeAnswer(id: string, question: Question, value: Json): Result<Answer, JudgeError>
    requires ValidQuestion(question)
  {
    match question
    case Choice(options) =>
      (match (if value.Text? then OptionForCode(options, value.text, 0) else None)
       case Some(option) => Ok(ChoiceAnswer(option, None))
       case None => Err(UnknownCode(id)))
    case Score(levels) =>
      if value.Number? && Within(value.number, 0.0, (levels - 1) as real) then Ok(ScoreAnswer(value.number, None))
      else Err(ScoreOutsideRubric(id))
    case Boolean =>
      if value.Number? && IsProbability(value.number) then Ok(BooleanAnswer(value.number))
      else Err(NotAProbability(id))
  }

  /** As many fields as questions, and one under each question's key. */
  predicate OneValuePerQuestion(e: Evaluation, fields: seq<(string, Json)>) {
    |fields| == |e.questions| && forall i :: 0 <= i < |e.questions| ==> Field(fields, QuestionKey(i)).Some?
  }

  /** The answers to the first `n` questions, or the first of them that cannot be read. */
  function DecodeAnswers(e: Evaluation, fields: seq<(string, Json)>, n: nat): Result<map<string, Answer>, JudgeError>
    requires ValidEvaluation(e) && OneValuePerQuestion(e, fields) && n <= |e.questions|
  {
    if n == 0 then Ok(map[])
    else
      match DecodeAnswers(e, fields, n - 1)
      case Err(error) => Err(error)
      case Ok(answers) =>
        var asked := e.questions[n - 1];
        match DecodeAnswer(asked.id, asked.question, Field(fields, QuestionKey(n - 1)).value)
        case Err(error) => Err(error)
        case Ok(answer) => Ok(answers[asked.id := answer])
  }

  function Decode(e: Evaluation, finish: FinishReason, reply: Json): Result<Verdict, JudgeError>
    requires ValidEvaluation(e)
  {
    if finish != StreamTypes.Stop then Err(NotFinished(finish))
    else if !reply.Object? || !OneValuePerQuestion(e, reply.fields) then Err(NotOneValuePerQuestion)
    else
      match DecodeAnswers(e, reply.fields, |e.questions|)
      case Err(error) => Err(error)
      case Ok(answers) => Ok(Verdict(answers, None))
  }

  method VerdictFrom(e: Evaluation, finish: FinishReason, reply: Json) returns (r: Result<Verdict, JudgeError>)
    requires ValidEvaluation(e)
    ensures r == Decode(e, finish, reply)
    ensures r.Ok? ==> r.value.rounding == None
    ensures finish != StreamTypes.Stop ==> r == Err(NotFinished(finish))
    ensures finish == StreamTypes.Stop && (!reply.Object? || !OneValuePerQuestion(e, reply.fields)) ==>
      r == Err(NotOneValuePerQuestion)
    ensures r.Err? && finish == StreamTypes.Stop && reply.Object? && OneValuePerQuestion(e, reply.fields) ==>
      exists i :: 0 <= i < |e.questions| && FirstUnreadable(e, reply.fields, i) && r.error == Unreadable(e.questions[i])
  {
    if finish == StreamTypes.Stop && reply.Object? && OneValuePerQuestion(e, reply.fields) {
      FirstUnreadableIsNamed(e, reply.fields, |e.questions|);
    }
    if finish != StreamTypes.Stop {
      return Err(NotFinished(finish));
    }
    if !reply.Object? {
      return Err(NotOneValuePerQuestion);
    }
    var fields := reply.fields;
    if !OneValuePerQuestion(e, fields) {
      return Err(NotOneValuePerQuestion);
    }
    var answers: map<string, Answer> := map[];
    for i := 0 to |e.questions|
      invariant DecodeAnswers(e, fields, i) == Ok(answers)
    {
      var asked := e.questions[i];
      var answer := DecodeAnswer(asked.id, asked.question, Field(fields, QuestionKey(i)).value);
      if answer.Err? {
        FailureStays(e, fields, i + 1, |e.questions|);
        return Err(answer.error);
      }
      answers := answers[asked.id := answer.value];
    }
    return Ok(Verdict(answers, None));
  }

  lemma {:induction false} FailureStays(e: Evaluation, fields: seq<(string, Json)>, m: nat, n: nat)
    requires ValidEvaluation(e) && OneValuePerQuestion(e, fields) && m <= n <= |e.questions|
    requires DecodeAnswers(e, fields, m).Err?
    ensures DecodeAnswers(e, fields, n) == DecodeAnswers(e, fields, m)
  {
    if m < n {
      FailureStays(e, fields, m, n - 1);
    }
  }

  // ---------------------------------------------------------------------------------------------
  // Exactly what is accepted
  // ---------------------------------------------------------------------------------------------

  /** A value the schema's property allows, inside the bounds its description gives. */
  predicate Answers(question: Question, value: Json)
    requires ValidQuestion(question)
  {
    match question
    case Choice(options) => value.Text? && value.text in OptionCodes(options)
    case Score(levels) => value.Number? && Within(value.number, 0.0, (levels - 1) as real)
    case Boolean => value.Number? && IsProbability(value.number)
  }

  /** The error about a question whose value cannot be read. */
  function Unreadable(asked: Asked): JudgeError {
    if asked.question.Choice? then UnknownCode(asked.id)
    else if asked.question.Score? then ScoreOutsideRubric(asked.id)
    else NotAProbability(asked.id)
  }

  predicate FirstUnreadable(e: Evaluation, fields: seq<(string, Json)>, i: int)
    requires ValidEvaluation(e) && OneValuePerQuestion(e, fields)
  {
    && 0 <= i < |e.questions|
    && !Answers(e.questions[i].question, Field(fields, QuestionKey(i)).value)
    && forall k :: 0 <= k < i ==> Answers(e.questions[k].question, Field(fields, QuestionKey(k)).value)
  }

  /** What a value must be to answer a question: an option's code, a number from zero to the last level, or a number from zero to one. */
  lemma AnswersAre(question: Question, value: Json)
    requires ValidQuestion(question)
    ensures Answers(question, value) <==>
      if question.Choice? then value.Text? && exists k :: 0 <= k < |question.options| && value.text == "c" + Decimal(k)
      else
        && value.Number? && value.number.Finite? && value.number.value >= 0.0
        && value.number.value <= if question.Score? then question.levels as real - 1.0 else 1.0
  {
    if question.Choice? && value.Text? {
      var codes := OptionCodes(question.options);
      assert forall k :: 0 <= k < |question.options| ==> codes[k] == "c" + Decimal(k);
      if value.text in codes {
        var k :| 0 <= k < |codes| && codes[k] == value.text;
        assert value.text == "c" + Decimal(k);
      }
    } else if question.Score? {
      assert (question.levels - 1) as real == question.levels as real - 1.0;
    }
  }

  lemma {:induction false} FirstUnreadableIsNamed(e: Evaluation, fields: seq<(string, Json)>, n: nat)
    requires ValidEvaluation(e) && OneValuePerQuestion(e, fields) && n <= |e.questions|
    ensures DecodeAnswers(e, fields, n).Err? ==>
      exists i :: 0 <= i < n && FirstUnreadable(e, fields, i) && DecodeAnswers(e, fields, n).error == Unreadable(e.questions[i])
  {
    hide ValidQuestion, Answers, Field, QuestionKey;
    if n > 0 {
      var asked := e.questions[n - 1];
      var value := Field(fields, QuestionKey(n - 1)).value;
      AnswersDecodeExactly(e, fields, n - 1);
      AnswerDecodesExactly(asked.id, asked.question, value);
      if DecodeAnswers(e, fields, n - 1).Err? {
        FirstUnreadableIsNamed(e, fields, n - 1);
      } else if DecodeAnswer(asked.id, asked.question, value).Err? {
        assert FirstUnreadable(e, fields, n - 1);
      }
    }
  }

  lemma {:induction false} CodeFindsItsOption(options: seq<string>, from: nat, k: nat)
    requires from <= k < |options|
    ensures OptionForCode(options, OptionCode(k), from) == Some(options[k])
    decreases k - from
  {
    CodeIsInjective("c", from, k);
    if from < k {
      CodeFindsItsOption(options, from + 1, k);
    }
  }

  lemma {:induction false} ForeignCodeFindsNothing(options: seq<string>, code: string, from: nat)
    requires from <= |options| && code !in OptionCodes(options)
    ensures OptionForCode(options, code, from) == None
    decreases |options| - from
  {
    if from < |options| {
      assert OptionCodes(options)[from] == OptionCode(from);
      ForeignCodeFindsNothing(options, code, from + 1);
    }
  }

  lemma AnswerDecodesExactly(id: string, question: Question, value: Json)
    requires ValidQuestion(question)
    ensures DecodeAnswer(id, question, value).Ok? <==> Answers(question, value)
    ensures DecodeAnswer(id, question, value).Ok? ==>
      var answer := DecodeAnswer(id, question, value).value;
      && WellFormed(answer)
      && forall p, s :: Acceptable(question, answer, p, s)
  {
    if question.Choice? && value.Text? {
      var codes := OptionCodes(question.options);
      if value.text in codes {
        var k :| 0 <= k < |codes| && codes[k] == value.text;
        CodeFindsItsOption(question.options, 0, k);
      } else {
        ForeignCodeFindsNothing(question.options, value.text, 0);
      }
    }
  }

  lemma {:induction false} AnswersDecodeExactly(e: Evaluation, fields: seq<(string, Json)>, n: nat)
    requires ValidEvaluation(e) && OneValuePerQuestion(e, fields) && n <= |e.questions|
    ensures DecodeAnswers(e, fields, n).Ok? <==>
      forall i :: 0 <= i < n ==> Answers(e.questions[i].question, Field(fields, QuestionKey(i)).value)
  {
    hide ValidQuestion, Answers, DecodeAnswer, Acceptable, Field, QuestionKey;
    if n > 0 {
      var asked := e.questions[n - 1];
      AnswersDecodeExactly(e, fields, n - 1);
      AnswerDecodesExactly(asked.id, asked.question, Field(fields, QuestionKey(n - 1)).value);
    }
  }

  /** What was decoded is one answer per question, each from its own field. */
  lemma {:induction false} AnswersAreDecoded(e: Evaluation, fields: seq<(string, Json)>, n: nat)
    requires ValidEvaluation(e) && OneValuePerQuestion(e, fields) && n <= |e.questions|
    requires DecodeAnswers(e, fields, n).Ok?
    ensures
      var answers := DecodeAnswers(e, fields, n).value;
      && (forall id :: id in answers <==> exists i :: 0 <= i < n && e.questions[i].id == id)
      && forall i :: 0 <= i < n ==>
           var asked := e.questions[i];
           && asked.id in answers
           && DecodeAnswer(asked.id, asked.question, Field(fields, QuestionKey(i)).value) == Ok(answers[asked.id])
  {
    hide ValidQuestion, DecodeAnswer, Field, QuestionKey;
    if n > 0 {
      AnswersAreDecoded(e, fields, n - 1);
      assert forall i :: 0 <= i < n - 1 ==> e.questions[i].id != e.questions[n - 1].id;
    }
  }

  /** The object has the schema's properties and no others, each with an allowed value. */
  ghost predicate Conforms(e: Evaluation, schema: Schema, reply: Json)
    requires ValidEvaluation(e)
  {
    && reply.Object?
    && NameSet(Names(reply.fields)) == schema.properties.Keys
    && forall i :: 0 <= i < |e.questions| ==>
         && Field(reply.fields, QuestionKey(i)).Some?
         && Answers(e.questions[i].question, Field(reply.fields, QuestionKey(i)).value)
  }

  lemma KeysFillTheObject(e: Evaluation, fields: seq<(string, Json)>)
    requires Distinct(Names(fields))
    ensures OneValuePerQuestion(e, fields) <==> NameSet(Names(fields)) == NameSet(QuestionKeys(|e.questions|))
  {
    var n := |e.questions|;
    var names, keys := Names(fields), QuestionKeys(n);
    QuestionKeysAreDistinct(n);
    forall i | 0 <= i < n
      ensures Field(fields, QuestionKey(i)).Some? <==> keys[i] in names
    {
      FieldExists(fields, QuestionKey(i));
    }
    if OneValuePerQuestion(e, fields) {
      NoRoomForOthers(names, keys);
    } else if NameSet(names) == NameSet(keys) {
      DistinctNamesCount(names);
      DistinctNamesCount(keys);
      forall i | 0 <= i < n
        ensures keys[i] in names
      {
        assert keys[i] in NameSet(keys);
      }
    }
  }

  /**
   * Counting the fields and looking for each question's key is enough: an object is accepted exactly
   * when the completion stopped and the object has precisely the schema's properties with allowed
   * values.
   */
  lemma AcceptedExactlyWhenConforming(e: Evaluation, schema: Schema, finish: FinishReason, reply: Json)
    requires ValidEvaluation(e) && Describes(schema, e.questions)
    requires reply.Object? ==> Distinct(Names(reply.fields))
    ensures Decode(e, finish, reply).Ok? <==> finish == StreamTypes.Stop && Conforms(e, schema, reply)
  {
    hide ValidQuestion, Answers, QuestionKey;
    if reply.Object? {
      KeysFillTheObject(e, reply.fields);
      if OneValuePerQuestion(e, reply.fields) {
        AnswersDecodeExactly(e, reply.fields, |e.questions|);
      }
    }
  }

  /** Every verdict the judge gives passes the checks the client then makes. */
  lemma JudgedVerdictsValidate(e: Evaluation, finish: FinishReason, reply: Json)
    requires ValidEvaluation(e) && Decode(e, finish, reply).Ok?
    ensures ValidateVerdict(e, Decode(e, finish, reply).value).Ok?
  {
    hide ValidQuestion, Answers, DecodeAnswer, Acceptable, WellFormed, QuestionKey, ValidateVerdict;
    var fields, verdict := reply.fields, Decode(e, finish, reply).value;
    AnswersDecodeExactly(e, fields, |e.questions|);
    AnswersAreDecoded(e, fields, |e.questions|);
    forall i | 0 <= i < |e.questions|
      ensures WellFormed(verdict.answers[e.questions[i].id])
      ensures Acceptable(e.questions[i].question, verdict.answers[e.questions[i].id], 0.0, 0.0)
    {
      AnswerDecodesExactly(e.questions[i].id, e.questions[i].question, Field(fields, QuestionKey(i)).value);
    }
    assert forall id :: id in verdict.answers <==> Asks(e, id);
    forall id | id in verdict.answers
      ensures WellFormed(verdict.answers[id])
    {
      var i :| 0 <= i < |e.questions| && e.questions[i].id == id;
    }
    AcceptanceIsExact(e, verdict);
  }

  // ---------------------------------------------------------------------------------------------
  // Round trip
  // ---------------------------------------------------------------------------------------------

  /** What a model means to say about one question. */
  datatype Pick = PickOption(index: nat) | PickScore(score: real) | PickProbability(p: real)

  predicate Possible(question: Question, pick: Pick) {
    match question
    case Choice(options) => pick.PickOption? && pick.index < |options|
    case Score(levels) => pick.PickScore? && 0.0 <= pick.score <= (levels - 1) as real
    case Boolean => pick.PickProbability? && 0.0 <= pick.p <= 1.0
  }

  /** How the system prompt asks for it to be written. */
  function Write(pick: Pick): Json {
    match pick
    case PickOption(index) => Text(OptionCode(index))
    case PickScore(score) => Number(Finite(score))
    case PickProbability(p) => Number(Finite(p))
  }

  function Meant(question: Question, pick: Pick): Answer
    requires Possible(question, pick)
  {
    match pick
    case PickOption(index) => ChoiceAnswer(question.options[index], None)
    case PickScore(score) => ScoreAnswer(Finite(score), None)
    case PickProbability(p) => BooleanAnswer(Finite(p))
  }

  lemma PickRoundTrips(id: string, question: Question, pick: Pick)
    requires ValidQuestion(question) && Possible(question, pick)
    ensures DecodeAnswer(id, question, Write(pick)) == Ok(Meant(question, pick))
  {
    if pick.PickOption? {
      CodeFindsItsOption(question.options, 0, pick.index);
    }
  }

  /**
   * Any assignment of options, scores and probabilities, written under the internal keys with the
   * fields in any order, decodes to exactly those answers under the caller's own ids.
   */
  lemma {:induction false} JudgeRoundTrips(e: Evaluation, picks: seq<Pick>, fields: seq<(string, Json)>)
    requires ValidEvaluation(e) && |picks| == |e.questions| == |fields|
    requires forall i :: 0 <= i < |picks| ==> Possible(e.questions[i].question, picks[i])
    requires forall i :: 0 <= i < |picks| ==> Field(fields, QuestionKey(i)) == Some(Write(picks[i]))
    ensures Decode(e, StreamTypes.Stop, Object(fields)).Ok?
    ensures
      var answers := Decode(e, StreamTypes.Stop, Object(fields)).value.answers;
      && (forall id :: id in answers <==> Asks(e, id))
      && forall i :: 0 <= i < |picks| ==>
           && e.questions[i].id in answers
           && answers[e.questions[i].id] == Meant(e.questions[i].question, picks[i])
  {
    hide ValidQuestion, Answers, DecodeAnswer, Possible, Meant, Write, QuestionKey;
    forall i | 0 <= i < |picks|
      ensures DecodeAnswer(e.questions[i].id, e.questions[i].question, Write(picks[i])) ==
              Ok(Meant(e.questions[i].question, picks[i]))
      ensures Answers(e.questions[i].question, Write(picks[i]))
    {
      PickRoundTrips(e.questions[i].id, e.questions[i].question, picks[i]);
      AnswerDecodesExactly(e.questions[i].id, e.questions[i].question, Write(picks[i]));
    }
    AnswersDecodeExactly(e, fields, |e.questions|);
    AnswersAreDecoded(e, fields, |e.questions|);
  }

  /** The label the rubric shows beside a code is the option that code decodes to. */
  lemma RubricMatchesDecoding(id: string, options: seq<string>, k: nat)
    requires ValidQuestion(Choice(options)) && k < |options|
    ensures DecodeAnswer(id, Choice(options), Text(RubricLabels(options)[k].0)) ==
            Ok(ChoiceAnswer(RubricLabels(options)[k].1, None))
    ensures PropertyFor(Choice(options)).codes[k] == RubricLabels(options)[k].0
  {
    CodeFindsItsOption(options, 0, k);
  }
}
