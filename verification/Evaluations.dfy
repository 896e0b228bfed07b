/** Evaluations and verdicts. */
module Evaluations {
  import opened Wrappers
  import opened Sequences
  import opened JsonValues

  // ---------------------------------------------------------------------------------------------
  // Questions and answers
  // ---------------------------------------------------------------------------------------------

  datatype Question =
    | Choice(options: seq<string>)
    | Score(levels: nat)
    | Boolean

  datatype Answer =
    | ChoiceAnswer(choice: string, distribution: Option<seq<(string, F64)>>)
    | ScoreAnswer(score: F64, weights: Option<seq<F64>>)
    | BooleanAnswer(probability: F64)

  datatype Asked = Asked(id: string, question: Question)

  /** The questions in id order. */
  datatype Evaluation = Evaluation(questions: seq<Asked>)

  datatype Rounding = Rounding(probabilityDecimals: Option<nat>, scoreDecimals: Option<nat>)

  datatype Verdict = Verdict(answers: map<string, Answer>, rounding: Option<Rounding>)

  predicate ValidQuestion(q: Question) {
    match q
    case Choice(options) => options != [] && Distinct(options)
    case Score(levels) => levels >= 2
    case Boolean => true
  }

  /** What building an evaluation guarantees. */
  predicate ValidEvaluation(e: Evaluation) {
    && e.questions != []
    && (forall i, j :: 0 <= i < j < |e.questions| ==> e.questions[i].id != e.questions[j].id)
    && (forall i :: 0 <= i < |e.questions| ==> ValidQuestion(e.questions[i].question))
  }

  predicate Asks(e: Evaluation, id: string) {
    exists i :: 0 <= i < |e.questions| && e.questions[i].id == id
  }

  predicate SameKind(q: Question, a: Answer) {
    match q
    case Choice(_) => a.ChoiceAnswer?
    case Score(_) => a.ScoreAnswer?
    case Boolean => a.BooleanAnswer?
  }

  // ---------------------------------------------------------------------------------------------
  // Sets of names
  // ---------------------------------------------------------------------------------------------

  function NameSet(names: seq<string>): set<string> {
    set name | name in names
  }

  lemma {:induction false} DistinctNamesCount(names: seq<string>)
    requires Distinct(names)
    ensures |NameSet(names)| == |names|
  {
    if names != [] {
      var rest := names[1..];
      forall i, j | 0 <= i < j < |rest|
        ensures rest[i] != rest[j]
      {
        assert names[i + 1] != names[j + 1];
      }
      DistinctNamesCount(rest);
      forall i | 0 <= i < |rest|
        ensures rest[i] != names[0]
      {
        assert names[0] != names[i + 1];
      }
      assert names == [names[0]] + rest;
      assert NameSet(names) == {names[0]} + NameSet(rest);
    }
  }

  /** As many distinct names as wanted, holding every wanted one, are the wanted ones and no others. */
  lemma NoRoomForOthers(names: seq<string>, wanted: seq<string>)
    requires Distinct(names) && Distinct(wanted) && |names| == |wanted|
    requires forall name <- wanted :: name in names
    ensures NameSet(names) == NameSet(wanted)
  {
    DistinctNamesCount(names);
    DistinctNamesCount(wanted);
    assert NameSet(wanted) <= NameSet(names);
    SubsetOfSameSize(NameSet(wanted), NameSet(names));
  }

  lemma SubsetOfSameSize(small: set<string>, large: set<string>)
    requires small <= large && |small| == |large|
    ensures small == large
  {
    assert |large - small| == |large| - |small|;
    assert forall x :: x in large && x !in small ==> x in large - small;
  }

  // ---------------------------------------------------------------------------------------------
  // Decimal numerals
  // ---------------------------------------------------------------------------------------------

  function Digit(d: nat): char
    requires d < 10
  {
    ('0' as int + d) as char
  }

  /** A number as it prints. */
  function Decimal(n: nat): string {
    if n < 10 then [Digit(n)] else Decimal(n / 10) + [Digit(n % 10)]
  }

  lemma {:induction false} DecimalIsInjective(m: nat, n: nat)
    requires Decimal(m) == Decimal(n)
    ensures m == n
  {
    var s, t := Decimal(m), Decimal(n);
    DecimalIsNotEmpty(m / 10);
    DecimalIsNotEmpty(n / 10);
    assert s[|s| - 1] == Digit(m % 10) && t[|t| - 1] == Digit(n % 10);
    assert m % 10 == n % 10;
    if m >= 10 && n >= 10 {
      assert s[..|s| - 1] == Decimal(m / 10) && t[..|t| - 1] == Decimal(n / 10);
      DecimalIsInjective(m / 10, n / 10);
    }
  }

  lemma DecimalIsNotEmpty(n: nat)
    ensures Decimal(n) != []
  {}

  lemma CodeIsInjective(prefix: string, i: nat, j: nat)
    ensures prefix + Decimal(i) == prefix + Decimal(j) <==> i == j
  {
    if prefix + Decimal(i) == prefix + Decimal(j) {
      assert (prefix + Decimal(i))[|prefix|..] == Decimal(i);
      assert (prefix + Decimal(j))[|prefix|..] == Decimal(j);
      DecimalIsInjective(i, j);
    }
  }
}
