/** Reading the distributions native evaluation protocols report: keyed by option, or by level. */
module Distributions {
  import opened Wrappers
  import opened Sequences
  import opened JsonValues
  import opened Evaluations
  import Sorting
  import Validation

  datatype DistributionError =
    | NotKeyed
    | MissingOption(option: string)
    | ForeignOption(option: string)
    | MissingLevel(index: nat)
    | ExtraLevel(key: string)
    | NotNumeric(key: string)

  function Numbers(fields: seq<(string, Json)>): seq<(string, F64)>
    requires AllNumeric(fields)
  {
    seq(|fields|, i requires 0 <= i < |fields| => (fields[i].0, fields[i].1.number))
  }

  predicate AllNumeric(fields: seq<(string, Json)>) {
    forall i :: 0 <= i < |fields| ==> fields[i].1.Number?
  }

  /** Every wanted key is present with a numeric value. */
  predicate HasNumbers(fields: seq<(string, Json)>, keys: seq<string>) {
    forall i :: 0 <= i < |keys| ==> Field(fields, keys[i]).Some? && Field(fields, keys[i]).value.Number?
  }

  /** The numbers under `keys`, in the order of `keys`. */
  function InOrder(fields: seq<(string, Json)>, keys: seq<string>): seq<(string, F64)>
    requires HasNumbers(fields, keys)
  {
    seq(|keys|, i requires 0 <= i < |keys| => (keys[i], Field(fields, keys[i]).value.number))
  }

  /** The wire has exactly the wanted keys, each with a number. */
  ghost predicate ExactlyKeyed(fields: seq<(string, Json)>, keys: seq<string>) {
    NameSet(Names(fields)) == NameSet(keys) && HasNumbers(fields, keys)
  }

  function LevelKeys(n: nat): seq<string> {
    seq(n, i requires 0 <= i < n => Decimal(i))
  }

  lemma LevelKeysAreDistinct(n: nat)
    ensures Distinct(LevelKeys(n))
  {
    forall i, j | 0 <= i < j < n
      ensures LevelKeys(n)[i] != LevelKeys(n)[j]
    {
      CodeIsInjective("", i, j);
      assert "" + Decimal(i) == Decimal(i) && "" + Decimal(j) == Decimal(j);
    }
  }

  lemma HasOneMore(fields: seq<(string, Json)>, keys: seq<string>, key: string)
    requires HasNumbers(fields, keys)
    ensures HasNumbers(fields, keys + [key]) <==> Field(fields, key).Some? && Field(fields, key).value.Number?
    ensures HasNumbers(fields, keys + [key]) ==>
      InOrder(fields, keys + [key]) == InOrder(fields, keys) + [(key, Field(fields, key).value.number)]
  {
    var more := keys + [key];
    assert more[|keys|] == key;
    assert forall i :: 0 <= i < |keys| ==> more[i] == keys[i];
  }

  lemma PrefixLacks(fields: seq<(string, Json)>, keys: seq<string>, k: nat)
    requires k <= |keys| && !HasNumbers(fields, keys[..k])
    ensures !HasNumbers(fields, keys)
  {}

  // ---------------------------------------------------------------------------------------------
  // Choices
  // ---------------------------------------------------------------------------------------------

  /**
   * With a choice question the wire must name exactly its options, each with a number, and the result
   * follows the question's order. Without one the wire's own keys and order are kept.
   */
  method ChoiceProbabilities(question: Option<Question>, wire: Json) returns (r: Result<seq<(string, F64)>, DistributionError>)
    requires wire.Object? ==> Distinct(Names(wire.fields))
    requires question.Some? ==> ValidQuestion(question.value)
    ensures r == Err(NotKeyed) <==> !wire.Object?
    ensures wire.Object? && question.Some? && question.value.Choice? ==>
      && (r.Ok? <==> ExactlyKeyed(wire.fields, question.value.options))
      && (r.Ok? ==> r.value == InOrder(wire.fields, question.value.options))
    ensures wire.Object? && (question.None? || !question.value.Choice?) ==>
      && (r.Ok? <==> AllNumeric(wire.fields))
      && (r.Ok? ==> r.value == Numbers(wire.fields))
      && (r.Ok? ==> |r.value| == |wire.fields|
                    && forall i :: 0 <= i < |wire.fields| ==> wire.fields[i] == (r.value[i].0, Number(r.value[i].1)))
    ensures wire.Object? && question.Some? && question.value.Choice? ==>
      && (r.Ok? <==> HoldsExactly(wire.fields, question.value.options))
      && (r.Ok? ==> ReadsFrom(r.value, wire.fields, question.value.options))
  {
    if wire.Object? && question.Some? && question.value.Choice? {
      ExactKeysAre(wire.fields, question.value.options);
    }
    if !wire.Object? {
      return Err(NotKeyed);
    }
    if question.Some? && question.value.Choice? {
      r := OptionProbabilities(question.value.options, wire.fields);
    } else {
      r := WireProbabilities(wire.fields);
    }
  }

  /** Every key has a field that holds a number, and every field is under one of the keys. */
  predicate HoldsExactly(fields: seq<(string, Json)>, keys: seq<string>) {
    && (forall i :: 0 <= i < |keys| ==> exists k :: 0 <= k < |fields| && fields[k].0 == keys[i] && fields[k].1.Number?)
    && forall k :: 0 <= k < |fields| ==> fields[k].0 in keys
  }

  /** The pairs are the keys in order, each with the number its own field holds. */
  predicate ReadsFrom(pairs: seq<(string, F64)>, fields: seq<(string, Json)>, keys: seq<string>) {
    |pairs| == |keys| && forall i :: 0 <= i < |keys| ==> pairs[i].0 == keys[i] && (keys[i], Number(pairs[i].1)) in fields
  }

  lemma FieldIs(fields: seq<(string, Json)>, key: string, value: Json)
    requires Distinct(Names(fields))
    ensures Field(fields, key) == Some(value) <==> (key, value) in fields
  {
    if (key, value) in fields {
      var k :| 0 <= k < |fields| && fields[k] == (key, value);
      FieldAt(fields, k);
    }
    if Field(fields, key) == Some(value) {
      FieldExists(fields, key);
      var k :| 0 <= k < |Names(fields)| && Names(fields)[k] == key;
      FieldAt(fields, k);
      assert fields[k] == (key, value);
    }
  }

  lemma ExactKeysAre(fields: seq<(string, Json)>, keys: seq<string>)
    requires Distinct(Names(fields))
    ensures ExactlyKeyed(fields, keys) <==> HoldsExactly(fields, keys)
    ensures ExactlyKeyed(fields, keys) ==> ReadsFrom(InOrder(fields, keys), fields, keys)
  {
    hide Field;
    forall i | 0 <= i < |keys|
      ensures Field(fields, keys[i]).Some? && Field(fields, keys[i]).value.Number? <==>
              exists k :: 0 <= k < |fields| && fields[k].0 == keys[i] && fields[k].1.Number?
    {
      NumberIsHeld(fields, keys[i]);
    }
    assert forall k :: 0 <= k < |fields| ==> Names(fields)[k] == fields[k].0;
    if HasNumbers(fields, keys) {
      if HoldsExactly(fields, keys) {
        PresentKeysAreAll(fields, keys);
      }
      if ExactlyKeyed(fields, keys) {
        forall k | 0 <= k < |fields|
          ensures fields[k].0 in keys
        {
          assert Names(fields)[k] in NameSet(Names(fields));
        }
        forall i | 0 <= i < |keys|
          ensures (keys[i], Number(InOrder(fields, keys)[i].1)) in fields
        {
          FieldIs(fields, keys[i], Field(fields, keys[i]).value);
        }
      }
    }
  }

  lemma NumberIsHeld(fields: seq<(string, Json)>, key: string)
    requires Distinct(Names(fields))
    ensures Field(fields, key).Some? && Field(fields, key).value.Number? <==>
            exists k :: 0 <= k < |fields| && fields[k].0 == key && fields[k].1.Number?
  {
    if Field(fields, key).Some? {
      FieldIs(fields, key, Field(fields, key).value);
      var k :| 0 <= k < |fields| && fields[k] == (key, Field(fields, key).value);
      FieldAt(fields, k);
    }
    if k :| 0 <= k < |fields| && fields[k].0 == key && fields[k].1.Number? {
      FieldAt(fields, k);
    }
    forall k | 0 <= k < |fields| && fields[k].0 == key
      ensures Field(fields, key) == Some(fields[k].1)
    {
      FieldAt(fields, k);
    }
  }

  method WireProbabilities(fields: seq<(string, Json)>) returns (r: Result<seq<(string, F64)>, DistributionError>)
    ensures r.Ok? <==> AllNumeric(fields)
    ensures r.Ok? ==> r.value == Numbers(fields)
    ensures r.Ok? ==>
      |r.value| == |fields| && forall i :: 0 <= i < |fields| ==> fields[i] == (r.value[i].0, Number(r.value[i].1))
    ensures r.Err? ==>
      && r.error.NotNumeric?
      && exists i :: 0 <= i < |fields| && fields[i].0 == r.error.key && !fields[i].1.Number? && AllNumeric(fields[..i])
  {
    var read: seq<(string, F64)> := [];
    for i := 0 to |fields|
      invariant AllNumeric(fields[..i]) && read == Numbers(fields[..i])
    {
      if !fields[i].1.Number? {
        return Err(NotNumeric(fields[i].0));
      }
      assert fields[..i + 1] == fields[..i] + [fields[i]];
      read := read + [(fields[i].0, fields[i].1.number)];
    }
    assert fields[..|fields|] == fields;
    return Ok(read);
  }

  method OptionProbabilities(options: seq<string>, fields: seq<(string, Json)>)
    returns (r: Result<seq<(string, F64)>, DistributionError>)
    requires Distinct(options) && Distinct(Names(fields))
    ensures r.Ok? <==> ExactlyKeyed(fields, options)
    ensures r.Ok? ==> r.value == InOrder(fields, options)
    ensures r.Err? ==> BlamesOption(r.error, fields, options)
  {
    var read: seq<(string, F64)> := [];
    for i := 0 to |options|
      invariant HasNumbers(fields, options[..i]) && read == InOrder(fields, options[..i])
    {
      assert options[..i + 1] == options[..i] + [options[i]];
      HasOneMore(fields, options[..i], options[i]);
      var value := Field(fields, options[i]);
      if value.None? {
        PrefixLacks(fields, options, i + 1);
        return Err(MissingOption(options[i]));
      }
      if !value.value.Number? {
        PrefixLacks(fields, options, i + 1);
        return Err(NotNumeric(options[i]));
      }
      read := read + [(options[i], value.value.number)];
    }
    assert options[..|options|] == options;
    for i := 0 to |fields|
      invariant forall k :: 0 <= k < i ==> fields[k].0 in options
    {
      if fields[i].0 !in options {
        assert Names(fields)[i] == fields[i].0 && Names(fields)[i] in NameSet(Names(fields));
        assert fields[i].0 !in NameSet(options);
        return Err(ForeignOption(fields[i].0));
      }
    }
    PresentKeysAreAll(fields, options);
    return Ok(read);
  }

  /**
   * What makes an error the right complaint about an option-keyed distribution: the first option, in the
   * question's order, that is missing or no number, else the first key on the wire that is no option.
   */
  predicate BlamesOption(e: DistributionError, fields: seq<(string, Json)>, options: seq<string>) {
    match e
    case MissingOption(option) =>
      Field(fields, option).None? && exists i :: 0 <= i < |options| && options[i] == option && HasNumbers(fields, options[..i])
    case NotNumeric(key) =>
      && Field(fields, key).Some? && !Field(fields, key).value.Number?
      && exists i :: 0 <= i < |options| && options[i] == key && HasNumbers(fields, options[..i])
    case ForeignOption(option) =>
      && HasNumbers(fields, options) && option !in options
      && exists k :: 0 <= k < |fields| && fields[k].0 == option && forall l :: 0 <= l < k ==> fields[l].0 in options
    case _ => false
  }

  lemma PresentKeysAreAll(fields: seq<(string, Json)>, keys: seq<string>)
    requires HasNumbers(fields, keys) && forall k :: 0 <= k < |fields| ==> fields[k].0 in keys
    ensures NameSet(Names(fields)) == NameSet(keys)
  {
    forall name | name in keys
      ensures name in Names(fields)
    {
      var i :| 0 <= i < |keys| && keys[i] == name;
      FieldExists(fields, keys[i]);
    }
    forall name | name in Names(fields)
      ensures name in keys
    {
      var k :| 0 <= k < |fields| && Names(fields)[k] == name;
    }
  }

  // ---------------------------------------------------------------------------------------------
  // Levels
  // ---------------------------------------------------------------------------------------------

  function LevelCount(question: Option<Question>, fields: seq<(string, Json)>): nat {
    if question.Some? && question.value.Score? then question.value.levels else |fields|
  }

  /** What an extra level is called when every wire key reads as some level, one of them in another spelling. */
  const UNNAMED: string := "?"

  function NumeralValue(digits: string): nat
    requires AllDigits(digits)
  {
    if digits == "" then 0
    else NumeralValue(digits[..|digits| - 1]) * 10 + (digits[|digits| - 1] as int - '0' as int)
  }

  predicate AllDigits(s: string) {
    forall i :: 0 <= i < |s| ==> '0' <= s[i] <= '9'
  }

  /** A key that parses as an unsigned index below `levels`: a plus sign and leading zeros are allowed. */
  predicate ReadsBelow(key: string, levels: nat) {
    var digits := if key != "" && key[0] == '+' then key[1..] else key;
    digits != "" && AllDigits(digits) && NumeralValue(digits) < levels
  }

  lemma {:induction false} DecimalReadsBack(n: nat)
    ensures AllDigits(Decimal(n)) && NumeralValue(Decimal(n)) == n
  {
    if n >= 10 {
      DecimalReadsBack(n / 10);
      assert Decimal(n)[..|Decimal(n)| - 1] == Decimal(n / 10);
    } else {
      assert Decimal(n)[..0] == "";
    }
  }

  lemma {:induction false} LeadingZeros(zeros: nat, digits: string)
    requires AllDigits(digits)
    ensures
      var key := seq(zeros, i requires 0 <= i < zeros => '0') + digits;
      AllDigits(key) && NumeralValue(key) == NumeralValue(digits)
    decreases |digits|, zeros
  {
    var padding := seq(zeros, i requires 0 <= i < zeros => '0');
    var key := padding + digits;
    if digits == "" {
      assert key == padding;
      if zeros > 0 {
        LeadingZeros(zeros - 1, "");
        assert key[..|key| - 1] == seq(zeros - 1, i requires 0 <= i < zeros - 1 => '0') + "";
      }
    } else {
      assert key[..|key| - 1] == padding + digits[..|digits| - 1];
      LeadingZeros(zeros, digits[..|digits| - 1]);
    }
  }

  /** A level may be spelled with a plus sign and leading zeros; a minus sign, nothing at all, or a level too high is no level. */
  lemma LevelSpellings(n: nat, zeros: nat, levels: nat)
    ensures
      var digits := seq(zeros, i requires 0 <= i < zeros => '0') + Decimal(n);
      && (ReadsBelow(digits, levels) <==> n < levels)
      && (ReadsBelow("+" + digits, levels) <==> n < levels)
      && !ReadsBelow("-" + digits, levels)
    ensures !ReadsBelow("", levels) && !ReadsBelow("+", levels)
  {
    DecimalReadsBack(n);
    DecimalIsNotEmpty(n);
    LeadingZeros(zeros, Decimal(n));
    var digits := seq(zeros, i requires 0 <= i < zeros => '0') + Decimal(n);
    assert digits != "" && '0' <= digits[0] <= '9';
    assert ("+" + digits)[1..] == digits && ("-" + digits)[0] == '-';
  }

  lemma LevelKeysReadBelow(key: string, levels: nat)
    ensures key in LevelKeys(levels) ==> ReadsBelow(key, levels)
  {
    if key in LevelKeys(levels) {
      var i :| 0 <= i < levels && LevelKeys(levels)[i] == key;
      DecimalReadsBack(i);
      DecimalIsNotEmpty(i);
      assert key[0] != '+';
    }
  }

  /** The first wire key that reads as no level, and is none, or the stand-in when every key reads as one. */
  predicate IsExtra(key: string, fields: seq<(string, Json)>, keys: seq<string>) {
    if forall k :: 0 <= k < |fields| ==> ReadsBelow(fields[k].0, |keys|) then key == "?"
    else
      && key !in keys
      && exists k :: 0 <= k < |fields| && fields[k].0 == key && !ReadsBelow(key, |keys|)
                     && forall l :: 0 <= l < k ==> ReadsBelow(fields[l].0, |keys|)
  }

  /** The first wire key that does not parse as a level. */
  method ExtraKey(fields: seq<(string, Json)>, levels: nat) returns (key: string)
    ensures IsExtra(key, fields, LevelKeys(levels))
  {
    for i := 0 to |fields|
      invariant forall k :: 0 <= k < i ==> ReadsBelow(fields[k].0, levels)
    {
      if !ReadsBelow(fields[i].0, levels) {
        LevelKeysReadBelow(fields[i].0, levels);
        return fields[i].0;
      }
    }
    return UNNAMED;
  }

  /** What makes an error the right complaint about a level-keyed distribution. */
  predicate BlamesLevel(e: DistributionError, fields: seq<(string, Json)>, keys: seq<string>) {
    match e
    case MissingLevel(index) => index < |keys| && Field(fields, keys[index]).None? && HasNumbers(fields, keys[..index])
    case NotNumeric(key) =>
      && Field(fields, key).Some? && !Field(fields, key).value.Number?
      && exists i :: 0 <= i < |keys| && keys[i] == key && HasNumbers(fields, keys[..i])
    case ExtraLevel(key) =>
      && HasNumbers(fields, keys) && |fields| != |keys|
      && IsExtra(key, fields, keys)
    case _ => false
  }

  /**
   * Succeeds exactly when the wire's keys are "0", "1", and so on up to the level count, each with a
   * number; the same number of fields leaves no room for any other key.
   */
  method ScoreProbabilities(question: Option<Question>, wire: Json) returns (r: Result<seq<F64>, DistributionError>)
    requires wire.Object? ==> Distinct(Names(wire.fields))
    ensures r == Err(NotKeyed) <==> !wire.Object?
    ensures wire.Object? ==>
      var keys := LevelKeys(LevelCount(question, wire.fields));
      && (r.Ok? <==> ExactlyKeyed(wire.fields, keys))
      && (r.Ok? ==> r.value == Validation.Values(InOrder(wire.fields, keys)))
      && (r.Err? ==> BlamesLevel(r.error, wire.fields, keys))
    ensures wire.Object? ==>
      var levels := if question.Some? && question.value.Score? then question.value.levels else |wire.fields|;
      && (r.Ok? <==> HoldsExactly(wire.fields, seq(levels, i requires 0 <= i < levels => Decimal(i))))
      && (r.Ok? ==>
            && |r.value| == levels
            && forall i :: 0 <= i < levels ==> (Decimal(i), Number(r.value[i])) in wire.fields)
  {
    if wire.Object? {
      LevelsWrittenOut(wire.fields, LevelCount(question, wire.fields));
    }
    if !wire.Object? {
      return Err(NotKeyed);
    }
    hide HoldsExactly;
    var fields := wire.fields;
    var levels := LevelCount(question, fields);
    ghost var keys := LevelKeys(levels);
    var read: seq<F64> := [];
    for i := 0 to levels
      invariant HasNumbers(fields, keys[..i]) && read == Validation.Values(InOrder(fields, keys[..i]))
    {
      assert keys[..i + 1] == keys[..i] + [keys[i]];
      HasOneMore(fields, keys[..i], keys[i]);
      var value := Field(fields, Decimal(i));
      if value.None? {
        PrefixLacks(fields, keys, i + 1);
        return Err(MissingLevel(i));
      }
      if !value.value.Number? {
        PrefixLacks(fields, keys, i + 1);
        return Err(NotNumeric(Decimal(i)));
      }
      read := read + [value.value.number];
    }
    assert keys[..levels] == keys;
    CountDecides(fields, keys);
    if |fields| != levels {
      var key := ExtraKey(fields, levels);
      return Err(ExtraLevel(key));
    }
    return Ok(read);
  }

  lemma LevelsWrittenOut(fields: seq<(string, Json)>, levels: nat)
    requires Distinct(Names(fields))
    ensures ExactlyKeyed(fields, LevelKeys(levels)) <==>
            HoldsExactly(fields, seq(levels, i requires 0 <= i < levels => Decimal(i)))
    ensures ExactlyKeyed(fields, LevelKeys(levels)) ==>
      var read := Validation.Values(InOrder(fields, LevelKeys(levels)));
      |read| == levels && forall i :: 0 <= i < levels ==> (Decimal(i), Number(read[i])) in fields
  {
    assert LevelKeys(levels) == seq(levels, i requires 0 <= i < levels => Decimal(i));
    ExactKeysAre(fields, LevelKeys(levels));
  }

  lemma CountDecides(fields: seq<(string, Json)>, keys: seq<string>)
    requires Distinct(Names(fields)) && HasNumbers(fields, keys) && keys == LevelKeys(|keys|)
    ensures |fields| == |keys| <==> NameSet(Names(fields)) == NameSet(keys)
  {
    LevelKeysAreDistinct(|keys|);
    forall name | name in keys
      ensures name in Names(fields)
    {
      var i :| 0 <= i < |keys| && keys[i] == name;
      FieldExists(fields, keys[i]);
    }
    if |fields| == |keys| {
      NoRoomForOthers(Names(fields), keys);
    } else {
      DistinctNamesCount(Names(fields));
      DistinctNamesCount(keys);
    }
  }

  // ---------------------------------------------------------------------------------------------
  // Round trips and agreement with validation
  // ---------------------------------------------------------------------------------------------

  /**
   * Numbers written under distinct keys, with the fields in any order, are exactly keyed and read back
   * as they were written: for levels this inverts index-keyed encoding, for choices option-keyed.
   */
  lemma WrittenNumbersReadBack(fields: seq<(string, Json)>, keys: seq<string>, ps: seq<F64>)
    requires Distinct(Names(fields)) && Distinct(keys) && |keys| == |ps| == |fields|
    requires forall i :: 0 <= i < |keys| ==> (keys[i], Number(ps[i])) in fields
    ensures ExactlyKeyed(fields, keys)
    ensures Validation.Values(InOrder(fields, keys)) == ps
  {
    forall i | 0 <= i < |keys|
      ensures Field(fields, keys[i]) == Some(Number(ps[i])) && keys[i] in Names(fields)
    {
      var k :| 0 <= k < |fields| && fields[k] == (keys[i], Number(ps[i]));
      FieldAt(fields, k);
      assert Names(fields)[k] == keys[i];
    }
    NoRoomForOthers(Names(fields), keys);
  }

  /** Whatever is read for a choice question, in whatever order the wire had it, is complete to the validator. */
  lemma ReadChoicesAreComplete(fields: seq<(string, Json)>, options: seq<string>)
    requires Distinct(options) && ExactlyKeyed(fields, options)
    ensures Validation.Keys(InOrder(fields, options)) == NameSet(options)
    ensures Sorting.DistinctKeys(InOrder(fields, options), Validation.KeyOf)
    ensures |InOrder(fields, options)| == |fields| || !Distinct(Names(fields))
  {
    var pairs := InOrder(fields, options);
    assert forall i :: 0 <= i < |pairs| ==> pairs[i].0 == options[i];
    forall name | name in options
      ensures name in Validation.Keys(pairs)
    {
      var i :| 0 <= i < |options| && options[i] == name;
      assert pairs[i].0 == name;
    }
    DistinctNamesCount(options);
    if Distinct(Names(fields)) {
      DistinctNamesCount(Names(fields));
    }
  }
}
