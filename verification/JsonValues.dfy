/** JSON values and the numbers in them. */
module JsonValues {
  import opened Wrappers
  import opened Sequences

  // ---------------------------------------------------------------------------------------------
  // Numbers
  // ---------------------------------------------------------------------------------------------

  /** A double: finite ones are exact reals here, so rounding of the representation is not modelled. */
  datatype F64 = Finite(value: real) | NaN | Infinite(negative: bool)

  /** Finite and between `lo` and `hi`, inclusive. */
  predicate Within(x: F64, lo: real, hi: real) {
    x.Finite? && lo <= x.value <= hi
  }

  predicate IsProbability(x: F64) {
    Within(x, 0.0, 1.0)
  }

  // ---------------------------------------------------------------------------------------------
  // JSON
  // ---------------------------------------------------------------------------------------------

  datatype Json =
    | Null
    | Bool(flag: bool)
    | Number(number: F64)
    | Text(text: string)
    | Array(items: seq<Json>)
    | Object(fields: seq<(string, Json)>)

  /** The value under a key of an object. */
  function Field(fields: seq<(string, Json)>, key: string): Option<Json> {
    if fields == [] then None
    else if fields[0].0 == key then Some(fields[0].1)
    else Field(fields[1..], key)
  }

  function Names(fields: seq<(string, Json)>): seq<string> {
    seq(|fields|, i requires 0 <= i < |fields| => fields[i].0)
  }

  lemma {:induction false} FieldAt(fields: seq<(string, Json)>, i: nat)
    requires i < |fields| && Distinct(Names(fields))
    ensures Field(fields, fields[i].0) == Some(fields[i].1)
  {
    if i > 0 {
      assert Names(fields)[0] != Names(fields)[i];
      forall j, k | 0 <= j < k < |fields| - 1
        ensures Names(fields[1..])[j] != Names(fields[1..])[k]
      {
        assert Names(fields)[j + 1] != Names(fields)[k + 1];
      }
      FieldAt(fields[1..], i - 1);
    }
  }

  lemma {:induction false} FieldExists(fields: seq<(string, Json)>, key: string)
    ensures Field(fields, key).Some? <==> key in Names(fields)
  {
    if fields != [] {
      FieldExists(fields[1..], key);
      assert Names(fields) == [fields[0].0] + Names(fields[1..]);
    }
  }
}
