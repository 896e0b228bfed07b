/** Facts about concatenation that step-by-step proofs lean on, and sequences without repeats. */
module Sequences {

  lemma Associates<T>(a: seq<T>, b: seq<T>, c: seq<T>)
    ensures (a + b) + c == a + (b + c)
  {}

  /** The head and the tail of a concatenation whose first part is not empty. */
  lemma HeadAndTail<T>(a: seq<T>, b: seq<T>)
    requires a != []
    ensures (a + b)[0] == a[0] && (a + b)[1..] == a[1..] + b
  {}

  /** No two positions hold the same element. */
  predicate Distinct<T(==)>(xs: seq<T>) {
    forall i, j :: 0 <= i < j < |xs| ==> xs[i] != xs[j]
  }

  lemma DistinctConcat<T>(xs: seq<T>, ys: seq<T>)
    ensures Distinct(xs + ys) <==> Distinct(xs) && Distinct(ys) && forall x <- xs :: x !in ys
  {
    var all := xs + ys;
    if Distinct(all) {
      DistinctParts(xs, ys);
    }
    if Distinct(xs) && Distinct(ys) && forall x <- xs :: x !in ys {
      forall i, j | 0 <= i < j < |all|
        ensures all[i] != all[j]
      {
        if i < |xs| <= j {
          assert all[i] in xs && all[j] in ys;
        }
      }
    }
  }

  lemma DistinctParts<T>(xs: seq<T>, ys: seq<T>)
    requires Distinct(xs + ys)
    ensures Distinct(xs) && Distinct(ys) && forall x <- xs :: x !in ys
  {
    var all := xs + ys;
    forall i, j | 0 <= i < j < |xs|
      ensures xs[i] != xs[j]
    {
      assert all[i] != all[j];
    }
    forall i, j | 0 <= i < j < |ys|
      ensures ys[i] != ys[j]
    {
      assert all[|xs| + i] != all[|xs| + j];
    }
    forall i, j | 0 <= i < |xs| && 0 <= j < |ys|
      ensures xs[i] != ys[j]
    {
      assert all[i] != all[|xs| + j];
    }
  }
}
