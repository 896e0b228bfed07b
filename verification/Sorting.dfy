/**
 * Ordered identifiers, and stable sorting as the standard library promises it: the result is a
 * rearrangement in order that keeps equal elements as they were.
 */
module Sorting {
  import opened Wrappers
  import opened Sequences

  // ---------------------------------------------------------------------------------------------
  // The order of identifiers
  // ---------------------------------------------------------------------------------------------

  /** Strings by code point, which for UTF-8 is also the order of their bytes. */
  predicate Less(a: string, b: string) {
    b != "" && (a == "" || a[0] < b[0] || (a[0] == b[0] && Less(a[1..], b[1..])))
  }

  lemma {:induction false} LessIsIrreflexive(a: string)
    ensures !Less(a, a)
  {
    if a != "" {
      LessIsIrreflexive(a[1..]);
    }
  }

  lemma {:induction false} LessIsTransitive(a: string, b: string, c: string)
    requires Less(a, b) && Less(b, c)
    ensures Less(a, c)
  {
    if a != "" && a[0] == b[0] && b[0] == c[0] {
      LessIsTransitive(a[1..], b[1..], c[1..]);
    }
  }

  lemma {:induction false} LessIsTotal(a: string, b: string)
    ensures a == b || Less(a, b) || Less(b, a)
  {
    if a != "" && b != "" && a[0] == b[0] {
      LessIsTotal(a[1..], b[1..]);
      assert a == [a[0]] + a[1..] && b == [b[0]] + b[1..];
    }
  }

  /** At the first place where they differ, `a` has the smaller character. */
  predicate DiffersBelow(a: string, b: string) {
    exists k :: 0 <= k < |a| && k < |b| && a[..k] == b[..k] && a[k] < b[k]
  }

  lemma DifferenceShifts(c: char, x: string, y: string)
    ensures DiffersBelow([c] + x, [c] + y) <==> DiffersBelow(x, y)
  {
    var a, b := [c] + x, [c] + y;
    if k :| 0 <= k < |x| && k < |y| && x[..k] == y[..k] && x[k] < y[k] {
      assert a[..k + 1] == [c] + x[..k] && b[..k + 1] == [c] + y[..k];
      assert a[k + 1] < b[k + 1];
    }
    if k :| 0 <= k < |a| && k < |b| && a[..k] == b[..k] && a[k] < b[k] {
      assert x[..k - 1] == a[..k][1..] && y[..k - 1] == b[..k][1..];
      assert x[k - 1] < y[k - 1];
    }
  }

  lemma DifferentHeads(a: string, b: string)
    requires a != "" && b != "" && a[0] != b[0]
    ensures DiffersBelow(a, b) <==> a[0] < b[0]
  {
    assert a[..0] == b[..0];
    forall k | 1 <= k < |a| && k < |b|
      ensures a[..k] != b[..k]
    {
      assert a[..k][0] != b[..k][0];
    }
  }

  /** The order is that of the first difference, a proper prefix coming first. */
  lemma {:induction false} LessIsLexicographic(a: string, b: string)
    ensures Less(a, b) <==> (|a| < |b| && a == b[..|a|]) || DiffersBelow(a, b)
  {
    if a != "" && b != "" {
      if a[0] == b[0] {
        LessIsLexicographic(a[1..], b[1..]);
        DifferenceShifts(a[0], a[1..], b[1..]);
        assert a == [a[0]] + a[1..] && b == [a[0]] + b[1..];
        hide DiffersBelow;
        assert |a| < |b| ==> b[..|a|] == [a[0]] + b[1..][..|a| - 1];
      } else {
        DifferentHeads(a, b);
      }
    }
  }

  // ---------------------------------------------------------------------------------------------
  // Stable sorting
  // ---------------------------------------------------------------------------------------------

  function Insert<T>(x: T, sorted: seq<T>, le: (T, T) -> bool): seq<T> {
    if sorted == [] then [x]
    else if le(x, sorted[0]) then [x] + sorted
    else [sorted[0]] + Insert(x, sorted[1..], le)
  }

  function StableSort<T>(xs: seq<T>, le: (T, T) -> bool): seq<T> {
    if xs == [] then [] else Insert(xs[0], StableSort(xs[1..], le), le)
  }

  ghost predicate TotalPreorder<T(!new)>(le: (T, T) -> bool) {
    && (forall a, b :: le(a, b) || le(b, a))
    && (forall a, b, c :: le(a, b) && le(b, c) ==> le(a, c))
  }

  ghost predicate SortedBy<T>(xs: seq<T>, le: (T, T) -> bool) {
    forall i, j :: 0 <= i < j < |xs| ==> le(xs[i], xs[j])
  }

  lemma {:induction false} InsertMembers<T(!new)>(x: T, sorted: seq<T>, le: (T, T) -> bool)
    ensures forall y :: y in Insert(x, sorted, le) <==> y == x || y in sorted
  {
    if sorted != [] && !le(x, sorted[0]) {
      InsertMembers(x, sorted[1..], le);
    }
  }

  lemma {:induction false} InsertSorts<T(!new)>(x: T, sorted: seq<T>, le: (T, T) -> bool)
    requires TotalPreorder(le) && SortedBy(sorted, le)
    ensures SortedBy(Insert(x, sorted, le), le)
  {
    if sorted != [] {
      if le(x, sorted[0]) {
        var result := [x] + sorted;
        forall j | 1 <= j < |result|
          ensures le(x, result[j])
        {
          assert j > 1 ==> le(sorted[0], sorted[j - 1]);
        }
      } else {
        InsertSorts(x, sorted[1..], le);
        InsertMembers(x, sorted[1..], le);
        var rest := Insert(x, sorted[1..], le);
        forall j | 0 <= j < |rest|
          ensures le(sorted[0], rest[j])
        {
          assert rest[j] in rest;
          if rest[j] in sorted[1..] {
            var k :| 0 <= k < |sorted| - 1 && sorted[1..][k] == rest[j];
            assert le(sorted[0], sorted[k + 1]);
          }
        }
      }
    }
  }

  lemma {:induction false} SortMembers<T(!new)>(xs: seq<T>, le: (T, T) -> bool)
    ensures forall x :: x in StableSort(xs, le) <==> x in xs
  {
    if xs != [] {
      SortMembers(xs[1..], le);
      InsertMembers(xs[0], StableSort(xs[1..], le), le);
      assert xs == [xs[0]] + xs[1..];
    }
  }

  lemma {:induction false} SortSorts<T(!new)>(xs: seq<T>, le: (T, T) -> bool)
    requires TotalPreorder(le)
    ensures SortedBy(StableSort(xs, le), le)
  {
    if xs != [] {
      SortSorts(xs[1..], le);
      InsertSorts(xs[0], StableSort(xs[1..], le), le);
    }
  }

  /** No two positions share a key. */
  ghost predicate DistinctKeys<T>(xs: seq<T>, key: T -> string) {
    forall i, j :: 0 <= i < j < |xs| ==> key(xs[i]) != key(xs[j])
  }

  lemma {:induction false} InsertKeepsKeysDistinct<T(!new)>(x: T, sorted: seq<T>, le: (T, T) -> bool, key: T -> string)
    requires DistinctKeys(sorted, key) && forall y <- sorted :: key(y) != key(x)
    ensures DistinctKeys(Insert(x, sorted, le), key)
  {
    if sorted != [] && !le(x, sorted[0]) {
      InsertKeepsKeysDistinct(x, sorted[1..], le, key);
      InsertMembers(x, sorted[1..], le);
      var rest := Insert(x, sorted[1..], le);
      forall j | 0 <= j < |rest|
        ensures key(rest[j]) != key(sorted[0])
      {
        assert rest[j] in rest;
        if rest[j] in sorted[1..] {
          var k :| 0 <= k < |sorted| - 1 && sorted[1..][k] == rest[j];
          assert key(sorted[0]) != key(sorted[k + 1]);
        }
      }
    }
  }

  lemma {:induction false} SortKeepsKeysDistinct<T(!new)>(xs: seq<T>, le: (T, T) -> bool, key: T -> string)
    requires DistinctKeys(xs, key)
    ensures DistinctKeys(StableSort(xs, le), key)
  {
    if xs != [] {
      SortKeepsKeysDistinct(xs[1..], le, key);
      SortMembers(xs[1..], le);
      forall y | y in StableSort(xs[1..], le)
        ensures key(y) != key(xs[0])
      {
        assert y in xs[1..];
        var k :| 0 <= k < |xs| - 1 && xs[1..][k] == y;
        assert key(xs[0]) != key(xs[k + 1]);
      }
      InsertKeepsKeysDistinct(xs[0], StableSort(xs[1..], le), le, key);
    }
  }

  // ---------------------------------------------------------------------------------------------
  // Filtering
  // ---------------------------------------------------------------------------------------------

  function Filter<T>(xs: seq<T>, keep: T -> bool): seq<T> {
    if xs == [] then []
    else (if keep(xs[0]) then [xs[0]] else []) + Filter(xs[1..], keep)
  }

  function First<T>(xs: seq<T>, wanted: T -> bool): Option<T> {
    if xs == [] then None
    else if wanted(xs[0]) then Some(xs[0])
    else First(xs[1..], wanted)
  }

  lemma {:induction false} FilterMembers<T(!new)>(xs: seq<T>, keep: T -> bool)
    ensures forall x :: x in Filter(xs, keep) <==> x in xs && keep(x)
  {
    if xs != [] {
      FilterMembers(xs[1..], keep);
      assert xs == [xs[0]] + xs[1..];
    }
  }

  lemma {:induction false} FilterKeepsOrder<T(!new)>(xs: seq<T>, keep: T -> bool, le: (T, T) -> bool)
    requires SortedBy(xs, le)
    ensures SortedBy(Filter(xs, keep), le)
  {
    if xs != [] {
      FilterKeepsOrder(xs[1..], keep, le);
      FilterMembers(xs[1..], keep);
      var rest := Filter(xs[1..], keep);
      forall j | 0 <= j < |rest|
        ensures le(xs[0], rest[j])
      {
        assert rest[j] in rest;
        var k :| 0 <= k < |xs| - 1 && xs[1..][k] == rest[j];
        assert le(xs[0], xs[k + 1]);
      }
    }
  }

  lemma {:induction false} FilterKeepsKeysDistinct<T(!new)>(xs: seq<T>, keep: T -> bool, key: T -> string)
    requires DistinctKeys(xs, key)
    ensures DistinctKeys(Filter(xs, keep), key)
  {
    if xs != [] {
      FilterKeepsKeysDistinct(xs[1..], keep, key);
      FilterMembers(xs[1..], keep);
      var rest := Filter(xs[1..], keep);
      forall j | 0 <= j < |rest|
        ensures key(rest[j]) != key(xs[0])
      {
        assert rest[j] in rest;
        var k :| 0 <= k < |xs| - 1 && xs[1..][k] == rest[j];
        assert key(xs[0]) != key(xs[k + 1]);
      }
    }
  }

  lemma {:induction false} FirstIs<T(!new)>(xs: seq<T>, wanted: T -> bool)
    ensures First(xs, wanted) == if Filter(xs, wanted) == [] then None else Some(Filter(xs, wanted)[0])
  {
    if xs != [] {
      FirstIs(xs[1..], wanted);
    }
  }

  function Unless<T>(flag: T -> bool): T -> bool {
    x => !flag(x)
  }

  /** The order of a flag used as a sort key: unset before set. */
  function FlagOrder<T>(flag: T -> bool): (T, T) -> bool {
    (a, b) => !flag(a) || flag(b)
  }

  /** Sorting stably by a flag puts the unflagged elements first and changes no order within a group. */
  lemma {:induction false} SortByFlag<T(!new)>(xs: seq<T>, flag: T -> bool)
    ensures StableSort(xs, FlagOrder(flag)) == Filter(xs, Unless(flag)) + Filter(xs, flag)
  {
    if xs != [] {
      SortByFlag(xs[1..], flag);
      FilterMembers(xs[1..], Unless(flag));
      FilterMembers(xs[1..], flag);
      var x, plain, flagged := xs[0], Filter(xs[1..], Unless(flag)), Filter(xs[1..], flag);
      InsertByFlag(x, plain, flagged, flag);
      Associates(plain, [x], flagged);
      assert [] + plain == plain && [] + flagged == flagged;
    }
  }

  lemma {:induction false} InsertByFlag<T(!new)>(x: T, plain: seq<T>, flagged: seq<T>, flag: T -> bool)
    requires forall y <- plain :: !flag(y)
    requires forall y <- flagged :: flag(y)
    ensures Insert(x, plain + flagged, FlagOrder(flag)) ==
            if flag(x) then plain + [x] + flagged else [x] + plain + flagged
  {
    if plain == [] {
      assert plain + flagged == flagged && plain + [x] == [x] == [x] + plain;
    } else {
      assert plain[0] in plain;
      HeadAndTail(plain, flagged);
      InsertByFlag(x, plain[1..], flagged, flag);
      assert plain == [plain[0]] + plain[1..];
      if flag(x) {
        Associates([plain[0]], plain[1..], [x]);
        Associates([plain[0]], plain[1..] + [x], flagged);
      } else {
        Associates([x], plain, flagged);
      }
    }
  }

  // ---------------------------------------------------------------------------------------------
  // Uniqueness
  // ---------------------------------------------------------------------------------------------

  /** Two strictly ordered sequences with the same members are the same sequence. */
  lemma {:induction false} StrictOrderIsUnique<T(!new)>(xs: seq<T>, ys: seq<T>, lt: (T, T) -> bool)
    requires forall a, b :: lt(a, b) ==> !lt(b, a)
    requires SortedBy(xs, lt) && SortedBy(ys, lt)
    requires forall x :: x in xs <==> x in ys
    ensures xs == ys
  {
    if xs == [] {
      assert forall j :: 0 <= j < |ys| ==> ys[j] in ys;
    } else {
      SameHead(xs, ys, lt);
      HeadIsNotInTail(xs, lt);
      HeadIsNotInTail(ys, lt);
      assert xs == [xs[0]] + xs[1..] && ys == [ys[0]] + ys[1..];
      assert forall x :: x in xs <==> x == xs[0] || x in xs[1..];
      assert forall x :: x in ys <==> x == ys[0] || x in ys[1..];
      StrictOrderIsUnique(xs[1..], ys[1..], lt);
    }
  }

  lemma SameHead<T(!new)>(xs: seq<T>, ys: seq<T>, lt: (T, T) -> bool)
    requires forall a, b :: lt(a, b) ==> !lt(b, a)
    requires SortedBy(xs, lt) && SortedBy(ys, lt) && xs != []
    requires forall x :: x in xs <==> x in ys
    ensures ys != [] && xs[0] == ys[0]
  {
    assert xs[0] in ys;
    assert ys[0] in xs;
    var i :| 0 <= i < |ys| && ys[i] == xs[0];
    var j :| 0 <= j < |xs| && xs[j] == ys[0];
    var x, y := xs[0], ys[0];
    assert i == 0 || lt(y, x);
    assert j == 0 || lt(x, y);
  }

  lemma HeadIsNotInTail<T(!new)>(xs: seq<T>, lt: (T, T) -> bool)
    requires forall a, b :: lt(a, b) ==> !lt(b, a)
    requires SortedBy(xs, lt) && xs != []
    ensures xs[0] !in xs[1..]
  {}
}
