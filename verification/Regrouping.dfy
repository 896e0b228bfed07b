/**
 * Merging layers in two groups instead of one after another, for any number of layers: exactly when
 * the result is the same, and a condition on the layers alone that makes it so.
 */
module Regrouping {
  import opened Wrappers
  import opened Overlay

  const EMPTY: Value := Table(map[])

  /** What stands at a path. */
  datatype Kind = Absent | LeafOf(scalar: Scalar) | SomeTable

  function KindAt(value: Value, path: Path): Kind {
    match Get(value, path)
    case None => Absent
    case Some(Leaf(scalar)) => LeafOf(scalar)
    case Some(Table(_)) => SomeTable
  }

  // ---------------------------------------------------------------------------------------------
  // Documents by what stands at each path
  // ---------------------------------------------------------------------------------------------

  lemma KindUnder(value: Value, key: string, path: Path)
    ensures value.Table? && key in value.entries ==> KindAt(value, [key] + path) == KindAt(value.entries[key], path)
    ensures value.Leaf? || key !in value.entries ==> KindAt(value, [key] + path) == Absent
  {
    assert ([key] + path)[0] == key && ([key] + path)[1..] == path;
  }

  /** Two documents with the same kinds at every path are the same document. */
  lemma {:induction false} KindsDecide(v: Value, w: Value)
    requires forall path: Path :: KindAt(v, path) == KindAt(w, path)
    ensures v == w
    decreases v
  {
    assert KindAt(v, []) == KindAt(w, []);
    if v.Table? {
      forall key
        ensures key in v.entries <==> key in w.entries
        ensures key in v.entries ==> v.entries[key] == w.entries[key]
      {
        KindUnder(v, key, []);
        KindUnder(w, key, []);
        assert KindAt(v, [key] + []) == KindAt(w, [key] + []);
        if key in v.entries {
          forall path: Path
            ensures KindAt(v.entries[key], path) == KindAt(w.entries[key], path)
          {
            KindUnder(v, key, path);
            KindUnder(w, key, path);
            assert KindAt(v, [key] + path) == KindAt(w, [key] + path);
          }
          KindsDecide(v.entries[key], w.entries[key]);
        }
      }
      assert v.entries == w.entries;
    }
  }

  lemma {:induction false} PresentIsCovered(value: Value, path: Path)
    requires KindAt(value, path) != Absent
    ensures Covers(value, path)
    decreases |path|
  {
    if path != [] {
      PresentIsCovered(value.entries[path[0]], path[1..]);
    }
  }

  /** The law of one merge for leaves and tables alike: the overlay decides what it covers, the base the rest. */
  lemma {:induction false} MergeKind(base: Value, overlay: Value, path: Path)
    ensures KindAt(Merge(base, overlay), path) == KindAt(if Covers(overlay, path) then overlay else base, path)
    ensures Covers(Merge(base, overlay), path) ==> Covers(base, path) || Covers(overlay, path)
    decreases |path|
  {
    if path != [] && base.Table? && overlay.Table? {
      var key := path[0];
      var merged := Merge(base, overlay);
      assert key in merged.entries <==> key in base.entries || key in overlay.entries;
      if key !in overlay.entries {
        assert key in base.entries ==> merged.entries[key] == base.entries[key];
      } else if key !in base.entries {
        assert merged.entries[key] == overlay.entries[key];
        if KindAt(overlay.entries[key], path[1..]) != Absent {
          PresentIsCovered(overlay.entries[key], path[1..]);
        }
      } else {
        MergeKind(base.entries[key], overlay.entries[key], path[1..]);
      }
    } else if KindAt(overlay, path) != Absent {
      PresentIsCovered(overlay, path);
    }
  }

  // ---------------------------------------------------------------------------------------------
  // Any number of layers
  // ---------------------------------------------------------------------------------------------

  predicate AnyCovers(layers: seq<Value>, path: Path) {
    exists i :: 0 <= i < |layers| && Covers(layers[i], path)
  }

  /** The law of a fold over any base: the last covering layer decides, and the base where none covers. */
  lemma {:induction false} FoldKind(base: Value, layers: seq<Value>, path: Path)
    ensures !AnyCovers(layers, path) ==> KindAt(Fold(base, layers), path) == KindAt(base, path)
    ensures forall i: nat :: LastCover(layers, path, i) ==> KindAt(Fold(base, layers), path) == KindAt(layers[i], path)
    ensures Covers(Fold(base, layers), path) ==> Covers(base, path) || AnyCovers(layers, path)
    decreases |layers|
  {
    if layers != [] {
      var front, last := layers[..|layers| - 1], layers[|layers| - 1];
      FoldKind(base, front, path);
      MergeKind(Fold(base, front), last, path);
      assert Fold(base, layers) == Merge(Fold(base, front), last);
      hide Fold, Merge, Covers, KindAt;
      LastCoverOfMore(layers, path);
    }
  }

  /** The last cover of some layers is the last layer when that covers, and otherwise the last cover of the others. */
  lemma LastCoverOfMore(layers: seq<Value>, path: Path)
    requires layers != []
    ensures
      var front, last := layers[..|layers| - 1], |layers| - 1;
      && (AnyCovers(layers, path) <==> AnyCovers(front, path) || Covers(layers[last], path))
      && (Covers(layers[last], path) ==> forall i: nat :: LastCover(layers, path, i) ==> i == last)
      && (!Covers(layers[last], path) ==>
            forall i: nat :: LastCover(layers, path, i) ==> LastCover(front, path, i) && layers[i] == front[i])
  {
    hide Covers;
    var front := layers[..|layers| - 1];
    assert forall j :: 0 <= j < |front| ==> layers[j] == front[j];
  }

  lemma LastCoverExists(layers: seq<Value>, path: Path) returns (i: nat)
    requires AnyCovers(layers, path)
    ensures LastCover(layers, path, i)
  {
    i := |layers| - 1;
    while !Covers(layers[i], path)
      invariant i < |layers|
      invariant forall j :: i < j < |layers| ==> !Covers(layers[j], path)
      decreases i
    {
      assert exists k :: 0 <= k < i && Covers(layers[k], path);
      i := i - 1;
    }
  }

  lemma {:induction false} TablesFoldToATable(layers: seq<Value>)
    requires forall layer <- layers :: layer.Table?
    ensures Fold(EMPTY, layers).Table?
    decreases |layers|
  {
    if layers != [] {
      TablesFoldToATable(layers[..|layers| - 1]);
      assert layers[|layers| - 1] in layers;
    }
  }

  /** Whatever the first group has that some layer of the second overrides, the second group as a whole overrides too. */
  ghost predicate GroupOverrides(xs: seq<Value>, ys: seq<Value>) {
    forall path: Path ::
      KindAt(Fold(EMPTY, xs), path) != Absent && AnyCovers(ys, path) ==> Covers(Fold(EMPTY, ys), path)
  }

  lemma EmptyKind(path: Path)
    ensures KindAt(EMPTY, path) == if path == [] then SomeTable else Absent
    ensures Covers(EMPTY, path) <==> path == []
  {}

  /** One path of the two ways of merging: they part exactly where the second group lost its own override. */
  lemma PathOfBoth(xs: seq<Value>, ys: seq<Value>, path: Path)
    requires forall layer <- xs + ys :: layer.Table?
    ensures
      var first, second := Fold(EMPTY, xs), Fold(EMPTY, ys);
      KindAt(Fold(EMPTY, xs + ys), path) == KindAt(Merge(first, second), path) <==>
      (KindAt(first, path) != Absent && AnyCovers(ys, path) ==> Covers(second, path))
  {
    var first, second := Fold(EMPTY, xs), Fold(EMPTY, ys);
    FoldConcat(EMPTY, xs, ys);
    FoldKind(first, ys, path);
    FoldKind(EMPTY, ys, path);
    MergeKind(first, second, path);
    EmptyKind(path);
    assert forall layer <- xs :: layer in xs + ys;
    assert forall layer <- ys :: layer in xs + ys;
    TablesFoldToATable(xs);
    TablesFoldToATable(ys);
    hide Fold, Merge, Covers, Get, LastCover;
    if AnyCovers(ys, path) {
      var i := LastCoverExists(ys, path);
      assert KindAt(second, path) == KindAt(Fold(first, ys), path);
      if !Covers(second, path) && KindAt(second, path) != Absent {
        PresentIsCovered(second, path);
      }
    } else if path == [] {
      RootKinds(first, second);
    }
  }

  lemma RootKinds(v: Value, w: Value)
    requires v.Table? && w.Table?
    ensures KindAt(v, []) == KindAt(w, []) == SomeTable && Covers(w, [])
  {}

  /**
   * For any number of tables, merging the later ones first and the result over the earlier ones is the
   * same as merging all in turn if and only if, wherever a later layer overrides something of the
   * earlier ones, the later group does.
   */
  lemma RegroupingAnyLayersIsSoundExactly(xs: seq<Value>, ys: seq<Value>)
    requires forall layer <- xs + ys :: layer.Table?
    ensures Fold(EMPTY, xs + ys) == Merge(Fold(EMPTY, xs), Fold(EMPTY, ys)) <==> GroupOverrides(xs, ys)
  {
    var all, grouped := Fold(EMPTY, xs + ys), Merge(Fold(EMPTY, xs), Fold(EMPTY, ys));
    forall path: Path
      ensures KindAt(all, path) == KindAt(grouped, path) <==>
              (KindAt(Fold(EMPTY, xs), path) != Absent && AnyCovers(ys, path) ==> Covers(Fold(EMPTY, ys), path))
    {
      PathOfBoth(xs, ys, path);
    }
    if GroupOverrides(xs, ys) {
      KindsDecide(all, grouped);
    }
  }

  // ---------------------------------------------------------------------------------------------
  // A condition on the layers alone
  // ---------------------------------------------------------------------------------------------

  /** No layer puts a leaf where an earlier and a later one both have a table. */
  ghost predicate ClashFree(layers: seq<Value>) {
    forall i, j, k, path: Path ::
      0 <= i < j < k < |layers| ==> !Clash(layers[i], layers[j], layers[k], path)
  }

  /** A covered path is absent only under a leaf. */
  lemma {:induction false} CoveredButAbsent(value: Value, path: Path) returns (n: nat)
    requires Covers(value, path) && KindAt(value, path) == Absent
    ensures n < |path| && KindAt(value, path[..n]).LeafOf?
    decreases |path|
  {
    if value.Leaf? {
      n := 0;
    } else {
      var m := CoveredButAbsent(value.entries[path[0]], path[1..]);
      n := m + 1;
      assert path[..n] == [path[0]] + path[1..][..m];
      KindUnder(value, path[0], path[1..][..m]);
    }
  }

  /** Above anything that is there stands a table, and above anything a leaf covers. */
  lemma {:induction false} AboveIsATable(value: Value, path: Path, n: nat)
    requires n < |path|
    ensures KindAt(value, path) != Absent ==> KindAt(value, path[..n]) == SomeTable
    ensures KindAt(value, path[..n]).LeafOf? ==> Covers(value, path)
    ensures Covers(value, path) ==> Covers(value, path[..n])
    ensures Covers(value, path[..n]) && !Covers(value, path) ==> KindAt(value, path[..n]) == SomeTable
    decreases n
  {
    if n > 0 && value.Table? && path[0] in value.entries {
      assert path[..n] == [path[0]] + path[1..][..n - 1];
      assert path[..n][0] == path[0] && path[..n][1..] == path[1..][..n - 1];
      AboveIsATable(value.entries[path[0]], path[1..], n - 1);
    }
  }

  /** A fold of tables has a table at a path below the root only where some layer has one. */
  lemma TableComesFromALayer(layers: seq<Value>, path: Path) returns (i: nat)
    requires path != [] && KindAt(Fold(EMPTY, layers), path) == SomeTable
    ensures i < |layers| && KindAt(layers[i], path) == SomeTable
  {
    FoldKind(EMPTY, layers, path);
    EmptyKind(path);
    i := LastCoverExists(layers, path);
  }

  /** A group loses an override of one of its layers only to a leaf above it that a later layer made a table. */
  lemma LostOverride(ys: seq<Value>, path: Path) returns (i: nat, k: nat, n: nat)
    requires forall layer <- ys :: layer.Table?
    requires AnyCovers(ys, path) && !Covers(Fold(EMPTY, ys), path)
    ensures 0 < n < |path| && i < k < |ys|
    ensures KindAt(ys[i], path[..n]).LeafOf? && KindAt(ys[k], path[..n]) == SomeTable
  {
    var second := Fold(EMPTY, ys);
    i := LastCoverExists(ys, path);
    FoldKind(EMPTY, ys, path);
    if KindAt(second, path) != Absent {
      PresentIsCovered(second, path);
    }
    n := CoveredButAbsent(ys[i], path);
    AboveIsATable(ys[i], path, n);
    k := LastCoverExists(ys, path[..n]);
    FoldKind(EMPTY, ys, path[..n]);
    AboveIsATable(second, path, n);
    AboveIsATable(ys[k], path, n);
    assert ys[i] in ys;
    assert n > 0 by { RootIsATable(ys[i], path); }
    hide Fold, Covers, KindAt, Get;
  }

  lemma RootIsATable(value: Value, path: Path)
    requires value.Table?
    ensures !KindAt(value, path[..0]).LeafOf?
  {}

  lemma LostOverrideClashes(xs: seq<Value>, ys: seq<Value>, path: Path)
    requires forall layer <- xs + ys :: layer.Table?
    requires KindAt(Fold(EMPTY, xs), path) != Absent && AnyCovers(ys, path) && !Covers(Fold(EMPTY, ys), path)
    ensures !ClashFree(xs + ys)
  {
    hide Fold, Covers;
    assert forall layer <- ys :: layer in xs + ys;
    var i, k, n := LostOverride(ys, path);
    AboveIsATable(Fold(EMPTY, xs), path, n);
    var h := TableComesFromALayer(xs, path[..n]);
    var all := xs + ys;
    assert all[h] == xs[h] && all[|xs| + i] == ys[i] && all[|xs| + k] == ys[k];
    assert Clash(all[h], all[|xs| + i], all[|xs| + k], path[..n]);
  }

  /** Layers without such a clash may be merged in any two groups. */
  lemma ClashFreeLayersRegroup(xs: seq<Value>, ys: seq<Value>)
    requires (forall layer <- xs + ys :: layer.Table?) && ClashFree(xs + ys)
    ensures Fold(EMPTY, xs + ys) == Merge(Fold(EMPTY, xs), Fold(EMPTY, ys))
  {
    forall path: Path | KindAt(Fold(EMPTY, xs), path) != Absent && AnyCovers(ys, path)
      ensures Covers(Fold(EMPTY, ys), path)
    {
      if !Covers(Fold(EMPTY, ys), path) {
        LostOverrideClashes(xs, ys, path);
      }
    }
    RegroupingAnyLayersIsSoundExactly(xs, ys);
  }
}
