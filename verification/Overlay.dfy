/**
 * Layered documents: tables merge recursively, every other value replaces what it lands on.
 *
 * The same tree serves the catalog's TOML layers and the codecs' JSON objects; an array is a leaf,
 * because merging never looks inside one.
 */
module Overlay {
  import opened Wrappers

  datatype Scalar = Flag(on: bool) | Verbatim(text: string)

  datatype Value = Leaf(scalar: Scalar) | Table(entries: map<string, Value>)

  type Path = seq<string>

  function Merge(base: Value, overlay: Value): Value
    decreases overlay
  {
    if base.Leaf? || overlay.Leaf? then overlay
    else
      Table(map key | key in base.entries.Keys + overlay.entries.Keys ::
              if key !in overlay.entries then base.entries[key]
              else if key !in base.entries then overlay.entries[key]
              else Merge(base.entries[key], overlay.entries[key]))
  }

  /** The merge as the loader performs it: a walk over the overlay's keys that edits the base. */
  method MergeInto(base: Value, overlay: Value) returns (merged: Value)
    ensures merged == Merge(base, overlay)
    decreases overlay
  {
    if base.Leaf? || overlay.Leaf? {
      return overlay;
    }
    var entries := base.entries;
    var pending := overlay.entries.Keys;
    while pending != {}
      invariant pending <= overlay.entries.Keys
      invariant entries.Keys == base.entries.Keys + (overlay.entries.Keys - pending)
      invariant forall key <- entries ::
        entries[key] == if key in overlay.entries && key !in pending
                        then Merge(base, overlay).entries[key]
                        else base.entries[key]
    {
      var key :| key in pending;
      var value := overlay.entries[key];
      if key in entries {
        var existing := MergeInto(entries[key], value);
        entries := entries[key := existing];
      } else {
        entries := entries[key := value];
      }
      pending := pending - {key};
    }
    merged := Table(entries);
  }

  /** The value a key path reaches. */
  function Get(value: Value, path: Path): Option<Value> {
    if path == [] then Some(value)
    else if value.Leaf? || path[0] !in value.entries then None
    else Get(value.entries[path[0]], path[1..])
  }

  lemma GetTop(value: Value, key: string)
    ensures Get(value, [key]) == if value.Table? && key in value.entries then Some(value.entries[key]) else None
  {}

  predicate HasLeaf(value: Value, path: Path, scalar: Scalar) {
    Get(value, path) == Some(Leaf(scalar))
  }

  /** Whether an overlay sets `path` or replaces one of its ancestors. */
  predicate Covers(overlay: Value, path: Path) {
    path == [] || overlay.Leaf? ||
    (path[0] in overlay.entries && Covers(overlay.entries[path[0]], path[1..]))
  }

  /** An overlay covers a path exactly when it reaches it, or has a leaf somewhere on the way to it. */
  lemma {:induction false} CoversExactly(overlay: Value, path: Path)
    ensures Covers(overlay, path) <==>
            || Get(overlay, path).Some?
            || exists k :: 0 <= k <= |path| && Get(overlay, path[..k]).Some? && Get(overlay, path[..k]).value.Leaf?
    decreases |path|
  {
    if overlay.Leaf? {
      assert Get(overlay, path[..0]) == Some(overlay);
    } else if path != [] && path[0] in overlay.entries {
      var rest, tail := overlay.entries[path[0]], path[1..];
      CoversExactly(rest, tail);
      forall k | 0 <= k <= |tail|
        ensures Get(overlay, path[..k + 1]) == Get(rest, tail[..k])
      {
        assert path[..k + 1][1..] == tail[..k];
      }
      if k :| 0 <= k <= |tail| && Get(rest, tail[..k]).Some? && Get(rest, tail[..k]).value.Leaf? {
        assert Get(overlay, path[..k + 1]).value.Leaf?;
      }
      if k :| 0 <= k <= |path| && Get(overlay, path[..k]).Some? && Get(overlay, path[..k]).value.Leaf? {
        assert k > 0 && Get(rest, tail[..k - 1]).value.Leaf?;
      }
    }
  }

  // ---------------------------------------------------------------------------------------------
  // Two layers
  // ---------------------------------------------------------------------------------------------

  /** The exact pointwise law of one merge: the overlay decides the paths it covers, the base the rest. */
  lemma {:induction false} MergeLaw(base: Value, overlay: Value, path: Path, scalar: Scalar)
    ensures HasLeaf(Merge(base, overlay), path, scalar) <==>
            HasLeaf(if Covers(overlay, path) then overlay else base, path, scalar)
    decreases |path|
  {
    if path != [] && base.Table? && overlay.Table? {
      var key := path[0];
      var merged := Merge(base, overlay);
      assert key in merged.entries <==> key in base.entries || key in overlay.entries;
      if key !in overlay.entries {
        assert key in base.entries ==> merged.entries[key] == base.entries[key];
      } else if key !in base.entries {
        if HasLeaf(overlay.entries[key], path[1..], scalar) {
          CoveredLeaf(overlay.entries[key], path[1..], scalar);
        }
      } else {
        MergeLaw(base.entries[key], overlay.entries[key], path[1..], scalar);
      }
    } else if HasLeaf(overlay, path, scalar) {
      CoveredLeaf(overlay, path, scalar);
    }
  }

  lemma {:induction false} CoveredLeaf(value: Value, path: Path, scalar: Scalar)
    requires HasLeaf(value, path, scalar)
    ensures Covers(value, path)
    decreases |path|
  {
    if path != [] {
      CoveredLeaf(value.entries[path[0]], path[1..], scalar);
    }
  }

  lemma {:induction false} MergeWithSelf(base: Value, overlay: Value)
    ensures Merge(Merge(base, overlay), overlay) == Merge(base, overlay)
    decreases overlay
  {
    if base.Table? && overlay.Table? {
      var once := Merge(base, overlay);
      forall key | key in once.entries && key in overlay.entries
        ensures Merge(once.entries[key], overlay.entries[key]) == once.entries[key]
      {
        if key in base.entries {
          MergeWithSelf(base.entries[key], overlay.entries[key]);
        } else {
          MergeSame(overlay.entries[key]);
        }
      }
      assert Merge(once, overlay).entries == once.entries;
    } else {
      MergeSame(overlay);
    }
  }

  lemma {:induction false} MergeSame(value: Value)
    ensures Merge(value, value) == value
    decreases value
  {
    if value.Table? {
      forall key | key in value.entries
        ensures Merge(value.entries[key], value.entries[key]) == value.entries[key]
      {
        MergeSame(value.entries[key]);
      }
      assert Merge(value, value).entries == value.entries;
    }
  }

  // ---------------------------------------------------------------------------------------------
  // Any number of layers
  // ---------------------------------------------------------------------------------------------

  function Fold(base: Value, layers: seq<Value>): Value {
    if layers == [] then base
    else Merge(Fold(base, layers[..|layers| - 1]), layers[|layers| - 1])
  }

  /** The last layer that covers a path. */
  predicate LastCover(layers: seq<Value>, path: Path, i: nat) {
    && i < |layers| && Covers(layers[i], path)
    && forall j :: i < j < |layers| ==> !Covers(layers[j], path)
  }

  /**
   * The exact law of a fold of any number of layers over the empty document: it has a leaf at a path
   * if and only if the last layer covering that path has that leaf exactly there.
   */
  lemma {:induction false} FoldLaw(layers: seq<Value>, path: Path, scalar: Scalar)
    ensures HasLeaf(Fold(Table(map[]), layers), path, scalar) <==>
            exists i: nat :: LastCover(layers, path, i) && HasLeaf(layers[i], path, scalar)
    decreases |layers|
  {
    if layers == [] {
      assert !HasLeaf(Table(map[]), path, scalar);
    } else {
      var front, last := layers[..|layers| - 1], layers[|layers| - 1];
      FoldLaw(front, path, scalar);
      MergeLaw(Fold(Table(map[]), front), last, path, scalar);
      if Covers(last, path) {
        assert LastCover(layers, path, |layers| - 1);
      } else {
        forall i: nat
          ensures LastCover(layers, path, i) <==> LastCover(front, path, i)
        {
          assert forall j :: 0 <= j < |front| ==> layers[j] == front[j];
        }
      }
    }
  }

  lemma {:induction false} FoldConcat(base: Value, xs: seq<Value>, ys: seq<Value>)
    ensures Fold(base, xs + ys) == Fold(Fold(base, xs), ys)
    decreases |ys|
  {
    if ys == [] {
      assert xs + ys == xs;
    } else {
      var front := ys[..|ys| - 1];
      assert (xs + ys)[..|xs + ys| - 1] == xs + front;
      FoldConcat(base, xs, front);
    }
  }

  /** The same law over any base: the last covering layer decides a path, and the base those no layer covers. */
  lemma {:induction false} FoldLawFrom(base: Value, layers: seq<Value>, path: Path, scalar: Scalar)
    ensures forall i: nat :: LastCover(layers, path, i) ==>
              (HasLeaf(Fold(base, layers), path, scalar) <==> HasLeaf(layers[i], path, scalar))
    ensures (forall i: nat :: !LastCover(layers, path, i)) ==>
              (HasLeaf(Fold(base, layers), path, scalar) <==> HasLeaf(base, path, scalar))
    decreases |layers|
  {
    if layers != [] {
      var front, last := layers[..|layers| - 1], layers[|layers| - 1];
      FoldLawFrom(base, front, path, scalar);
      MergeLaw(Fold(base, front), last, path, scalar);
      if Covers(last, path) {
        assert LastCover(layers, path, |layers| - 1);
      } else {
        forall i: nat
          ensures LastCover(layers, path, i) <==> LastCover(front, path, i)
        {
          assert forall j :: 0 <= j < |front| ==> layers[j] == front[j];
        }
      }
    }
  }

  // ---------------------------------------------------------------------------------------------
  // Regrouping
  // ---------------------------------------------------------------------------------------------

  /** Every path that exists in `base` is covered by `overlay`. */
  ghost predicate Absorbs(overlay: Value, base: Value) {
    forall path: Path :: Get(base, path).Some? ==> Covers(overlay, path)
  }

  lemma GetUnder(value: Value, key: string, path: Path)
    requires value.Table? && key in value.entries
    ensures Get(value, [key] + path) == Get(value.entries[key], path)
    ensures Covers(value, [key] + path) == Covers(value.entries[key], path)
  {}

  lemma AbsorbsEntry(overlay: Value, base: Value, key: string)
    requires overlay.Table? && base.Table? && Absorbs(overlay, base) && key in base.entries
    ensures key in overlay.entries && Absorbs(overlay.entries[key], base.entries[key])
  {
    GetUnder(base, key, []);
    assert [key] + [] == [key];
    assert Covers(overlay, [key]);
    forall path: Path | Get(base.entries[key], path).Some?
      ensures Covers(overlay.entries[key], path)
    {
      GetUnder(base, key, path);
      GetUnder(overlay, key, path);
    }
  }

  lemma {:induction false} AbsorbedBaseDisappears(base: Value, overlay: Value)
    requires Absorbs(overlay, base)
    ensures Merge(base, overlay) == overlay
    decreases overlay
  {
    if base.Table? && overlay.Table? {
      forall key | key in base.entries
        ensures key in overlay.entries && Merge(base.entries[key], overlay.entries[key]) == overlay.entries[key]
      {
        AbsorbsEntry(overlay, base, key);
        AbsorbedBaseDisappears(base.entries[key], overlay.entries[key]);
      }
      assert Merge(base, overlay).entries == overlay.entries;
    }
  }

  lemma {:induction false} DisappearingBaseIsAbsorbed(base: Value, overlay: Value, path: Path)
    requires Merge(base, overlay) == overlay && Get(base, path).Some?
    ensures Covers(overlay, path)
    decreases |path|
  {
    if path != [] && overlay.Table? {
      var key := path[0];
      assert key in Merge(base, overlay).entries;
      assert Merge(base, overlay).entries[key] == Merge(base.entries[key], overlay.entries[key]);
      DisappearingBaseIsAbsorbed(base.entries[key], overlay.entries[key], path[1..]);
    }
  }

  /** A table, then a leaf, then a table, all at one path. */
  predicate Clash(a: Value, b: Value, c: Value, path: Path) {
    && Get(a, path).Some? && Get(a, path).value.Table?
    && Get(b, path).Some? && Get(b, path).value.Leaf?
    && Get(c, path).Some? && Get(c, path).value.Table?
  }

  /** Wherever the middle layer puts a leaf between two tables, the last layer covers the first. */
  ghost predicate Regroupable(a: Value, b: Value, c: Value) {
    forall path: Path :: Clash(a, b, c, path) ==> Absorbs(Get(c, path).value, Get(a, path).value)
  }

  lemma ClashUnder(a: Value, b: Value, c: Value, key: string, path: Path)
    requires a.Table? && b.Table? && c.Table?
    requires key in a.entries && key in b.entries && key in c.entries
    ensures Clash(a, b, c, [key] + path) == Clash(a.entries[key], b.entries[key], c.entries[key], path)
    ensures Get(a, [key] + path) == Get(a.entries[key], path)
    ensures Get(c, [key] + path) == Get(c.entries[key], path)
  {}

  /** The entries every one of the three documents has decide the regrouping of three tables. */
  lemma RegroupableByEntry(a: Value, b: Value, c: Value)
    requires a.Table? && b.Table? && c.Table?
    ensures Regroupable(a, b, c) <==>
            forall key :: key in a.entries && key in b.entries && key in c.entries ==>
              Regroupable(a.entries[key], b.entries[key], c.entries[key])
  {
    if Regroupable(a, b, c) {
      forall key, path: Path |
        key in a.entries && key in b.entries && key in c.entries
        && Clash(a.entries[key], b.entries[key], c.entries[key], path)
        ensures Absorbs(Get(c.entries[key], path).value, Get(a.entries[key], path).value)
      {
        ClashUnder(a, b, c, key, path);
      }
    }
    if forall key :: key in a.entries && key in b.entries && key in c.entries ==>
         Regroupable(a.entries[key], b.entries[key], c.entries[key])
    {
      forall path: Path | Clash(a, b, c, path)
        ensures Absorbs(Get(c, path).value, Get(a, path).value)
      {
        assert path != [];
        ClashUnder(a, b, c, path[0], path[1..]);
        assert [path[0]] + path[1..] == path;
      }
    }
  }

  /** One entry of each grouping of three tables. */
  lemma GroupedEntry(a: Value, b: Value, c: Value, key: string)
    requires a.Table? && b.Table? && c.Table?
    ensures var left := Merge(Merge(a, b), c);
            var right := Merge(a, Merge(b, c));
            && (key in left.entries <==> key in right.entries)
            && (key in left.entries && !(key in a.entries && key in b.entries && key in c.entries) ==>
                  left.entries[key] == right.entries[key])
            && (key in a.entries && key in b.entries && key in c.entries ==>
                  key in left.entries
                  && left.entries[key] == Merge(Merge(a.entries[key], b.entries[key]), c.entries[key])
                  && right.entries[key] == Merge(a.entries[key], Merge(b.entries[key], c.entries[key])))
  {}

  /**
   * Merging is not associative, and this is exactly when it is: regrouping three layers is sound if
   * and only if, wherever the middle layer puts a leaf where both neighbours have tables, the last
   * layer covers everything the first one has there.
   */
  lemma {:induction false} RegroupingIsSoundExactly(a: Value, b: Value, c: Value)
    ensures Merge(Merge(a, b), c) == Merge(a, Merge(b, c)) <==> Regroupable(a, b, c)
    decreases c
  {
    if a.Leaf? || c.Leaf? {
      assert forall path: Path :: path != [] && Clash(a, b, c, path) ==> a.Table? && c.Table?;
    } else if b.Leaf? {
      assert Clash(a, b, c, []);
      assert forall path: Path :: Clash(a, b, c, path) ==> path == [];
      if Absorbs(c, a) {
        AbsorbedBaseDisappears(a, c);
      }
      if Merge(a, c) == c {
        forall path: Path | Get(a, path).Some?
          ensures Covers(c, path)
        {
          DisappearingBaseIsAbsorbed(a, c, path);
        }
      }
    } else {
      RegroupTables(a, b, c);
    }
  }

  lemma {:induction false} RegroupTables(a: Value, b: Value, c: Value)
    requires a.Table? && b.Table? && c.Table?
    ensures Merge(Merge(a, b), c) == Merge(a, Merge(b, c)) <==> Regroupable(a, b, c)
    decreases c, 0
  {
    var left, right := Merge(Merge(a, b), c), Merge(a, Merge(b, c));
    RegroupableByEntry(a, b, c);
    forall key | key in a.entries && key in b.entries && key in c.entries
      ensures key in left.entries && key in right.entries
      ensures left.entries[key] == right.entries[key] <==>
              Regroupable(a.entries[key], b.entries[key], c.entries[key])
    {
      GroupedEntry(a, b, c, key);
      RegroupingIsSoundExactly(a.entries[key], b.entries[key], c.entries[key]);
    }
    forall key
      ensures key in left.entries <==> key in right.entries
      ensures key in left.entries && !(key in a.entries && key in b.entries && key in c.entries) ==>
                left.entries[key] == right.entries[key]
    {
      GroupedEntry(a, b, c, key);
    }
    if Regroupable(a, b, c) {
      assert left.entries == right.entries;
    }
  }

  /** A clash that is not covered: the two groupings differ. */
  lemma RegroupingCanFail(x: Scalar, y: Scalar)
    ensures var a := Table(map["k" := Table(map["inner" := Leaf(x)])]);
            var b := Table(map["k" := Leaf(y)]);
            var c := Table(map["k" := Table(map[])]);
            Merge(Merge(a, b), c) == c && Merge(a, Merge(b, c)) == a && a != c
  {
    var a := Table(map["k" := Table(map["inner" := Leaf(x)])]);
    var b := Table(map["k" := Leaf(y)]);
    var c := Table(map["k" := Table(map[])]);
    assert Merge(a, b).entries == b.entries;
    assert Merge(b, c).entries == c.entries;
    assert Merge(a.entries["k"], c.entries["k"]).entries == a.entries["k"].entries;
    assert Merge(a, c).entries == a.entries;
    assert "inner" in a.entries["k"].entries;
  }
}
