/**
 * Raw provider options: catalog defaults, then the request's own options, then the encoded body
 * they are merged over, with the control keys taken out on the way.
 */
module Options {
  import opened Wrappers
  import opened Overlay

  const CONTROL_KEYS: seq<string> := ["auto_cache"]

  /** Codec behaviour selected by control keys; a control of the wrong type keeps its default. */
  datatype Controls = Controls(autoCache: bool)

  /** What a merge puts under one of the overlay's keys. */
  function MergedEntry(body: map<string, Value>, options: map<string, Value>, key: string): Value
    requires key in options
  {
    if key in body then Merge(body[key], options[key]) else options[key]
  }

  /** Merges options over an object by taking each key out of it and putting the result back. */
  method MergeOptions(body: map<string, Value>, options: map<string, Value>) returns (merged: map<string, Value>)
    ensures Table(merged) == Merge(Table(body), Table(options))
    decreases Table(options)
  {
    hide Merge;
    merged := body;
    var pending := options.Keys;
    while pending != {}
      invariant pending <= options.Keys
      invariant merged.Keys == body.Keys + (options.Keys - pending)
      invariant forall key <- merged ::
        merged[key] == if key in options && key !in pending then MergedEntry(body, options, key) else body[key]
    {
      var key :| key in pending;
      var value := options[key];
      if key in body && !(body[key].Table? && value.Table?) {
        LeafReplaces(body[key], value);
      }
      var encoded := if key in merged then Some(merged[key]) else None;
      merged := merged - {key};
      if encoded.Some? && encoded.value.Table? && value.Table? {
        var inner := MergeOptions(encoded.value.entries, value.entries);
        value := Table(inner);
      }
      merged := merged[key := value];
      pending := pending - {key};
    }
    MergedTable(body, options, merged);
  }

  lemma LeafReplaces(base: Value, overlay: Value)
    requires base.Leaf? || overlay.Leaf?
    ensures Merge(base, overlay) == overlay
  {}

  lemma MergedTable(body: map<string, Value>, options: map<string, Value>, merged: map<string, Value>)
    requires merged.Keys == body.Keys + options.Keys
    requires forall key <- merged ::
               merged[key] == if key in options then MergedEntry(body, options, key) else body[key]
    ensures Table(merged) == Merge(Table(body), Table(options))
  {}

  /** Takes the control keys out of one option namespace. */
  method SplitControls(options: map<string, Value>) returns (wire: map<string, Value>, controls: Controls)
    ensures wire == options - (set key | key in CONTROL_KEYS)
    ensures controls.autoCache ==
            !("auto_cache" in options && options["auto_cache"] == Leaf(Flag(false)))
  {
    wire := options;
    var consumed: map<string, Value> := map[];
    for i := 0 to |CONTROL_KEYS|
      invariant wire == options - (set key | key in CONTROL_KEYS[..i])
      invariant consumed == map key | key in options && key in CONTROL_KEYS[..i] :: options[key]
    {
      var key := CONTROL_KEYS[i];
      assert CONTROL_KEYS[..i + 1] == CONTROL_KEYS[..i] + [key];
      if key in wire {
        consumed := consumed[key := wire[key]];
        wire := wire - {key};
      }
    }
    assert CONTROL_KEYS[..|CONTROL_KEYS|] == CONTROL_KEYS;
    assert CONTROL_KEYS[0] == "auto_cache";
    controls := Controls(true);
    if "auto_cache" in consumed && consumed["auto_cache"].Leaf? && consumed["auto_cache"].scalar.Flag? {
      controls := Controls(consumed["auto_cache"].scalar.on);
    }
  }

  /** An option namespace, empty when the request says nothing for the provider. */
  function Namespace(options: Option<map<string, Value>>): Value {
    Table(options.GetOr(map[]))
  }

  function WithoutControls(options: Value): Value
    requires options.Table?
  {
    Table(options.entries - (set key | key in CONTROL_KEYS))
  }

  lemma MergeEmpty(value: Value)
    requires value.Table?
    ensures Merge(value, Table(map[])) == value
  {}

  /** The provider's default options with the request's own merged over them, controls removed. */
  method WireOptions(defaults: map<string, Value>, request: Option<map<string, Value>>)
    returns (wire: map<string, Value>, controls: Controls)
    ensures Table(wire) == WithoutControls(Merge(Table(defaults), Namespace(request)))
    ensures controls.autoCache <==>
            !(if request.Some? && "auto_cache" in request.value then request.value["auto_cache"] == Leaf(Flag(false))
              else "auto_cache" in defaults && defaults["auto_cache"] == Leaf(Flag(false)))
    ensures "auto_cache" !in wire
    ensures request.None? ==> wire == defaults - {"auto_cache"}
    ensures request.Some? ==> Carries(wire, defaults, request.value)
  {
    if request.Some? {
      WireCarries(defaults, request.value);
    }
    var options := defaults;
    if request.Some? {
      options := MergeOptions(options, request.value);
    } else {
      MergeEmpty(Table(defaults));
    }
    wire, controls := SplitControls(options);
    assert options == Merge(Table(defaults), Namespace(request)).entries;
    assert wire == options - {"auto_cache"};
  }

  /**
   * Away from the control key, options carry every leaf of the request at its path, and every default
   * leaf at a path the request neither sets nor replaces.
   */
  ghost predicate Carries(options: map<string, Value>, defaults: map<string, Value>, request: map<string, Value>) {
    && (forall path: Path, scalar ::
          path != [] && path[0] != "auto_cache" && HasLeaf(Table(request), path, scalar) ==>
            HasLeaf(Table(options), path, scalar))
    && (forall path: Path, scalar ::
          path != [] && path[0] != "auto_cache" && HasLeaf(Table(defaults), path, scalar) && !Covers(Table(request), path) ==>
            HasLeaf(Table(options), path, scalar))
  }

  lemma WireCarries(defaults: map<string, Value>, request: map<string, Value>)
    ensures Carries(Merge(Table(defaults), Table(request)).entries - {"auto_cache"}, defaults, request)
  {
    var merged := Merge(Table(defaults), Table(request));
    var wire := Table(merged.entries - {"auto_cache"});
    forall path: Path, scalar | path != [] && path[0] != "auto_cache"
      ensures HasLeaf(Table(request), path, scalar) ==> HasLeaf(wire, path, scalar)
      ensures HasLeaf(Table(defaults), path, scalar) && !Covers(Table(request), path) ==> HasLeaf(wire, path, scalar)
    {
      assert HasLeaf(wire, path, scalar) <==> HasLeaf(merged, path, scalar);
      MergeLaw(Table(defaults), Table(request), path, scalar);
      if HasLeaf(Table(request), path, scalar) {
        CoveredLeaf(Table(request), path, scalar);
      }
    }
  }

  /** The body a codec sends: its encoded fields with the wire options merged over them. */
  function Final(body: Value, defaults: Value, request: Value): Value
    requires defaults.Table? && request.Table?
  {
    Merge(body, WithoutControls(Merge(defaults, request)))
  }

  method EncodeBody(body: map<string, Value>, defaults: map<string, Value>, request: Option<map<string, Value>>)
    returns (sent: map<string, Value>)
    ensures Table(sent) == Final(Table(body), Table(defaults), Namespace(request))
    ensures request.Some? ==> Carries(sent, defaults, request.value)
    ensures request.None? ==> Carries(sent, defaults, map[])
    ensures KeepsUncovered(sent, body, defaults, request.GetOr(map[]))
    ensures "auto_cache" in sent <==> "auto_cache" in body
    ensures "auto_cache" in sent ==> sent["auto_cache"] == body["auto_cache"]
  {
    SentCarries(body, defaults, request.GetOr(map[]));
    ControlStaysTheBodys(body, defaults, request.GetOr(map[]));
    hide Final, Carries, KeepsUncovered;
    var wire, _ := WireOptions(defaults, request);
    sent := MergeOptions(body, wire);
    assert Table(sent) == Final(Table(body), Table(defaults), Namespace(request)) by { FinalIs(body, defaults, request, wire); }
  }

  lemma FinalIs(body: map<string, Value>, defaults: map<string, Value>, request: Option<map<string, Value>>, wire: map<string, Value>)
    requires Table(wire) == WithoutControls(Merge(Table(defaults), Namespace(request)))
    ensures Final(Table(body), Table(defaults), Namespace(request)) == Merge(Table(body), Table(wire))
  {}

  /** The encoded body keeps every leaf that neither the request nor the defaults set or replace, and all it has under the control key. */
  ghost predicate KeepsUncovered(
    sent: map<string, Value>, body: map<string, Value>, defaults: map<string, Value>, request: map<string, Value>)
  {
    forall path: Path, scalar ::
      HasLeaf(Table(body), path, scalar) && path != []
      && (path[0] == "auto_cache" || (!Covers(Table(request), path) && !Covers(Table(defaults), path))) ==>
        HasLeaf(Table(sent), path, scalar)
  }

  lemma SentCarries(body: map<string, Value>, defaults: map<string, Value>, request: map<string, Value>)
    ensures
      var sent := Final(Table(body), Table(defaults), Table(request)).entries;
      Carries(sent, defaults, request) && KeepsUncovered(sent, body, defaults, request)
  {
    var sent := Final(Table(body), Table(defaults), Table(request));
    hide Final, Covers;
    forall path: Path, scalar | path != []
      ensures path[0] != "auto_cache" && HasLeaf(Table(request), path, scalar) ==> HasLeaf(sent, path, scalar)
      ensures path[0] != "auto_cache" && HasLeaf(Table(defaults), path, scalar) && !Covers(Table(request), path) ==>
                HasLeaf(sent, path, scalar)
      ensures HasLeaf(Table(body), path, scalar)
              && (path[0] == "auto_cache" || (!Covers(Table(request), path) && !Covers(Table(defaults), path))) ==>
                HasLeaf(sent, path, scalar)
    {
      assert UnderControl(path) <==> path[0] == "auto_cache";
      if UnderControl(path) {
        ControlPathsKeepTheBody(Table(body), Table(defaults), Table(request), path, scalar);
      } else {
        PrecedenceHolds(Table(body), Table(defaults), Table(request), path, scalar);
      }
    }
  }

  lemma ControlStaysTheBodys(body: map<string, Value>, defaults: map<string, Value>, request: map<string, Value>)
    ensures
      var sent := Final(Table(body), Table(defaults), Table(request)).entries;
      && ("auto_cache" in sent <==> "auto_cache" in body)
      && ("auto_cache" in sent ==> sent["auto_cache"] == body["auto_cache"])
  {
    assert "auto_cache" in CONTROL_KEYS;
  }

  // ---------------------------------------------------------------------------------------------
  // Precedence
  // ---------------------------------------------------------------------------------------------

  predicate UnderControl(path: Path) {
    path != [] && path[0] in CONTROL_KEYS
  }

  lemma ControlsAreConsumed(options: Value, path: Path, scalar: Scalar)
    requires options.Table? && path != []
    ensures UnderControl(path) ==> !Covers(WithoutControls(options), path)
    ensures !UnderControl(path) ==>
              (Covers(WithoutControls(options), path) <==> Covers(options, path))
              && (HasLeaf(WithoutControls(options), path, scalar) <==> HasLeaf(options, path, scalar))
  {}

  /**
   * Along `path`, the defaults reach a leaf where the request has a table: the request replaces that
   * leaf, and the table it puts there does not reach `path`.
   */
  predicate Reshaped(defaults: Value, request: Value, path: Path) {
    defaults.Table? && request.Table? && path != []
    && path[0] in defaults.entries && path[0] in request.entries
    && (var d, r := defaults.entries[path[0]], request.entries[path[0]];
        (d.Leaf? && r.Table? && path[1..] != []) || Reshaped(d, r, path[1..]))
  }

  /** What two merged option sets cover. */
  lemma {:induction false} MergedCover(defaults: Value, request: Value, path: Path)
    requires defaults.Table? && request.Table?
    ensures Covers(Merge(defaults, request), path) <==>
            Covers(request, path) || (Covers(defaults, path) && !Reshaped(defaults, request, path))
    decreases |path|
  {
    if path != [] {
      var key := path[0];
      var merged := Merge(defaults, request);
      assert key in merged.entries <==> key in defaults.entries || key in request.entries;
      if key !in request.entries {
        assert key in defaults.entries ==> merged.entries[key] == defaults.entries[key];
      } else if key !in defaults.entries {
        assert merged.entries[key] == request.entries[key];
      } else if defaults.entries[key].Table? && request.entries[key].Table? {
        MergedCover(defaults.entries[key], request.entries[key], path[1..]);
      } else {
        assert merged.entries[key] == Merge(defaults.entries[key], request.entries[key]);
      }
    }
  }

  /**
   * The exact three-level law, at every path outside the control keys: the request decides the paths
   * it covers; of the rest, the defaults decide those they cover and the request did not reshape; the
   * encoded body keeps all others.
   */
  lemma ThreeLevelLaw(body: Value, defaults: Value, request: Value, path: Path, scalar: Scalar)
    requires body.Table? && defaults.Table? && request.Table?
    requires path != [] && !UnderControl(path)
    ensures HasLeaf(Final(body, defaults, request), path, scalar) <==>
            HasLeaf(if Covers(request, path) then request
                    else if Covers(defaults, path) && !Reshaped(defaults, request, path) then defaults
                    else body, path, scalar)
  {
    var options := Merge(defaults, request);
    MergeLaw(body, WithoutControls(options), path, scalar);
    ControlsAreConsumed(options, path, scalar);
    MergedCover(defaults, request, path);
    MergeLaw(defaults, request, path, scalar);
  }

  /** A leaf of the defaults that the request does not cover is never reshaped away. */
  lemma {:induction false} UncoveredLeafIsNotReshaped(defaults: Value, request: Value, path: Path, scalar: Scalar)
    requires HasLeaf(defaults, path, scalar)
    ensures !Reshaped(defaults, request, path)
    ensures Covers(defaults, path)
    decreases |path|
  {
    if path != [] && request.Table? && path[0] in request.entries {
      UncoveredLeafIsNotReshaped(defaults.entries[path[0]], request.entries[path[0]], path[1..], scalar);
    }
    CoveredLeaf(defaults, path, scalar);
  }

  /**
   * The precedence the option documentation promises: request leaves win, default leaves the request
   * does not cover survive, and body leaves neither covers survive.
   */
  lemma PrecedenceHolds(body: Value, defaults: Value, request: Value, path: Path, scalar: Scalar)
    requires body.Table? && defaults.Table? && request.Table?
    requires path != [] && !UnderControl(path)
    ensures HasLeaf(request, path, scalar) ==> HasLeaf(Final(body, defaults, request), path, scalar)
    ensures HasLeaf(defaults, path, scalar) && !Covers(request, path) ==>
              HasLeaf(Final(body, defaults, request), path, scalar)
    ensures HasLeaf(body, path, scalar) && !Covers(request, path) && !Covers(defaults, path) ==>
              HasLeaf(Final(body, defaults, request), path, scalar)
  {
    ThreeLevelLaw(body, defaults, request, path, scalar);
    if HasLeaf(request, path, scalar) {
      CoveredLeaf(request, path, scalar);
    }
    if HasLeaf(defaults, path, scalar) {
      UncoveredLeafIsNotReshaped(defaults, request, path, scalar);
    }
  }

  /** No option ever reaches the wire under a control key: the body is untouched there. */
  lemma ControlPathsKeepTheBody(body: Value, defaults: Value, request: Value, path: Path, scalar: Scalar)
    requires body.Table? && defaults.Table? && request.Table? && UnderControl(path)
    ensures HasLeaf(Final(body, defaults, request), path, scalar) <==> HasLeaf(body, path, scalar)
  {}

  lemma FoldOfTwo(body: Value, defaults: Value, request: Value)
    ensures Fold(body, [defaults, request]) == Merge(Merge(body, defaults), request)
  {
    var layers := [defaults, request];
    assert layers[..|layers| - 1] == [defaults];
    assert [defaults][..|[defaults]| - 1] == [];
    assert Fold(body, [defaults]) == Merge(body, defaults);
  }

  /**
   * The options are not a fold of three layers over the body. Where the request reshapes a default
   * leaf into a table, body entries survive that merging the defaults first would have removed.
   */
  lemma OptionsAreNotAFold(x: Scalar, y: Scalar)
    ensures var body := Table(map["k" := Table(map["inner" := Leaf(x)])]);
            var defaults := Table(map["k" := Leaf(y)]);
            var request := Table(map["k" := Table(map[])]);
            && HasLeaf(Final(body, defaults, request), ["k", "inner"], x)
            && !HasLeaf(Fold(body, [defaults, request]), ["k", "inner"], x)
  {
    var body := Table(map["k" := Table(map["inner" := Leaf(x)])]);
    var defaults := Table(map["k" := Leaf(y)]);
    var request := Table(map["k" := Table(map[])]);
    var path := ["k", "inner"];
    assert path[1..] == ["inner"] && path[1..][1..] == [];
    ThreeLevelLaw(body, defaults, request, path, x);
    assert Reshaped(defaults, request, path);
    assert !Covers(request, path);
    GetTop(body.entries["k"], "inner");
    assert Get(body, path) == Get(body.entries["k"], ["inner"]);
    RegroupingCanFail(x, y);
    FoldOfTwo(body, defaults, request);
  }

  /**
   * The options are the fold of both namespaces without their control keys exactly when no default
   * leaf stands between a body table and a request table that does not cover it.
   */
  lemma OptionsAreAFoldExactly(body: Value, defaults: Value, request: Value)
    requires defaults.Table? && request.Table?
    ensures var d, r := WithoutControls(defaults), WithoutControls(request);
            Final(body, defaults, request) == Fold(body, [d, r]) <==> Regroupable(body, d, r)
  {
    var d, r := WithoutControls(defaults), WithoutControls(request);
    assert WithoutControls(Merge(defaults, request)).entries == Merge(d, r).entries;
    FoldOfTwo(body, d, r);
    RegroupingIsSoundExactly(body, d, r);
  }
}
