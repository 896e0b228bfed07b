/**
 * The catalog loader's fold: layers are merged in order, and each provider remembers the layer that
 * declared it last.
 */
module Loader {
  import opened Wrappers
  import opened Sequences
  import opened Overlay

  /** A layer as added to the builder: the built-in files, or one named document. */
  datatype Layer = Builtin | Named(name: string, document: Value)

  /** One document in merge order. */
  datatype Source = Source(name: string, document: Value)

  /** The documents a list of layers stands for. */
  function Sources(layers: seq<Layer>, builtin: seq<Source>): seq<Source> {
    if layers == [] then []
    else Sources(layers[..|layers| - 1], builtin) + SourcesOf(layers[|layers| - 1], builtin)
  }

  function SourcesOf(layer: Layer, builtin: seq<Source>): seq<Source> {
    match layer
    case Builtin => builtin
    case Named(name, document) => [Source(name, document)]
  }

  function Documents(sources: seq<Source>): seq<Value> {
    seq(|sources|, i requires 0 <= i < |sources| => sources[i].document)
  }

  /** Whether a document declares `provider` in its `providers` table. */
  predicate Declares(document: Value, provider: string) {
    Get(document, ["providers", provider]).Some?
  }

  /** The last document that declares a provider. */
  predicate LastDeclares(sources: seq<Source>, provider: string, i: nat) {
    && i < |sources| && Declares(sources[i].document, provider)
    && forall j :: i < j < |sources| ==> !Declares(sources[j].document, provider)
  }

  /** `origins` names, for every provider some document declares, the last document that does. */
  ghost predicate Origins(origins: map<string, string>, sources: seq<Source>) {
    forall provider :: OriginIs(origins, sources, provider)
  }

  ghost predicate OriginIs(origins: map<string, string>, sources: seq<Source>, provider: string) {
    && (provider in origins <==> exists i: nat :: LastDeclares(sources, provider, i))
    && (forall i: nat :: LastDeclares(sources, provider, i) ==> provider in origins && origins[provider] == sources[i].name)
  }

  class CatalogBuilder {
    var layers: seq<Layer>
    var merged: Value
    var origins: map<string, string>

    constructor ()
      ensures layers == []
    {
      layers := [];
      merged := Table(map[]);
      origins := map[];
    }

    /** Adds a layer that wins over every layer added before it. */
    method Add(layer: Layer)
      modifies this`layers
      ensures layers == old(layers) + [layer]
    {
      layers := layers + [layer];
    }

    /** Merges one document over what earlier ones built, recording the providers it declares. */
    method MergeDocument(ghost done: seq<Source>, source: Source)
      requires merged == Fold(Table(map[]), Documents(done)) && Origins(origins, done)
      modifies this`merged, this`origins
      ensures merged == Fold(Table(map[]), Documents(done + [source])) && Origins(origins, done + [source])
    {
      origins := RecordOrigins(origins, source);
      OriginsAfter(old(origins), origins, done, source);
      FoldDocument(done, source);
      merged := MergeInto(merged, source.document);
    }

    /** Merges the built-in documents in order. */
    method MergeBuiltin(ghost done: seq<Source>, builtin: seq<Source>)
      requires merged == Fold(Table(map[]), Documents(done)) && Origins(origins, done)
      modifies this`merged, this`origins
      ensures merged == Fold(Table(map[]), Documents(done + builtin)) && Origins(origins, done + builtin)
    {
      hide Origins;
      hide Fold;
      assert done + builtin[..0] == done;
      for k := 0 to |builtin|
        invariant merged == Fold(Table(map[]), Documents(done + builtin[..k]))
        invariant Origins(origins, done + builtin[..k])
      {
        MergeDocument(done + builtin[..k], builtin[k]);
        assert done + builtin[..k] + [builtin[k]] == done + builtin[..k + 1];
      }
      assert builtin[..|builtin|] == builtin;
    }

    /**
     * Builds the merged document: the fold of every document in layer order, with each declared
     * provider traced to the last document that declares it.
     */
    method Build(builtin: seq<Source>)
      modifies this`merged, this`origins
      ensures merged == Fold(Table(map[]), Documents(Sources(layers, builtin)))
      ensures Origins(origins, Sources(layers, builtin))
    {
      merged := Table(map[]);
      origins := map[];
      NothingBuilt();
      hide Origins;
      hide Fold;
      for i := 0 to |layers|
        invariant merged == Fold(Table(map[]), Documents(Sources(layers[..i], builtin)))
        invariant Origins(origins, Sources(layers[..i], builtin))
      {
        ghost var done := Sources(layers[..i], builtin);
        assert layers[..i + 1][..i] == layers[..i];
        match layers[i] {
          case Builtin => MergeBuiltin(done, builtin);
          case Named(name, document) => MergeDocument(done, Source(name, document));
        }
      }
      assert layers[..|layers|] == layers;
    }
  }

  lemma {:induction false} SourcesConcat(a: seq<Layer>, b: seq<Layer>, builtin: seq<Source>)
    ensures Sources(a + b, builtin) == Sources(a, builtin) + Sources(b, builtin)
    decreases |b|
  {
    if b == [] {
      assert a + b == a;
    } else {
      var front, last := b[..|b| - 1], b[|b| - 1];
      assert (a + b)[..|a + b| - 1] == a + front && (a + b)[|a + b| - 1] == last;
      SourcesConcat(a, front, builtin);
      Associates(Sources(a, builtin), Sources(front, builtin), SourcesOf(last, builtin));
    }
  }

  lemma OneLayer(layer: Layer, builtin: seq<Source>)
    ensures Sources([layer], builtin) == if layer.Builtin? then builtin else [Source(layer.name, layer.document)]
  {
    assert [layer][..0] == [];
  }

  /**
   * The last layer decides every path it covers and leaves the others to the layers under it: a named
   * document by itself, the built-in layer by the last of its documents to cover the path.
   */
  lemma LastLayerDecides(under: seq<Layer>, last: Layer, builtin: seq<Source>, path: Path, scalar: Scalar)
    ensures
      var below := Fold(Table(map[]), Documents(Sources(under, builtin)));
      var all := Fold(Table(map[]), Documents(Sources(under + [last], builtin)));
      if last.Named? then
        HasLeaf(all, path, scalar) <==> HasLeaf(if Covers(last.document, path) then last.document else below, path, scalar)
      else
        && (forall i: nat :: LastCover(Documents(builtin), path, i) ==>
              (HasLeaf(all, path, scalar) <==> HasLeaf(builtin[i].document, path, scalar)))
        && ((forall i: nat :: !LastCover(Documents(builtin), path, i)) ==>
              (HasLeaf(all, path, scalar) <==> HasLeaf(below, path, scalar)))
  {
    SourcesConcat(under, [last], builtin);
    OneLayer(last, builtin);
    var below := Documents(Sources(under, builtin));
    hide Sources, Fold, LastCover;
    if last.Named? {
      FoldDocument(Sources(under, builtin), Source(last.name, last.document));
      MergeLaw(Fold(Table(map[]), below), last.document, path, scalar);
    } else {
      DocumentsConcat(Sources(under, builtin), builtin);
      FoldConcat(Table(map[]), below, Documents(builtin));
      FoldLawFrom(Fold(Table(map[]), below), Documents(builtin), path, scalar);
      assert forall i: nat :: LastCover(Documents(builtin), path, i) ==>
        i < |builtin| && Documents(builtin)[i] == builtin[i].document by { CoversADocument(builtin, path); }
      hide Documents, HasLeaf;
    }
  }

  lemma DocumentsConcat(a: seq<Source>, b: seq<Source>)
    ensures Documents(a + b) == Documents(a) + Documents(b)
  {}

  lemma CoversADocument(sources: seq<Source>, path: Path)
    ensures forall i: nat :: LastCover(Documents(sources), path, i) ==>
              i < |sources| && Documents(sources)[i] == sources[i].document
  {}

  lemma NothingBuilt()
    ensures Documents([]) == [] && Fold(Table(map[]), Documents([])) == Table(map[]) && Origins(map[], [])
  {}

  /** The providers a document declares. */
  function DeclaredBy(document: Value): set<string> {
    match Get(document, ["providers"])
    case Some(Table(providers)) => providers.Keys
    case _ => {}
  }

  /** A document declares a provider as a key of its `providers` table. */
  lemma DeclaresAKey(document: Value, provider: string)
    ensures Declares(document, provider) <==>
      && document.Table? && "providers" in document.entries
      && document.entries["providers"].Table? && provider in document.entries["providers"].entries
  {
    DeclaredByIs(document, provider);
    GetTop(document, "providers");
  }

  lemma DeclaredByIs(document: Value, provider: string)
    ensures provider in DeclaredBy(document) <==> Declares(document, provider)
  {
    var path := ["providers", provider];
    assert path[1..] == [provider];
    GetTop(document, "providers");
    if document.Table? && "providers" in document.entries {
      GetTop(document.entries["providers"], provider);
    }
  }

  method RecordOrigins(origins: map<string, string>, source: Source) returns (recorded: map<string, string>)
    ensures recorded.Keys == origins.Keys + DeclaredBy(source.document)
    ensures forall provider <- recorded ::
              recorded[provider] == if provider in DeclaredBy(source.document) then source.name else origins[provider]
  {
    recorded := origins;
    var pending := DeclaredBy(source.document);
    while pending != {}
      invariant pending <= DeclaredBy(source.document)
      invariant recorded.Keys == origins.Keys + (DeclaredBy(source.document) - pending)
      invariant forall provider <- recorded ::
        recorded[provider] == if provider in DeclaredBy(source.document) && provider !in pending
                              then source.name else origins[provider]
    {
      var provider :| provider in pending;
      recorded := recorded[provider := source.name];
      pending := pending - {provider};
    }
  }

  lemma OriginsAfter(before: map<string, string>, after: map<string, string>, done: seq<Source>, source: Source)
    requires Origins(before, done)
    requires after.Keys == before.Keys + DeclaredBy(source.document)
    requires forall provider <- after ::
               after[provider] == if provider in DeclaredBy(source.document) then source.name else before[provider]
    ensures Origins(after, done + [source])
  {
    forall provider
      ensures OriginIs(after, done + [source], provider)
    {
      assert OriginIs(before, done, provider);
      DeclaredByIs(source.document, provider);
      OriginAfter(before, after, done, source, provider);
    }
  }

  lemma OriginAfter(
    before: map<string, string>, after: map<string, string>, done: seq<Source>, source: Source, provider: string)
    requires OriginIs(before, done, provider)
    requires provider in after <==> provider in before || Declares(source.document, provider)
    requires provider in after ==>
               after[provider] == if Declares(source.document, provider) then source.name else before[provider]
    ensures OriginIs(after, done + [source], provider)
  {
    hide Declares;
    var all := done + [source];
    LastDeclaresNext(done, source, provider);
    if Declares(source.document, provider) {
      assert LastDeclares(all, provider, |done|);
    } else {
      assert forall i: nat :: LastDeclares(all, provider, i) ==> all[i] == done[i];
    }
  }

  /** The last document to declare a provider, one document later. */
  lemma LastDeclaresNext(done: seq<Source>, source: Source, provider: string)
    ensures var all := done + [source];
            if Declares(source.document, provider)
            then forall i: nat :: LastDeclares(all, provider, i) <==> i == |done|
            else forall i: nat :: LastDeclares(all, provider, i) <==> LastDeclares(done, provider, i)
  {
    hide Declares;
    var all := done + [source];
    assert all[|done|] == source;
    assert forall j :: 0 <= j < |done| ==> all[j] == done[j];
  }

  lemma FoldDocument(done: seq<Source>, source: Source)
    ensures Fold(Table(map[]), Documents(done + [source])) ==
            Merge(Fold(Table(map[]), Documents(done)), source.document)
  {
    var all := Documents(done + [source]);
    assert all[..|all| - 1] == Documents(done);
  }

  /**
   * The layered catalog's value at any path is decided by the last document that covers the path,
   * across every layer and built-in file.
   */
  lemma LayeredLookup(layers: seq<Layer>, builtin: seq<Source>, path: Path, scalar: Scalar)
    ensures var sources := Sources(layers, builtin);
            HasLeaf(Fold(Table(map[]), Documents(sources)), path, scalar) <==>
            exists i: nat :: LastCover(Documents(sources), path, i) && HasLeaf(sources[i].document, path, scalar)
  {
    var sources := Sources(layers, builtin);
    FoldLaw(Documents(sources), path, scalar);
    assert forall i: nat :: LastCover(Documents(sources), path, i) ==> Documents(sources)[i] == sources[i].document;
  }

  /** A provider that survives into the merged catalog always has a recorded origin. */
  lemma {:induction false} MergedProvidersHaveOrigins(sources: seq<Source>, provider: string)
    ensures Declares(Fold(Table(map[]), Documents(sources)), provider) ==>
            exists i: nat :: LastDeclares(sources, provider, i)
    decreases |sources|
  {
    if sources == [] {
      assert !Declares(Table(map[]), provider);
    } else {
      var front, last := sources[..|sources| - 1], sources[|sources| - 1];
      assert front + [last] == sources;
      MergedProvidersHaveOrigins(front, provider);
      FoldDocument(front, last);
      var before := Fold(Table(map[]), Documents(front));
      if Declares(last.document, provider) {
        assert LastDeclares(sources, provider, |front|);
      } else if Declares(Merge(before, last.document), provider) {
        DeclaredAfterMerge(before, last.document, provider);
        var i: nat :| LastDeclares(front, provider, i);
        assert LastDeclares(sources, provider, i);
      }
    }
  }

  lemma DeclaredAfterMerge(base: Value, overlay: Value, provider: string)
    requires Declares(Merge(base, overlay), provider)
    ensures Declares(base, provider) || Declares(overlay, provider)
  {
    DeclaredByIs(base, provider);
    DeclaredByIs(overlay, provider);
    DeclaredByIs(Merge(base, overlay), provider);
    GetTop(base, "providers");
    GetTop(overlay, "providers");
    GetTop(Merge(base, overlay), "providers");
    if base.Table? && overlay.Table? && "providers" in base.entries && "providers" in overlay.entries {
      assert Merge(base, overlay).entries["providers"] == Merge(base.entries["providers"], overlay.entries["providers"]);
    }
  }
}
