/** Which documents become catalogs, in terms of the records they hold. */
module CatalogRules {
  import opened Wrappers
  import opened Sequences
  import opened Catalog

  /** No two entries can be asked for by the same id or alias, and none lists a name twice. */
  predicate Unambiguous(names: seq<Named>) {
    && (forall i, j :: 0 <= i < j < |names| ==> names[i].id != names[j].id)
    && (forall i, j :: 0 <= i < |names| && 0 <= j < |names| ==> names[i].id !in names[j].aliases)
    && (forall i, j, alias :: 0 <= i < j < |names| && alias in names[i].aliases ==> alias !in names[j].aliases)
    && (forall i :: 0 <= i < |names| ==> Distinct(names[i].aliases))
  }

  lemma {:induction false} AliasesAre(names: seq<Named>)
    ensures forall alias :: alias in Aliases(names) <==> exists i :: 0 <= i < |names| && alias in names[i].aliases
  {
    if names != [] {
      var front, last := names[..|names| - 1], names[|names| - 1];
      AliasesAre(front);
      assert forall alias :: alias in Aliases(names) <==> alias in Aliases(front) || alias in last.aliases;
      assert forall i :: 0 <= i < |front| ==> names[i] == front[i];
    }
  }

  lemma {:induction false} AliasesAreDistinct(names: seq<Named>)
    ensures Distinct(Aliases(names)) <==>
      && (forall i, j, alias :: 0 <= i < j < |names| && alias in names[i].aliases ==> alias !in names[j].aliases)
      && (forall i :: 0 <= i < |names| ==> Distinct(names[i].aliases))
  {
    if names != [] {
      var front, last := names[..|names| - 1], names[|names| - 1];
      AliasesAreDistinct(front);
      AliasesAre(front);
      DistinctConcat(Aliases(front), last.aliases);
      hide Distinct, Aliases;
      assert Aliases(names) == Aliases(front) + last.aliases by { AliasesLast(names); }
      assert forall i :: 0 <= i < |front| ==> names[i] == front[i];
      if Distinct(Aliases(names)) {
        forall i, j, alias | 0 <= i < j < |names| && alias in names[i].aliases
          ensures alias !in names[j].aliases
        {
          if j == |front| {
            assert alias in Aliases(front);
          }
        }
      }
    }
  }

  lemma AliasesLast(names: seq<Named>)
    requires names != []
    ensures Aliases(names) == Aliases(names[..|names| - 1]) + names[|names| - 1].aliases
  {}

  lemma IdsAreDistinct(names: seq<Named>)
    ensures Distinct(Ids(names)) <==> forall i, j :: 0 <= i < j < |names| ==> names[i].id != names[j].id
  {
    assert forall i :: 0 <= i < |names| ==> Ids(names)[i] == names[i].id;
  }

  lemma IdsAndAliasesAreApart(names: seq<Named>)
    ensures (forall id <- Ids(names) :: id !in Aliases(names)) <==>
            forall i, j :: 0 <= i < |names| && 0 <= j < |names| ==> names[i].id !in names[j].aliases
  {
    AliasesAre(names);
    hide Aliases;
    assert forall i :: 0 <= i < |names| ==> Ids(names)[i] == names[i].id;
    if forall id <- Ids(names) :: id !in Aliases(names) {
      forall i, j | 0 <= i < |names| && 0 <= j < |names|
        ensures names[i].id !in names[j].aliases
      {
        assert names[i].id in Ids(names);
      }
    }
  }

  /** Inserting ids and then aliases meets no repeat exactly when nothing is named twice. */
  lemma SelectorsAreDistinctExactly(names: seq<Named>)
    ensures Distinct(Selectors(names)) <==> Unambiguous(names)
  {
    DistinctConcat(Ids(names), Aliases(names));
    IdsAreDistinct(names);
    IdsAndAliasesAreApart(names);
    AliasesAreDistinct(names);
    hide Distinct, Ids, Aliases;
  }

  /** What a record must be by itself: identifiers throughout, nothing named twice, a default it lists, and no stand-in for itself. */
  predicate ProperRecord(record: ProviderRecord) {
    && ValidIdentifier(record.id, false)
    && (forall alias <- record.aliases :: ValidIdentifier(alias, false))
    && (forall k :: 0 <= k < |record.models| ==>
          && ValidIdentifier(record.models[k].id, true)
          && forall alias <- record.models[k].aliases :: ValidIdentifier(alias, false))
    && Unambiguous(seq(|record.models|, k requires 0 <= k < |record.models| =>
                         Named(record.models[k].id, record.models[k].aliases)))
    && (record.defaultModel.Some? ==>
          exists k :: 0 <= k < |record.models| && record.models[k].id == record.defaultModel.value)
    && record.standsInFor != Some(record.id)
  }

  lemma ModelsAreProper(provider: string, records: seq<ModelRecord>)
    ensures (forall m <- BuildModels(provider, records) :: ValidModel(m)) <==>
            forall k :: 0 <= k < |records| ==>
              && ValidIdentifier(records[k].id, true)
              && forall alias <- records[k].aliases :: ValidIdentifier(alias, false)
  {
    hide ValidIdentifier;
    var built := BuildModels(provider, records);
    forall k | 0 <= k < |records|
      ensures built[k] in built && built[k] == BuildModel(provider, records[k])
    {}
  }

  lemma DefaultIsListed(provider: string, records: seq<ModelRecord>, model: string)
    ensures model in Ids(ModelNames(BuildModels(provider, records))) <==>
            exists k :: 0 <= k < |records| && records[k].id == model
  {
    var ids := Ids(ModelNames(BuildModels(provider, records)));
    assert forall k :: 0 <= k < |records| ==> ids[k] == records[k].id;
  }

  lemma ProperRecordIsValid(record: ProviderRecord)
    ensures ValidProvider(BuildProvider(record)) <==> ProperRecord(record)
  {
    var models := BuildModels(record.id, record.models);
    assert ModelNames(models) == seq(|record.models|, k requires 0 <= k < |record.models| =>
                                       Named(record.models[k].id, record.models[k].aliases));
    SelectorsAreDistinctExactly(ModelNames(models));
    ModelsAreProper(record.id, record.models);
    if record.defaultModel.Some? {
      DefaultIsListed(record.id, record.models, record.defaultModel.value);
    }
    hide Distinct, Selectors, Unambiguous, ValidIdentifier, ValidModel, BuildModels, Ids;
  }

  /**
   * The documents that become catalogs: not empty, each record proper, no two providers asked for by the
   * same name, and every stand-in's target among them.
   */
  lemma ValidDocumentIs(records: seq<ProviderRecord>)
    ensures ValidCatalog(Catalog(BuildProviders(records))) <==>
      && records != []
      && (forall i :: 0 <= i < |records| ==> ProperRecord(records[i]))
      && Unambiguous(seq(|records|, i requires 0 <= i < |records| => Named(records[i].id, records[i].aliases)))
      && forall i :: 0 <= i < |records| && records[i].standsInFor.Some? ==>
           exists j :: 0 <= j < |records| && records[i].standsInFor == Some(records[j].id)
  {
    var built := BuildProviders(records);
    assert ProviderNames(built) == seq(|records|, i requires 0 <= i < |records| => Named(records[i].id, records[i].aliases));
    SelectorsAreDistinctExactly(ProviderNames(built));
    ProvidersAreProper(records);
    TargetsAreKnown(records);
    hide ValidProvider, ProperRecord, Distinct, Selectors, Unambiguous, StandInsKnown, ProviderNames;
  }

  lemma ProvidersAreProper(records: seq<ProviderRecord>)
    ensures (forall p <- BuildProviders(records) :: ValidProvider(p)) <==>
            forall i :: 0 <= i < |records| ==> ProperRecord(records[i])
  {
    var built := BuildProviders(records);
    forall i | 0 <= i < |records|
      ensures ValidProvider(built[i]) <==> ProperRecord(records[i])
      ensures built[i] in built
    {
      ProperRecordIsValid(records[i]);
    }
    hide ValidProvider, ProperRecord;
  }

  lemma TargetsAreKnown(records: seq<ProviderRecord>)
    ensures StandInsKnown(BuildProviders(records)) <==>
            forall i :: 0 <= i < |records| && records[i].standsInFor.Some? ==>
              exists j :: 0 <= j < |records| && records[i].standsInFor == Some(records[j].id)
  {
    var built := BuildProviders(records);
    var ids := Ids(ProviderNames(built));
    assert forall i :: 0 <= i < |records| ==> ids[i] == records[i].id;
    assert forall target :: target in ids <==> exists j :: 0 <= j < |records| && target == records[j].id;
    forall i | 0 <= i < |records|
      ensures built[i] in built && built[i].standsInFor == records[i].standsInFor
    {}
    hide Ids, ProviderNames;
    assert forall p <- built :: exists i :: 0 <= i < |records| && p == built[i];
  }
}
