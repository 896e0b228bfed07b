/**
 * Providers and models, the validation that turns records into a catalog, and lookups by selector.
 *
 * Tables keyed by id are kept as sequences in key order, the order they are walked in.
 */
module Catalog {
  import opened Wrappers
  import opened Sequences
  import opened Sorting

  const SCHEMA_VERSION: nat := 1

  datatype Model = Model(provider: string, id: string, passthrough: bool, aliases: seq<string>, apiModel: string)

  datatype Provider = Provider(
    id: string,
    models: seq<Model>,
    aliases: seq<string>,
    priority: int,
    allowPassthrough: bool,
    enabled: bool,
    standsInFor: Option<string>,
    defaultModel: Option<string>)

  datatype Catalog = Catalog(providers: seq<Provider>)

  datatype ModelRecord = ModelRecord(id: string, aliases: seq<string>, apiModel: string)

  datatype ProviderRecord = ProviderRecord(
    id: string,
    models: seq<ModelRecord>,
    aliases: seq<string>,
    priority: int,
    allowPassthrough: bool,
    enabled: bool,
    standsInFor: Option<string>,
    defaultModel: Option<string>)

  datatype CatalogError =
    | UnsupportedSchemaVersion(found: nat)
    | NoProviders
    | InvalidIdentifier(value: string)
    | DuplicateProviderAlias(alias: string)
    | DuplicateModelSelector(provider: string, selector: string)
    | UnknownDefaultModel(provider: string, model: string)
    | StandsInForItself(provider: string)
    | UnknownStandInTarget(provider: string, target: string)

  /** An error as the caller gets it: one about a provider names the layer that declared it last, when one is known. */
  datatype LayeredError = Plain(source: CatalogError) | Layered(layer: string, source: CatalogError)

  function InLayer(origins: map<string, string>, provider: string, source: CatalogError): LayeredError {
    if provider in origins then Layered(origins[provider], source) else Plain(source)
  }

  // ---------------------------------------------------------------------------------------------
  // What validation establishes
  // ---------------------------------------------------------------------------------------------

  predicate IdentifierChar(c: char, route: bool) {
    'a' <= c <= 'z' || 'A' <= c <= 'Z' || '0' <= c <= '9' || c == '-' || c == '_' || c == '.'
    || (route && (c == ':' || c == '/'))
  }

  /** A nonempty identifier; only a model id may hold route characters. */
  predicate ValidIdentifier(value: string, route: bool) {
    value != "" && forall c <- value :: IdentifierChar(c, route)
  }

  ghost predicate Repeats(names: seq<string>, name: string) {
    exists i, j :: 0 <= i < j < |names| && names[i] == names[j] == name
  }

  /** What something can be asked for by: its canonical id and its aliases. */
  datatype Named = Named(id: string, aliases: seq<string>)

  function ModelNames(models: seq<Model>): seq<Named> {
    seq(|models|, i requires 0 <= i < |models| => Named(models[i].id, models[i].aliases))
  }

  function ProviderNames(providers: seq<Provider>): seq<Named> {
    seq(|providers|, i requires 0 <= i < |providers| => Named(providers[i].id, providers[i].aliases))
  }

  function Ids(names: seq<Named>): seq<string> {
    seq(|names|, i requires 0 <= i < |names| => names[i].id)
  }

  function Aliases(names: seq<Named>): seq<string> {
    if names == [] then [] else Aliases(names[..|names| - 1]) + names[|names| - 1].aliases
  }

  /** Every selector of `names`, canonical ids first. */
  function Selectors(names: seq<Named>): seq<string> {
    Ids(names) + Aliases(names)
  }

  predicate InKeyOrder(ids: seq<string>) {
    forall i, j :: 0 <= i < j < |ids| ==> Less(ids[i], ids[j])
  }

  predicate ValidModel(m: Model) {
    ValidIdentifier(m.id, true) && forall alias <- m.aliases :: ValidIdentifier(alias, false)
  }

  predicate ValidProvider(p: Provider) {
    && ValidIdentifier(p.id, false)
    && (forall alias <- p.aliases :: ValidIdentifier(alias, false))
    && (forall m <- p.models :: ValidModel(m))
    && Distinct(Selectors(ModelNames(p.models)))
    && (p.defaultModel.Some? ==> p.defaultModel.value in Ids(ModelNames(p.models)))
    && p.standsInFor != Some(p.id)
  }

  predicate StandInsKnown(providers: seq<Provider>) {
    forall p <- providers :: p.standsInFor.Some? ==> p.standsInFor.value in Ids(ProviderNames(providers))
  }

  predicate ValidCatalog(c: Catalog) {
    && c.providers != []
    && (forall p <- c.providers :: ValidProvider(p))
    && Distinct(Selectors(ProviderNames(c.providers)))
    && StandInsKnown(c.providers)
  }

  /** The tables of a built catalog are in key order and each model names its own provider. */
  predicate WellKeyed(c: Catalog) {
    && InKeyOrder(Ids(ProviderNames(c.providers)))
    && forall p <- c.providers ::
         InKeyOrder(Ids(ModelNames(p.models))) && forall m <- p.models :: m.provider == p.id && !m.passthrough
  }

  // ---------------------------------------------------------------------------------------------
  // Building
  // ---------------------------------------------------------------------------------------------

  function BuildModel(provider: string, record: ModelRecord): Model {
    Model(provider, record.id, false, record.aliases, record.apiModel)
  }

  function BuildModels(provider: string, records: seq<ModelRecord>): seq<Model> {
    seq(|records|, i requires 0 <= i < |records| => BuildModel(provider, records[i]))
  }

  function BuildProvider(record: ProviderRecord): Provider {
    Provider(record.id, BuildModels(record.id, record.models), record.aliases, record.priority,
             record.allowPassthrough, record.enabled, record.standsInFor, record.defaultModel)
  }

  function BuildProviders(records: seq<ProviderRecord>): seq<Provider> {
    seq(|records|, i requires 0 <= i < |records| => BuildProvider(records[i]))
  }

  function RecordIds(records: seq<ModelRecord>): seq<string> {
    seq(|records|, i requires 0 <= i < |records| => records[i].id)
  }

  function DocumentIds(records: seq<ProviderRecord>): seq<string> {
    seq(|records|, i requires 0 <= i < |records| => records[i].id)
  }

  /** What makes `e` the right complaint about one provider's record. */
  ghost predicate BlamesRecord(e: CatalogError, record: ProviderRecord) {
    match e
    case InvalidIdentifier(value) =>
      || ((value == record.id || value in record.aliases) && !ValidIdentifier(value, false))
      || exists raw <- record.models :: BlamesModel(value, raw)
    case DuplicateModelSelector(provider, selector) =>
      provider == record.id && Repeats(Selectors(ModelNames(BuildModels(record.id, record.models))), selector)
    case UnknownDefaultModel(provider, model) =>
      provider == record.id && record.defaultModel == Some(model) && model !in RecordIds(record.models)
    case StandsInForItself(provider) =>
      provider == record.id && record.standsInFor == Some(provider)
    case _ => false
  }

  ghost predicate BlamesModel(value: string, raw: ModelRecord) {
    (value == raw.id && !ValidIdentifier(value, true)) || (value in raw.aliases && !ValidIdentifier(value, false))
  }

  /** What makes `e` the right complaint about one provider among its document's. */
  ghost predicate BlamesProvider(e: CatalogError, record: ProviderRecord, records: seq<ProviderRecord>) {
    match e
    case DuplicateProviderAlias(alias) =>
      alias in record.aliases && Repeats(Selectors(ProviderNames(BuildProviders(records))), alias)
    case UnknownStandInTarget(provider, target) =>
      provider == record.id && record.standsInFor == Some(target) && target !in DocumentIds(records)
    case _ => BlamesRecord(e, record)
  }

  /** What makes `e` the right complaint about a whole document, in the layer of the provider to blame. */
  ghost predicate Blames(e: LayeredError, version: nat, records: seq<ProviderRecord>, origins: map<string, string>) {
    || (e == Plain(UnsupportedSchemaVersion(version)) && version != SCHEMA_VERSION)
    || (e == Plain(NoProviders) && records == [])
    || exists record <- records ::
         && e == (if record.id in origins then Layered(origins[record.id], e.source) else Plain(e.source))
         && BlamesProvider(e.source, record, records)
  }

  method ValidateIdentifier(value: string, route: bool) returns (r: Result<(), CatalogError>)
    ensures r.Ok? <==> ValidIdentifier(value, route)
    ensures r.Ok? <==>
      value != "" &&
      forall c <- value :: 'a' <= c <= 'z' || 'A' <= c <= 'Z' || '0' <= c <= '9' || c in "-_." || (route && c in ":/")
    ensures r.Err? ==> r.error == InvalidIdentifier(value)
  {
    if value == "" {
      return Err(InvalidIdentifier(value));
    }
    for i := 0 to |value|
      invariant forall c <- value[..i] :: IdentifierChar(c, route)
    {
      assert value[..i + 1] == value[..i] + [value[i]];
      if !IdentifierChar(value[i], route) {
        return Err(InvalidIdentifier(value));
      }
    }
    assert value[..|value|] == value;
    return Ok(());
  }

  method ValidateIdentifiers(values: seq<string>) returns (r: Result<(), CatalogError>)
    ensures r.Ok? <==> forall value <- values :: ValidIdentifier(value, false)
    ensures r.Err? ==>
      r.error.InvalidIdentifier? && r.error.value in values && !ValidIdentifier(r.error.value, false)
    ensures r.Err? ==>
      exists k :: 0 <= k < |values| && values[k] == r.error.value && forall i :: 0 <= i < k ==> ValidIdentifier(values[i], false)
  {
    for i := 0 to |values|
      invariant forall value <- values[..i] :: ValidIdentifier(value, false)
    {
      assert values[..i + 1] == values[..i] + [values[i]];
      r := ValidateIdentifier(values[i], false);
      if r.Err? {
        return;
      }
    }
    assert values[..|values|] == values;
    return Ok(());
  }

  /** The names gathered so far, and the set they were inserted into. */
  ghost predicate Gathered(names: seq<string>, selectors: set<string>) {
    Distinct(names) && forall name :: name in selectors <==> name in names
  }

  lemma GatherOne(names: seq<string>, selectors: set<string>, name: string)
    requires Gathered(names, selectors)
    ensures name !in selectors ==> Gathered(names + [name], selectors + {name})
    ensures name in selectors ==> Repeats(names + [name], name)
  {
    var more := names + [name];
    if name in selectors {
      var k :| 0 <= k < |names| && names[k] == name;
      assert more[k] == more[|names|] == name;
    }
  }

  lemma PrefixRepeats(prefix: seq<string>, names: seq<string>, name: string)
    requires prefix <= names && Repeats(prefix, name)
    ensures Repeats(names, name)
  {}

  /** Inserts names one by one; the first repeat is reported. */
  method InsertAll(selectors: set<string>, names: seq<string>, ghost before: seq<string>)
    returns (after: set<string>, repeat: Option<string>)
    requires Gathered(before, selectors)
    ensures repeat.None? ==> Gathered(before + names, after)
    ensures repeat.Some? ==> repeat.value in names && Repeats(before + names, repeat.value)
  {
    after := selectors;
    assert before + names[..0] == before;
    for i := 0 to |names|
      invariant Gathered(before + names[..i], after)
    {
      assert before + names[..i] + [names[i]] == before + names[..i + 1];
      GatherOne(before + names[..i], after, names[i]);
      if names[i] in after {
        PrefixRepeats(before + names[..i + 1], before + names, names[i]);
        return after, Some(names[i]);
      }
      after := after + {names[i]};
    }
    assert names[..|names|] == names;
    return after, None;
  }

  method CollectIds(names: seq<string>) returns (ids: set<string>)
    ensures forall name :: name in ids <==> name in names
  {
    ids := {};
    for i := 0 to |names|
      invariant forall name :: name in ids <==> name in names[..i]
    {
      assert names[..i + 1] == names[..i] + [names[i]];
      ids := ids + {names[i]};
    }
    assert names[..|names|] == names;
  }

  lemma AliasesSnoc(names: seq<Named>, i: nat)
    requires i < |names|
    ensures Aliases(names[..i + 1]) == Aliases(names[..i]) + names[i].aliases
  {
    assert names[..i + 1][..i] == names[..i];
  }

  lemma {:induction false} AliasPrefix(names: seq<Named>, k: nat)
    requires k <= |names|
    ensures Aliases(names[..k]) <= Aliases(names)
  {
    if k < |names| {
      AliasPrefix(names[..|names| - 1], k);
      assert names[..|names| - 1][..k] == names[..k];
    } else {
      assert names[..k] == names;
    }
  }

  lemma KeyOrderIsDistinct(ids: seq<string>)
    requires InKeyOrder(ids)
    ensures Distinct(ids)
  {
    forall i, j | 0 <= i < j < |ids|
      ensures ids[i] != ids[j]
    {
      LessIsIrreflexive(ids[i]);
    }
  }

  /** Before any alias is inserted the selector set holds the canonical ids, which key order keeps apart. */
  lemma GatherIds(names: seq<Named>, selectors: set<string>)
    requires InKeyOrder(Ids(names))
    requires forall name :: name in selectors <==> name in Ids(names)
    ensures Gathered(Ids(names) + Aliases([]), selectors)
  {
    KeyOrderIsDistinct(Ids(names));
    assert Ids(names) + Aliases([]) == Ids(names);
  }

  /** One step of the alias loop: what has been gathered then, or why the whole is refused. */
  lemma GatherAliases(names: seq<Named>, i: nat, after: set<string>, repeat: Option<string>)
    requires i < |names|
    requires repeat.None? ==> Gathered(Ids(names) + Aliases(names[..i]) + names[i].aliases, after)
    requires repeat.Some? ==> Repeats(Ids(names) + Aliases(names[..i]) + names[i].aliases, repeat.value)
    ensures repeat.None? ==> Gathered(Ids(names) + Aliases(names[..i + 1]), after)
    ensures repeat.Some? ==> Repeats(Selectors(names), repeat.value) && !Distinct(Selectors(names))
  {
    hide Gathered;
    AliasesSnoc(names, i);
    var ids, before := Ids(names), Aliases(names[..i]);
    assert ids + before + names[i].aliases == ids + Aliases(names[..i + 1]);
    if repeat.Some? {
      AliasPrefix(names, i + 1);
      PrefixRepeats(ids + Aliases(names[..i + 1]), Selectors(names), repeat.value);
    }
  }

  lemma GatheredAll(names: seq<Named>, selectors: set<string>)
    requires Gathered(Ids(names) + Aliases(names), selectors)
    ensures Distinct(Selectors(names))
  {}

  method TryModel(provider: string, raw: ModelRecord) returns (r: Result<Model, CatalogError>)
    ensures r.Ok? <==> ValidModel(BuildModel(provider, raw))
    ensures r.Ok? ==> r.value == BuildModel(provider, raw)
    ensures r.Err? ==> r.error.InvalidIdentifier? && BlamesModel(r.error.value, raw)
  {
    hide ValidIdentifier;
    var checked := ValidateIdentifier(raw.id, true);
    if checked.Err? {
      return Err(checked.error);
    }
    checked := ValidateIdentifiers(raw.aliases);
    if checked.Err? {
      return Err(checked.error);
    }
    return Ok(BuildModel(provider, raw));
  }

  /** Builds the models in key order, inserting every alias into the selector set; a repeat refuses the provider. */
  method TryModels(provider: string, records: seq<ModelRecord>) returns (r: Result<seq<Model>, CatalogError>)
    requires InKeyOrder(RecordIds(records))
    ensures r.Ok? <==>
      (forall m <- BuildModels(provider, records) :: ValidModel(m)) &&
      Distinct(Selectors(ModelNames(BuildModels(provider, records))))
    ensures r.Ok? ==> r.value == BuildModels(provider, records)
    ensures r.Err? ==>
      || (r.error.InvalidIdentifier? && exists raw <- records :: BlamesModel(r.error.value, raw))
      || (r.error.DuplicateModelSelector? && r.error.provider == provider
          && Repeats(Selectors(ModelNames(BuildModels(provider, records))), r.error.selector))
  {
    hide Distinct, Repeats, Gathered, ValidModel, ValidIdentifier, Aliases;
    ghost var built := BuildModels(provider, records);
    ghost var names := ModelNames(built);
    assert RecordIds(records) == Ids(names);
    var selectors := CollectIds(RecordIds(records));
    GatherIds(names, selectors);
    var models: seq<Model> := [];
    for i := 0 to |records|
      invariant models == built[..i]
      invariant forall m <- models :: ValidModel(m)
      invariant Gathered(Ids(names) + Aliases(names[..i]), selectors)
    {
      var model := TryModel(provider, records[i]);
      assert built[i] == BuildModel(provider, records[i]) && built[i] in built;
      if model.Err? {
        return Err(model.error);
      }
      var repeat;
      selectors, repeat := InsertAll(selectors, model.value.aliases, Ids(names) + Aliases(names[..i]));
      GatherAliases(names, i, selectors, repeat);
      if repeat.Some? {
        return Err(DuplicateModelSelector(provider, repeat.value));
      }
      models := models + [model.value];
      assert models == built[..i + 1];
    }
    assert models == built && names[..|records|] == names;
    GatheredAll(names, selectors);
    return Ok(models);
  }

  /**
   * Validates one provider record. It succeeds exactly when the provider it describes is valid: the
   * loop that inserts selectors one by one accepts precisely the records whose selectors are all
   * different.
   */
  method TryProvider(record: ProviderRecord) returns (r: Result<Provider, CatalogError>)
    requires InKeyOrder(RecordIds(record.models))
    ensures r.Ok? <==> ValidProvider(BuildProvider(record))
    ensures r.Ok? ==> r.value == BuildProvider(record)
    ensures r.Err? ==> BlamesRecord(r.error, record)
    ensures !ValidIdentifier(record.id, false) ==> r == Err(InvalidIdentifier(record.id))
    ensures
      var models := BuildModels(record.id, record.models);
      && ValidIdentifier(record.id, false)
      && (forall alias <- record.aliases :: ValidIdentifier(alias, false))
      && (forall m <- models :: ValidModel(m)) && Distinct(Selectors(ModelNames(models))) ==>
        if record.defaultModel.Some? && record.defaultModel.value !in RecordIds(record.models)
        then r == Err(UnknownDefaultModel(record.id, record.defaultModel.value))
        else if record.standsInFor == Some(record.id) then r == Err(StandsInForItself(record.id))
        else r.Ok?
  {
    hide Distinct, Repeats, ValidModel, Selectors, ValidIdentifier, InKeyOrder, BlamesModel;
    var checked := ValidateIdentifier(record.id, false);
    if checked.Err? {
      return Err(checked.error);
    }
    checked := ValidateIdentifiers(record.aliases);
    if checked.Err? {
      return Err(checked.error);
    }
    var models := TryModels(record.id, record.models);
    if models.Err? {
      return Err(models.error);
    }
    assert RecordIds(record.models) == Ids(ModelNames(models.value));
    if record.defaultModel.Some? && record.defaultModel.value !in RecordIds(record.models) {
      return Err(UnknownDefaultModel(record.id, record.defaultModel.value));
    }
    if record.standsInFor == Some(record.id) {
      return Err(StandsInForItself(record.id));
    }
    return Ok(Provider(record.id, models.value, record.aliases, record.priority, record.allowPassthrough,
                       record.enabled, record.standsInFor, record.defaultModel));
  }

  /** Builds the providers in key order, inserting every alias into the selector set; a repeat refuses the document. */
  method TryProviders(records: seq<ProviderRecord>, origins: map<string, string>)
    returns (r: Result<seq<Provider>, LayeredError>)
    requires InKeyOrder(DocumentIds(records))
    requires forall record <- records :: InKeyOrder(RecordIds(record.models))
    ensures r.Ok? <==>
      (forall p <- BuildProviders(records) :: ValidProvider(p)) &&
      Distinct(Selectors(ProviderNames(BuildProviders(records))))
    ensures r.Ok? ==> r.value == BuildProviders(records)
    ensures r.Err? ==>
      exists record <- records ::
        && r.error == (if record.id in origins then Layered(origins[record.id], r.error.source) else Plain(r.error.source))
        && BlamesProvider(r.error.source, record, records)
  {
    hide Distinct, Repeats, Gathered, ValidProvider, Aliases, BuildProvider;
    ghost var built := BuildProviders(records);
    ghost var names := ProviderNames(built);
    assert DocumentIds(records) == Ids(names) by { BuiltIds(records); }
    var selectors := CollectIds(DocumentIds(records));
    GatherIds(names, selectors);
    var providers: seq<Provider> := [];
    for i := 0 to |records|
      invariant providers == built[..i]
      invariant forall p <- providers :: ValidProvider(p)
      invariant Gathered(Ids(names) + Aliases(names[..i]), selectors)
    {
      var provider := TryProvider(records[i]);
      assert built[i] == BuildProvider(records[i]) && built[i] in built;
      assert records[i] in records;
      if provider.Err? {
        assert BlamesProvider(provider.error, records[i], records) by { RecordBlameIsProviderBlame(provider.error, records[i], records); }
        return Err(InLayer(origins, records[i].id, provider.error));
      }
      var repeat;
      selectors, repeat := InsertAll(selectors, provider.value.aliases, Ids(names) + Aliases(names[..i]));
      GatherAliases(names, i, selectors, repeat);
      if repeat.Some? {
        assert provider.value.aliases == records[i].aliases by { BuiltAliases(records[i]); }
        assert BlamesProvider(DuplicateProviderAlias(repeat.value), records[i], records);
        return Err(InLayer(origins, records[i].id, DuplicateProviderAlias(repeat.value)));
      }
      providers := providers + [provider.value];
      assert providers == built[..i + 1];
    }
    assert providers == built && names[..|records|] == names;
    GatheredAll(names, selectors);
    return Ok(providers);
  }

  lemma RecordBlameIsProviderBlame(e: CatalogError, record: ProviderRecord, records: seq<ProviderRecord>)
    requires BlamesRecord(e, record)
    ensures BlamesProvider(e, record, records)
  {}

  lemma BuiltAliases(record: ProviderRecord)
    ensures BuildProvider(record).aliases == record.aliases
  {}

  lemma BuiltIds(records: seq<ProviderRecord>)
    ensures DocumentIds(records) == Ids(ProviderNames(BuildProviders(records)))
  {}

  /**
   * Validates a whole document. A catalog comes out exactly when the schema version is supported and
   * the catalog the records describe is valid, and then it is that catalog, in key order. An error is
   * one the document deserves, in the layer of the provider it is about.
   */
  method FromDocument(version: nat, records: seq<ProviderRecord>, origins: map<string, string>)
    returns (r: Result<Catalog, LayeredError>)
    requires InKeyOrder(DocumentIds(records))
    requires forall record <- records :: InKeyOrder(RecordIds(record.models))
    ensures r.Ok? <==> version == 1 && ValidCatalog(Catalog(BuildProviders(records)))
    ensures r.Ok? ==> r.value == Catalog(BuildProviders(records)) && WellKeyed(r.value)
    ensures r.Ok? ==>
      |r.value.providers| == |records| && forall i :: 0 <= i < |records| ==> Mirrors(r.value.providers[i], records[i])
    ensures r.Err? ==> Blames(r.error, version, records, origins)
    ensures version != 1 ==> r == Err(Plain(UnsupportedSchemaVersion(version)))
    ensures version == 1 && records == [] ==> r == Err(Plain(NoProviders))
  {
    hide Distinct, Repeats, ValidProvider, Selectors, WellKeyed, InKeyOrder;
    if version != SCHEMA_VERSION {
      return Err(Plain(UnsupportedSchemaVersion(version)));
    }
    if records == [] {
      return Err(Plain(NoProviders));
    }
    var tried := TryProviders(records, origins);
    if tried.Err? {
      return Err(tried.error);
    }
    var providers := tried.value;
    for i := 0 to |providers|
      invariant forall k :: 0 <= k < i ==>
        providers[k].standsInFor.Some? ==> providers[k].standsInFor.value in Ids(ProviderNames(providers))
    {
      var target := providers[i].standsInFor;
      if target.Some? && target.value !in Ids(ProviderNames(providers)) {
        assert providers[i] in providers && records[i] in records;
        assert Ids(ProviderNames(providers)) == DocumentIds(records) by { BuiltIds(records); }
        return Err(InLayer(origins, providers[i].id, UnknownStandInTarget(providers[i].id, target.value)));
      }
    }
    BuiltIsWellKeyed(records);
    assert forall i :: 0 <= i < |records| ==> Mirrors(providers[i], records[i]) by { BuiltMirrors(records); }
    return Ok(Catalog(providers));
  }

  /** A provider and its models with every field as recorded. */
  predicate Mirrors(p: Provider, record: ProviderRecord) {
    && p.id == record.id && p.aliases == record.aliases && p.priority == record.priority
    && p.enabled == record.enabled && p.allowPassthrough == record.allowPassthrough
    && p.standsInFor == record.standsInFor && p.defaultModel == record.defaultModel
    && |p.models| == |record.models|
    && forall k :: 0 <= k < |p.models| ==>
         && p.models[k].id == record.models[k].id && p.models[k].aliases == record.models[k].aliases
         && p.models[k].apiModel == record.models[k].apiModel
         && p.models[k].provider == record.id && !p.models[k].passthrough
  }

  lemma BuiltMirrors(records: seq<ProviderRecord>)
    ensures forall i :: 0 <= i < |records| ==> Mirrors(BuildProviders(records)[i], records[i])
  {}

  lemma BuiltIsWellKeyed(records: seq<ProviderRecord>)
    requires InKeyOrder(DocumentIds(records))
    requires forall record <- records :: InKeyOrder(RecordIds(record.models))
    ensures WellKeyed(Catalog(BuildProviders(records)))
  {
    var built := BuildProviders(records);
    assert Ids(ProviderNames(built)) == DocumentIds(records);
    forall p | p in built
      ensures InKeyOrder(Ids(ModelNames(p.models))) && forall m <- p.models :: m.provider == p.id && !m.passthrough
    {
      var i :| 0 <= i < |built| && built[i] == p;
      assert records[i] in records;
      assert Ids(ModelNames(p.models)) == RecordIds(records[i].models);
    }
  }
}
