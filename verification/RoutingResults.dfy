/**
 * What each form of selector resolves to over a validated catalog, in terms of the catalog's own
 * fields: a provider's name, a provider and a model on it, "default", and a bare model name.
 */
module RoutingResults {
  import opened Wrappers
  import opened Sorting
  import opened Catalog
  import opened Offerings
  import opened Resolver
  import opened RoutingLaws

  predicate GoesBy(p: Provider, name: string) {
    p.id == name || name in p.aliases
  }

  /** An enabled, available provider that stands in for another. */
  predicate StandsIn(q: Provider, p: Provider, available: set<string>) {
    q.enabled && q.id in available && q.standsInFor == Some(p.id)
  }

  /** Who serves what is addressed to `p`: `p` when it is available, else the first provider by id that stands in for it. */
  ghost predicate Serves(c: Catalog, available: set<string>, p: Provider, q: Provider) {
    && p.enabled
    && (if p.id in available then q == p
        else
          exists k :: 0 <= k < |c.providers| && c.providers[k] == q && StandsIn(q, p, available)
                      && forall i :: 0 <= i < k ==> !StandsIn(c.providers[i], p, available))
  }

  /** The error a provider gives when nobody can serve it. */
  ghost predicate Refuses(c: Catalog, available: set<string>, p: Provider, e: SelectionError) {
    || (!p.enabled && e == ProviderDisabled(p.id))
    || (p.enabled && p.id !in available && (forall q <- c.providers :: !StandsIn(q, p, available))
        && e == ProviderUnavailable(p.id))
  }

  lemma ServerIs(c: Catalog, available: set<string>, p: Provider)
    requires p in c.providers
    ensures match ServingProvider(c, p, available)
            case Ok(q) => Serves(c, available, p, q) && q in c.providers && q.enabled && q.id in available
            case Err(e) => Refuses(c, available, p, e)
  {
    ServingProviderIs(c, p, available);
    FirstSound(c.providers, StandsInFor(p.id, available));
    assert forall q :: StandsInFor(p.id, available)(q) <==> StandsIn(q, p, available);
    if p.enabled && p.id !in available && ServingProvider(c, p, available).Ok? {
      var q := ServingProvider(c, p, available).value;
      var k :| 0 <= k < |c.providers| && c.providers[k] == q
               && forall i :: 0 <= i < k ==> !StandsInFor(p.id, available)(c.providers[i]);
      assert StandsIn(q, p, available);
    }
  }

  /** Nobody else serves a provider, and one that is refused has no server. */
  lemma ServerIsTheOnlyOne(c: Catalog, available: set<string>, p: Provider, q: Provider)
    requires p in c.providers && Serves(c, available, p, q)
    ensures ServingProvider(c, p, available) == Ok(q)
  {
    ServerIs(c, available, p);
    if p.id !in available {
      var k :| 0 <= k < |c.providers| && c.providers[k] == q && StandsIn(q, p, available)
               && forall i :: 0 <= i < k ==> !StandsIn(c.providers[i], p, available);
      assert q in c.providers;
      var found := ServingProvider(c, p, available).value;
      var l :| 0 <= l < |c.providers| && c.providers[l] == found && StandsIn(found, p, available)
               && forall i :: 0 <= i < l ==> !StandsIn(c.providers[i], p, available);
      assert k == l;
    }
  }

  /**
   * A provider's id or alias resolves to whoever serves that provider, at the server's own default
   * model. It fails when the provider is disabled, when nobody serves it, and when the server names no
   * default, each with its own error.
   */
  lemma ProviderNameResolves(c: Catalog, available: set<string>, p: Provider, name: string)
    requires Built(c) && p in c.providers && GoesBy(p, name) && name != "default"
    ensures
      var r := Resolve(c, available, name);
      || (r.Err? && Refuses(c, available, p, r.error))
      || exists q :: Serves(c, available, p, q)
    ensures forall q :: Serves(c, available, p, q) ==>
      var r := Resolve(c, available, name);
      if q.defaultModel.None? then r == Err(ProviderHasNoDefault(q.id))
      else r.Ok? && r.value.provider == q && r.value.model in q.models && r.value.model.id == q.defaultModel.value
  {
    assert ValidProvider(p);
    PlainIdentifiersHaveNoSlash(name);
    SplitHolds(name);
    ProviderSelectorsFindTheirProvider(c, p, name);
    ServerIs(c, available, p);
    forall q | Serves(c, available, p, q)
      ensures ServingProvider(c, p, available) == Ok(q) && q in c.providers
    {
      ServerIsTheOnlyOne(c, available, p, q);
    }
    if ServingProvider(c, p, available).Ok? {
      ProviderDefaultResolves(c, ServingProvider(c, p, available).value);
    }
    hide Serves, Refuses, Built, ResolveProviderDefault, ServingProvider, FindProvider;
  }

  /** The text before the first slash names a provider and the rest a model on whoever serves it. */
  lemma HandleResolves(c: Catalog, available: set<string>, p: Provider, name: string, model: string)
    requires Built(c) && p in c.providers && GoesBy(p, name)
    ensures
      var r := Resolve(c, available, name + "/" + model);
      || (r.Err? && Refuses(c, available, p, r.error))
      || exists q :: Serves(c, available, p, q)
    ensures forall q :: Serves(c, available, p, q) ==>
      q in c.providers && Resolve(c, available, name + "/" + model) == ResolveExplicit(q, model)
  {
    assert ValidProvider(p);
    PlainIdentifiersHaveNoSlash(name);
    HandleSplits(name, model);
    ProviderSelectorsFindTheirProvider(c, p, name);
    ServerIs(c, available, p);
    forall q | Serves(c, available, p, q)
      ensures ServingProvider(c, p, available) == Ok(q) && q in c.providers
    {
      ServerIsTheOnlyOne(c, available, p, q);
    }
    hide Serves, Refuses, Built, ResolveExplicit, ServingProvider, FindProvider;
  }

  /**
   * On the provider that serves it, the model part of a handle is a model's id or alias; failing that,
   * the first model sent under that name on the wire; failing that, it is passed through as it is where
   * the provider allows it and it is not blank. Otherwise the error names the provider and the model.
   */
  lemma ModelOnAProviderResolves(c: Catalog, p: Provider, model: string)
    requires Built(c) && p in c.providers
    ensures forall m :: m in p.models && (m.id == model || model in m.aliases) ==>
      ResolveExplicit(p, model) == Ok(Route(p, m))
    ensures (forall m <- p.models :: m.id != model && model !in m.aliases) ==>
      forall k :: 0 <= k < |p.models| && p.models[k].apiModel == model
                  && (forall i :: 0 <= i < k ==> p.models[i].apiModel != model) ==>
        ResolveExplicit(p, model) == Ok(Route(p, p.models[k]))
    ensures (forall m <- p.models :: m.id != model && model !in m.aliases && m.apiModel != model) ==>
      && (p.allowPassthrough && (exists ch :: ch in model && '!' <= ch <= '~') ==>
            ResolveExplicit(p, model) == Ok(Route(p, Model(p.id, model, true, [], model))))
      && (!p.allowPassthrough || (forall ch :: ch in model ==> ch == ' ' || ch == '\t' || ch == '\n' || ch == '\r') ==>
            ResolveExplicit(p, model) == Err(ModelNotFound(p.id + "/" + model)))
  {
    assert ValidProvider(p);
    ProviderModelSound(p, model);
    forall m | m in p.models && (m.id == model || model in m.aliases)
      ensures ResolveExplicit(p, model) == Ok(Route(p, m))
    {
      ModelSelectorsFindTheirModel(p, m, model);
      OwnerIsFound(c, p, m);
    }
    if forall m <- p.models :: m.id != model && model !in m.aliases {
      if ProviderModel(p, model).Some? {
        OwnerIsFound(c, p, ProviderModel(p, model).value);
      }
    }
    hide Built, ProviderModel;
  }

  /** A handle whose first part names no provider is refused by that part. */
  lemma UnknownProviderIsRefused(c: Catalog, available: set<string>, name: string, model: string)
    requires '/' !in name && forall p <- c.providers :: !GoesBy(p, name)
    ensures Resolve(c, available, name + "/" + model) == Err(ProviderNotFound(name))
  {
    HandleSplits(name, model);
    FindProviderSound(c, name);
  }

  predicate HasDefault(p: Provider, available: set<string>) {
    p.enabled && p.id in available && p.defaultModel.Some?
  }

  /** "default" is the default model of the enabled, available provider of highest priority that names one, ties going to the smaller id. */
  lemma DefaultResolves(c: Catalog, available: set<string>)
    requires Built(c)
    ensures
      var r := Resolve(c, available, "default");
      if forall p <- c.providers :: !HasDefault(p, available) then r == Err(NoDefaultModel)
      else
        && r.Ok?
        && var p, m := r.value.provider, r.value.model;
           && p in c.providers && HasDefault(p, available)
           && m in p.models && m.id == p.defaultModel.value
           && forall q :: q in c.providers && HasDefault(q, available) && q != p ==>
                p.priority > q.priority || (p.priority == q.priority && Less(p.id, q.id))
  {
    SplitHolds("default");
    BestDefault(c, available);
    var sorted := StableSort(Filter(c.providers, DefaultCandidate(available)), HigherPriority);
    hide Filter, StableSort, Built, ResolveProviderDefault, HasDefault;
    if sorted != [] {
      ProviderDefaultResolves(c, sorted[0]);
    }
  }

  lemma BestDefault(c: Catalog, available: set<string>)
    requires Built(c)
    ensures
      var sorted := StableSort(Filter(c.providers, DefaultCandidate(available)), HigherPriority);
      if sorted == [] then forall p <- c.providers :: !HasDefault(p, available)
      else
        && sorted[0] in c.providers && HasDefault(sorted[0], available)
        && forall q :: q in c.providers && HasDefault(q, available) && q != sorted[0] ==>
             sorted[0].priority > q.priority || (sorted[0].priority == q.priority && Less(sorted[0].id, q.id))
  {
    var filtered := Filter(c.providers, DefaultCandidate(available));
    var sorted := StableSort(filtered, HigherPriority);
    FilterMembers(c.providers, DefaultCandidate(available));
    SortMembers(filtered, HigherPriority);
    CatalogIdsAreDistinct(c);
    FilterKeepsKeysDistinct(c.providers, DefaultCandidate(available), ProviderId);
    SortedProvidersAreRanked(filtered);
    hide Filter, StableSort, Built, ValidCatalog, Less;
    forall q | q in c.providers && HasDefault(q, available)
      ensures q in sorted
    {
      assert DefaultCandidate(available)(q);
    }
    if sorted != [] {
      assert sorted[0] in sorted;
      forall q | q in sorted && q != sorted[0]
        ensures Before(sorted[0], q)
      {
        var k :| 0 <= k < |sorted| && sorted[k] == q;
        assert Before(sorted[0], sorted[k]);
      }
    }
  }

  /** A model an enabled, available provider offers under `name`. */
  predicate OfferedAs(p: Provider, m: Model, available: set<string>, name: string) {
    p.enabled && p.id in available && m in p.models && (m.id == name || name in m.aliases)
  }

  /**
   * A name that is no provider's resolves to a model so called: one whose id it is before one whose
   * alias it is, then the provider of higher priority, then of smaller id. It is unknown exactly when no
   * enabled, available provider offers it.
   */
  lemma BareNameResolves(c: Catalog, available: set<string>, name: string)
    requires Built(c) && '/' !in name && name != "default" && forall p <- c.providers :: !GoesBy(p, name)
    ensures
      var r := Resolve(c, available, name);
      if forall p, m :: p in c.providers ==> !OfferedAs(p, m, available, name) then r == Err(ModelNotFound(name))
      else
        && r.Ok?
        && var p, m := r.value.provider, r.value.model;
           && p in c.providers && OfferedAs(p, m, available, name)
           && forall q, n :: q in c.providers && OfferedAs(q, n, available, name) && n != m ==>
                Outranks(Offering(p, m), Offering(q, n), name)
  {
    SplitHolds(name);
    FindProviderSound(c, name);
    BareSelectorPicksTheBest(c, available, name);
    BareIsSound(c, available, name);
    hide ResolveBare, FindProvider, Built, OfferingRank, Sound;
    var r := ResolveBare(c, available, name);
    assert Resolve(c, available, name) == r;
    hide Resolve;
    if r.Ok? {
      BareRouteIsOffered(c, available, name);
      forall q, n | q in c.providers && OfferedAs(q, n, available, name) && n != r.value.model
        ensures Outranks(Offering(r.value.provider, r.value.model), Offering(q, n), name)
      {
        RankIsOutranking(Offering(r.value.provider, r.value.model), Offering(q, n), name);
        assert Matches(n, name);
      }
      assert OfferedAs(r.value.provider, r.value.model, available, name);
    } else {
      forall p, m | p in c.providers
        ensures !OfferedAs(p, m, available, name)
      {
        assert Matches(m, name) <==> m.id == name || name in m.aliases;
      }
    }
  }

  lemma BareRouteIsOffered(c: Catalog, available: set<string>, name: string)
    requires Built(c) && ResolveBare(c, available, name).Ok?
    ensures
      var route := ResolveBare(c, available, name).value;
      && route.provider in c.providers && route.provider.enabled && route.provider.id in available
      && route.model in route.provider.models && Matches(route.model, name)
  {
    hide Matches, RankedMatches;
    RankedMatchesMembers(c, available, name);
    var ranked := RankedMatches(c, available, name);
    assert ranked[0] in ranked;
    var p :| p in c.providers && p.enabled && p.id in available && ranked[0] in p.models && Matches(ranked[0], name);
    OwnerIsFound(c, p, ranked[0]);
  }
}
