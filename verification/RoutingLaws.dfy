/**
 * What routing promises over every validated catalog: the resolver and the offering queries rank
 * alike, every route is sound, and printed handles resolve to what they name.
 */
module RoutingLaws {
  import opened Wrappers
  import opened Sorting
  import opened Catalog
  import opened Offerings
  import opened Resolver

  ghost predicate Built(c: Catalog) {
    ValidCatalog(c) && WellKeyed(c)
  }

  // ---------------------------------------------------------------------------------------------
  // The two rankings agree
  // ---------------------------------------------------------------------------------------------

  function ModelsOf(offerings: seq<Offering>): seq<Model> {
    seq(|offerings|, i requires 0 <= i < |offerings| => offerings[i].model)
  }

  function OfferingIn(available: set<string>): Offering -> bool {
    (o: Offering) => o.model.provider in available
  }

  /** The strict order behind the resolver's comparison. */
  function MatchBefore(c: Catalog, selector: string): (Model, Model) -> bool {
    (a: Model, b: Model) => MatchOrder(c, selector)(a, b) && !MatchOrder(c, selector)(b, a)
  }

  function OwnerOf(m: Model): string {
    m.provider
  }

  lemma MatchOrderIsAPreorder(c: Catalog, selector: string)
    ensures TotalPreorder(MatchOrder(c, selector))
  {
    var le := MatchOrder(c, selector);
    forall a: Model, b: Model
      ensures le(a, b) || le(b, a)
    {
      if Less(b.provider, a.provider) && Less(a.provider, b.provider) {
        LessIsTransitive(a.provider, b.provider, a.provider);
        LessIsIrreflexive(a.provider);
      }
    }
    forall x: Model, y: Model, z: Model | le(x, y) && le(y, z)
      ensures le(x, z)
    {
      LessIsTotal(x.provider, y.provider);
      if Less(z.provider, x.provider) && Less(x.provider, y.provider) {
        LessIsTransitive(z.provider, x.provider, y.provider);
      }
    }
  }

  lemma {:induction false} AllModelsMembers(providers: seq<Provider>)
    ensures forall m :: m in AllModels(providers) <==> exists p :: p in providers && m in p.models
  {
    if providers != [] {
      AllModelsMembers(providers[1..]);
      assert providers == [providers[0]] + providers[1..];
      forall m
        ensures m in AllModels(providers) <==> exists p :: p in providers && m in p.models
      {
        if m in AllModels(providers[1..]) {
          var p :| p in providers[1..] && m in p.models;
          assert p in providers;
        }
        if p :| p in providers && m in p.models {
          assert p == providers[0] || p in providers[1..];
        }
      }
    }
  }

  /** Matches of one selector all sit on different providers. */
  lemma {:induction false} MatchesHaveDistinctOwners(providers: seq<Provider>, selector: string)
    requires DistinctKeys(providers, ProviderId)
    requires forall p <- providers :: ValidProvider(p) && forall m <- p.models :: m.provider == p.id
    ensures DistinctKeys(Filter(AllModels(providers), ModelMatches(selector)), OwnerOf)
  {
    hide ValidProvider, Matches;
    if providers != [] {
      var p, rest, keep := providers[0], providers[1..], ModelMatches(selector);
      MatchesHaveDistinctOwners(rest, selector);
      FilterConcat(p.models, AllModels(rest), keep);
      OneMatchPerProvider(p, selector);
      FilterMembers(p.models, keep);
      FilterMembers(AllModels(rest), keep);
      AllModelsMembers(rest);
      var head, tail := Filter(p.models, keep), Filter(AllModels(rest), keep);
      hide Filter, AllModels;
      forall j | 0 <= j < |tail|
        ensures OwnerOf(tail[j]) != p.id
      {
        assert tail[j] in tail;
        var q :| q in rest && tail[j] in q.models;
        var k :| 0 <= k < |rest| && rest[k] == q;
        assert ProviderId(providers[0]) != ProviderId(providers[k + 1]);
      }
      if head != [] {
        assert head[0] in head;
      }
    }
  }

  lemma OneMatchPerProvider(p: Provider, selector: string)
    requires ValidProvider(p)
    ensures |Filter(p.models, ModelMatches(selector))| <= 1
  {
    forall i, j | 0 <= i < |p.models| && 0 <= j < |p.models|
                  && ModelMatches(selector)(p.models[i]) && ModelMatches(selector)(p.models[j])
      ensures i == j
    {
      MatchIsUnique(p, i, j, selector);
    }
    FilterAtMostOne(p.models, ModelMatches(selector));
  }

  lemma OwnerIsFound(c: Catalog, p: Provider, m: Model)
    requires Built(c) && p in c.providers && m in p.models
    ensures m.provider == p.id && ProviderById(c, p.id) == Some(p) && FindProvider(c, p.id) == Some(p)
    ensures PriorityOf(c, m.provider) == p.priority
  {
    ProviderSelectorsFindTheirProvider(c, p, p.id);
    FirstSound(c.providers, ProviderHasId(p.id));
    assert p in c.providers && ProviderHasId(p.id)(p);
  }

  lemma RankedMatchesMembers(c: Catalog, available: set<string>, selector: string)
    requires Built(c)
    ensures forall m :: m in RankedMatches(c, available, selector) <==>
      exists p :: p in c.providers && p.enabled && p.id in available && m in p.models && Matches(m, selector)
  {
    hide ValidCatalog, Matches;
    AllModelsMembers(c.providers);
    FilterMembers(AllModels(c.providers), ModelMatches(selector));
    FilterMembers(ModelsMatching(c, selector), Reachable(c, available));
    SortMembers(Filter(ModelsMatching(c, selector), Reachable(c, available)), MatchOrder(c, selector));
    forall m
      ensures m in RankedMatches(c, available, selector) <==>
        exists p :: p in c.providers && p.enabled && p.id in available && m in p.models && Matches(m, selector)
    {
      forall p | p in c.providers && m in p.models
        ensures Reachable(c, available)(m) <==> p.enabled && p.id in available
      {
        OwnerIsFound(c, p, m);
      }
    }
  }

  lemma RankedMatchesAreStrict(c: Catalog, available: set<string>, selector: string)
    requires Built(c)
    ensures SortedBy(RankedMatches(c, available, selector), MatchBefore(c, selector))
  {
    var matches := Filter(ModelsMatching(c, selector), Reachable(c, available));
    var le := MatchOrder(c, selector);
    CatalogIdsAreDistinct(c);
    MatchesHaveDistinctOwners(c.providers, selector);
    FilterKeepsKeysDistinct(ModelsMatching(c, selector), Reachable(c, available), OwnerOf);
    SortKeepsKeysDistinct(matches, le, OwnerOf);
    MatchOrderIsAPreorder(c, selector);
    SortSorts(matches, le);
    var ranked := RankedMatches(c, available, selector);
    forall i, j | 0 <= i < j < |ranked|
      ensures MatchBefore(c, selector)(ranked[i], ranked[j])
    {
      assert le(ranked[i], ranked[j]) && OwnerOf(ranked[i]) != OwnerOf(ranked[j]);
      LessIsTotal(ranked[i].provider, ranked[j].provider);
    }
  }

  /** What the query lists for the available providers. */
  function Offered(c: Catalog, available: set<string>, selector: string): seq<Offering> {
    Filter(OfferingsMatching(c, selector), OfferingIn(available))
  }

  lemma OfferedAreRanked(c: Catalog, available: set<string>, selector: string)
    requires Built(c)
    ensures SortedBy(Offered(c, available, selector), OfferingRank(selector))
    ensures forall o :: o in Offered(c, available, selector) <==>
      o.provider in c.providers && o.provider.enabled && o.model in o.provider.models
      && Matches(o.model, selector) && o.model.provider in available
  {
    OfferingsAreRanked(c, selector);
    FilterKeepsOrder(OfferingsMatching(c, selector), OfferingIn(available), OfferingRank(selector));
    FilterMembers(OfferingsMatching(c, selector), OfferingIn(available));
  }

  lemma RanksCorrespond(c: Catalog, selector: string, a: Offering, b: Offering)
    requires Built(c) && a.provider in c.providers && b.provider in c.providers
    requires a.model in a.provider.models && b.model in b.provider.models
    requires OfferingRank(selector)(a, b)
    ensures MatchBefore(c, selector)(a.model, b.model)
  {
    hide Built, PriorityOf, FindProvider, ProviderById, Less;
    OwnerIsFound(c, a.provider, a.model);
    OwnerIsFound(c, b.provider, b.model);
    if Before(a.provider, b.provider) {
      BeforeIsAsymmetric(a.provider, b.provider);
    }
    assert MatchOrder(c, selector)(a.model, b.model);
    assert !MatchOrder(c, selector)(b.model, a.model);
  }

  lemma OfferedModelsAreStrict(c: Catalog, available: set<string>, selector: string)
    requires Built(c)
    ensures SortedBy(ModelsOf(Offered(c, available, selector)), MatchBefore(c, selector))
  {
    hide Built, Matches, OfferingsMatching, MatchBefore, OfferingRank;
    var offered := Offered(c, available, selector);
    OfferedAreRanked(c, available, selector);
    forall i, j | 0 <= i < j < |offered|
      ensures MatchBefore(c, selector)(offered[i].model, offered[j].model)
    {
      assert offered[i] in offered && offered[j] in offered && OfferingRank(selector)(offered[i], offered[j]);
      RanksCorrespond(c, selector, offered[i], offered[j]);
    }
  }

  lemma OfferedModelsMembers(c: Catalog, available: set<string>, selector: string)
    requires Built(c)
    ensures forall m :: m in ModelsOf(Offered(c, available, selector)) <==>
      exists p :: p in c.providers && p.enabled && p.id in available && m in p.models && Matches(m, selector)
  {
    hide Built, Matches, OfferingsMatching, Offered;
    var offered := Offered(c, available, selector);
    var models := ModelsOf(offered);
    OfferedAreRanked(c, available, selector);
    forall m
      ensures m in models <==>
        exists p :: p in c.providers && p.enabled && p.id in available && m in p.models && Matches(m, selector)
    {
      if m in models {
        var i :| 0 <= i < |models| && models[i] == m;
        assert offered[i] in offered;
        OwnerIsFound(c, offered[i].provider, m);
      }
      if p :| p in c.providers && p.enabled && p.id in available && m in p.models && Matches(m, selector) {
        OwnerIsFound(c, p, m);
        assert Offering(p, m) in offered;
        var i :| 0 <= i < |offered| && offered[i] == Offering(p, m);
        assert models[i] == m;
      }
    }
  }

  /**
   * The resolver's ranking and the offering query's are written independently, over different
   * comparisons. On every catalog, available set and selector they give the same models in the same
   * order once the query is narrowed to the available providers.
   */
  lemma RankingsAgree(c: Catalog, available: set<string>, selector: string)
    requires Built(c)
    ensures RankedMatches(c, available, selector) ==
            ModelsOf(Filter(OfferingsMatching(c, selector), OfferingIn(available)))
  {
    RankedMatchesMembers(c, available, selector);
    RankedMatchesAreStrict(c, available, selector);
    OfferedModelsMembers(c, available, selector);
    OfferedModelsAreStrict(c, available, selector);
    var offered := ModelsOf(Offered(c, available, selector));
    var ranked := RankedMatches(c, available, selector);
    hide RankedMatches, OfferingsMatching, Matches, Built;
    assert forall m :: m in ranked <==> m in offered;
    StrictOrderIsUnique(ranked, offered, MatchBefore(c, selector));
  }

  // ---------------------------------------------------------------------------------------------
  // The two defaults agree
  // ---------------------------------------------------------------------------------------------

  lemma DefaultsExist(p: Provider)
    requires ValidProvider(p)
    ensures OffersDefault(p) <==> p.defaultModel.Some?
    ensures p.defaultModel.Some? ==>
      exists m :: m in p.models && m.id == p.defaultModel.value && ProviderModel(p, m.id) == Some(m)
  {
    if p.defaultModel.Some? {
      var k :| 0 <= k < |p.models| && Ids(ModelNames(p.models))[k] == p.defaultModel.value;
      assert p.models[k] in p.models;
      ModelSelectorsFindTheirModel(p, p.models[k], p.models[k].id);
    }
  }

  /** A provider that names a default always resolves to it, and to that exact model. */
  lemma ProviderDefaultResolves(c: Catalog, p: Provider)
    requires Built(c) && p in c.providers
    ensures p.defaultModel.None? ==> ResolveProviderDefault(p) == Err(ProviderHasNoDefault(p.id))
    ensures p.defaultModel.Some? ==>
      && ResolveProviderDefault(p).Ok?
      && ResolveProviderDefault(p).value.provider == p
      && ResolveProviderDefault(p).value.model in p.models
      && ResolveProviderDefault(p).value.model.id == p.defaultModel.value
      && DefaultOffering(p) == Some(Offering(p, ResolveProviderDefault(p).value.model))
  {
    DefaultsExist(p);
    if p.defaultModel.Some? {
      var m :| m in p.models && m.id == p.defaultModel.value && ProviderModel(p, m.id) == Some(m);
      OwnerIsFound(c, p, m);
    }
  }

  function ReadyDefault(ready: set<string>): Provider -> bool {
    (p: Provider) => p.id in ready && OffersDefault(p)
  }

  /** Filtering before sorting and sorting before filtering pick the same providers in the same order. */
  lemma DefaultCandidatesAgree(c: Catalog, ready: set<string>)
    requires Built(c)
    ensures StableSort(Filter(c.providers, DefaultCandidate(ready)), HigherPriority) ==
            Filter(EnabledProviders(c), ReadyDefault(ready))
  {
    hide ValidProvider, OffersDefault;
    var xs := StableSort(Filter(c.providers, DefaultCandidate(ready)), HigherPriority);
    var ys := Filter(EnabledProviders(c), ReadyDefault(ready));
    CatalogIdsAreDistinct(c);
    FilterKeepsKeysDistinct(c.providers, DefaultCandidate(ready), ProviderId);
    SortedProvidersAreRanked(Filter(c.providers, DefaultCandidate(ready)));
    SortMembers(Filter(c.providers, DefaultCandidate(ready)), HigherPriority);
    FilterMembers(c.providers, DefaultCandidate(ready));
    EnabledProvidersAreRanked(c);
    FilterKeepsOrder(EnabledProviders(c), ReadyDefault(ready), Before);
    FilterMembers(EnabledProviders(c), ReadyDefault(ready));
    forall p | p in c.providers
      ensures DefaultCandidate(ready)(p) <==> p.enabled && ReadyDefault(ready)(p)
    {
      DefaultsExist(p);
    }
    forall a, b | Before(a, b)
      ensures !Before(b, a)
    {
      BeforeIsAsymmetric(a, b);
    }
    hide Before, HigherPriority, ReadyDefault, DefaultCandidate, EnabledProviders, Built;
    StrictOrderIsUnique(xs, ys, Before);
  }

  lemma {:induction false} FilterTwice<T>(xs: seq<T>, p: T -> bool, q: T -> bool, both: T -> bool)
    requires forall i :: 0 <= i < |xs| ==> (both(xs[i]) <==> p(xs[i]) && q(xs[i]))
    ensures Filter(Filter(xs, p), q) == Filter(xs, both)
  {
    if xs != [] {
      assert both(xs[0]) <==> p(xs[0]) && q(xs[0]);
      FilterTwice(xs[1..], p, q, both);
      FilterConcat(if p(xs[0]) then [xs[0]] else [], Filter(xs[1..], p), q);
    }
  }

  /**
   * Resolving "default" gives exactly the query's default offering for the same providers, whenever
   * one of them is enabled and has a default. When none is, the resolver reports so while the query
   * falls back to any enabled provider's default.
   */
  lemma DefaultsAgree(c: Catalog, ready: set<string>)
    requires Built(c)
    ensures
      var someone := exists p :: p in c.providers && p.enabled && p.id in ready && p.defaultModel.Some?;
      && (someone ==>
            && ResolveDefault(c, ready).Ok?
            && DefaultOfferingFor(c, ready) ==
               Some(Offering(ResolveDefault(c, ready).value.provider, ResolveDefault(c, ready).value.model)))
      && (!someone ==>
            && ResolveDefault(c, ready) == Err(NoDefaultModel)
            && (DefaultOfferingFor(c, ready).Some? <==>
                  exists p :: p in c.providers && p.enabled && p.defaultModel.Some?))
  {
    hide ResolveProviderDefault, DefaultOffering;
    var providers := EnabledProviders(c);
    var narrowed := Filter(providers, ProviderIn(ready));
    var candidates := Filter(providers, ReadyDefault(ready));
    DefaultCandidatesAgree(c, ready);
    FilterMembers(c.providers, DefaultCandidate(ready));
    SortMembers(Filter(c.providers, DefaultCandidate(ready)), HigherPriority);
    FilterTwice(providers, ProviderIn(ready), OffersDefault, ReadyDefault(ready));
    FilterConcat(narrowed, providers, OffersDefault);
    FirstIs(narrowed + providers, OffersDefault);
    if candidates != [] {
      assert candidates[0] in candidates;
      ProviderDefaultResolves(c, candidates[0]);
    } else {
      EnabledProvidersAreRanked(c);
      FilterMembers(providers, OffersDefault);
      forall p | p in c.providers
        ensures OffersDefault(p) <==> p.defaultModel.Some?
      {
        DefaultsExist(p);
      }
      forall p | p in c.providers
        ensures !DefaultCandidate(ready)(p)
      {
        assert p !in Filter(c.providers, DefaultCandidate(ready));
      }
    }
  }

  // ---------------------------------------------------------------------------------------------
  // Routes are sound
  // ---------------------------------------------------------------------------------------------

  /** A route this catalog may give out: an enabled, available provider and a model it owns or passes through. */
  ghost predicate Sound(c: Catalog, available: set<string>, route: Route) {
    && route.provider in c.providers
    && route.provider.enabled
    && route.provider.id in available
    && route.model.provider == route.provider.id
    && (route.model in route.provider.models
        || (route.provider.allowPassthrough && route.model == Passthrough(route.provider, route.model.id)
            && !IsBlank(route.model.id) && ProviderModel(route.provider, route.model.id).None?))
  }

  lemma FindProviderSound(c: Catalog, selector: string)
    ensures FindProvider(c, selector).Some? ==>
      FindProvider(c, selector).value in c.providers
      && (FindProvider(c, selector).value.id == selector || selector in FindProvider(c, selector).value.aliases)
  {
    FirstSound(c.providers, ProviderHasId(selector));
    FirstSound(c.providers, ProviderHasAlias(selector));
  }

  /** Who serves routes addressed to a provider: itself when it can, otherwise the first available stand-in, otherwise nobody. */
  lemma ServingProviderIs(c: Catalog, p: Provider, available: set<string>)
    requires p in c.providers
    ensures ServingProvider(c, p, available).Ok? ==>
      var q := ServingProvider(c, p, available).value;
      && q in c.providers && q.enabled && q.id in available
      && (q == p || (p.id !in available && q.standsInFor == Some(p.id)))
      && (p.id in available ==> q == p)
      && (p.id !in available ==>
            exists k :: 0 <= k < |c.providers| && c.providers[k] == q
                        && forall i :: 0 <= i < k ==> !StandsInFor(p.id, available)(c.providers[i]))
    ensures ServingProvider(c, p, available).Ok? <==>
      p.enabled && (p.id in available
                    || exists q :: q in c.providers && q.enabled && q.id in available && q.standsInFor == Some(p.id))
  {
    FirstSound(c.providers, StandsInFor(p.id, available));
    if First(c.providers, StandsInFor(p.id, available)).Some? {
      FirstIsEarliest(c.providers, StandsInFor(p.id, available));
    }
    if p.enabled && p.id !in available {
      if q :| q in c.providers && q.enabled && q.id in available && q.standsInFor == Some(p.id) {
        assert StandsInFor(p.id, available)(q);
      }
    }
  }

  /** On one provider a selector resolves exactly when a model carries it in some form or the provider passes it through. */
  lemma ExplicitIsSound(c: Catalog, available: set<string>, p: Provider, selector: string)
    requires Built(c) && p in c.providers && p.enabled && p.id in available
    ensures ResolveExplicit(p, selector).Ok? ==>
      Sound(c, available, ResolveExplicit(p, selector).value) && ResolveExplicit(p, selector).value.provider == p
    ensures ResolveExplicit(p, selector).Ok? <==>
      || (exists m :: m in p.models && (Matches(m, selector) || m.apiModel == selector))
      || (p.allowPassthrough && !IsBlank(selector))
    ensures ResolveExplicit(p, selector).Err? ==>
      ResolveExplicit(p, selector) == Err(ModelNotFound(Handle(p.id, selector)))
  {
    ProviderModelSound(p, selector);
    if ProviderModel(p, selector).Some? {
      OwnerIsFound(c, p, ProviderModel(p, selector).value);
    }
  }

  lemma BareIsSound(c: Catalog, available: set<string>, selector: string)
    requires Built(c)
    ensures ResolveBare(c, available, selector).Ok? ==>
      Sound(c, available, ResolveBare(c, available, selector).value)
    ensures ResolveBare(c, available, selector).Err? ==>
      ResolveBare(c, available, selector) == Err(ModelNotFound(selector))
  {
    var matches := RankedMatches(c, available, selector);
    RankedMatchesMembers(c, available, selector);
    if matches != [] {
      assert matches[0] in matches;
      var p :| p in c.providers && p.enabled && p.id in available && matches[0] in p.models && Matches(matches[0], selector);
      OwnerIsFound(c, p, matches[0]);
    }
  }

  /** Every route resolved from a built catalog is sound, and a model never lands on a provider that does not own it. */
  lemma RoutesAreSound(c: Catalog, available: set<string>, selector: string)
    requires Built(c)
    ensures Resolve(c, available, selector).Ok? ==> Sound(c, available, Resolve(c, available, selector).value)
    ensures Resolve(c, available, selector).Err? ==> !Resolve(c, available, selector).error.ModelProviderMismatch?
  {
    hide ResolveExplicit, ResolveBare, ResolveProviderDefault, Sound, FindProvider, ServingProvider;
    if SplitOnce(selector).Some? {
      var (name, model) := SplitOnce(selector).value;
      FindProviderSound(c, name);
      if FindProvider(c, name).Some? {
        ServingIsSound(c, available, FindProvider(c, name).value, model);
      }
    } else if selector == "default" {
      DefaultIsSound(c, available);
    } else {
      FindProviderSound(c, selector);
      BareIsSound(c, available, selector);
      if FindProvider(c, selector).Some? {
        ServingIsSound(c, available, FindProvider(c, selector).value, selector);
      }
    }
  }

  lemma ServingIsSound(c: Catalog, available: set<string>, p: Provider, model: string)
    requires Built(c) && p in c.providers
    ensures
      var serving := ServingProvider(c, p, available);
      && (serving.Err? ==> !serving.error.ModelProviderMismatch?)
      && (serving.Ok? ==>
            && (ResolveExplicit(serving.value, model).Ok? ==>
                  Sound(c, available, ResolveExplicit(serving.value, model).value))
            && (ResolveExplicit(serving.value, model).Err? ==>
                  !ResolveExplicit(serving.value, model).error.ModelProviderMismatch?)
            && (ResolveProviderDefault(serving.value).Ok? ==>
                  Sound(c, available, ResolveProviderDefault(serving.value).value))
            && (ResolveProviderDefault(serving.value).Err? ==>
                  !ResolveProviderDefault(serving.value).error.ModelProviderMismatch?))
  {
    ServingProviderIs(c, p, available);
    if ServingProvider(c, p, available).Ok? {
      var q := ServingProvider(c, p, available).value;
      ExplicitIsSound(c, available, q, model);
      ProviderDefaultResolves(c, q);
      if q.defaultModel.Some? {
        OwnerIsFound(c, q, ResolveProviderDefault(q).value.model);
      }
    }
  }

  lemma DefaultIsSound(c: Catalog, available: set<string>)
    requires Built(c)
    ensures ResolveDefault(c, available).Ok? ==> Sound(c, available, ResolveDefault(c, available).value)
    ensures ResolveDefault(c, available).Err? ==> ResolveDefault(c, available) == Err(NoDefaultModel)
  {
    hide ResolveProviderDefault;
    var providers := StableSort(Filter(c.providers, DefaultCandidate(available)), HigherPriority);
    FilterMembers(c.providers, DefaultCandidate(available));
    SortMembers(Filter(c.providers, DefaultCandidate(available)), HigherPriority);
    if providers != [] {
      assert providers[0] in providers;
      ProviderDefaultResolves(c, providers[0]);
      OwnerIsFound(c, providers[0], ResolveProviderDefault(providers[0]).value.model);
    }
  }

  // ---------------------------------------------------------------------------------------------
  // Handles round-trip
  // ---------------------------------------------------------------------------------------------

  lemma {:induction false} HandleSplits(provider: string, model: string)
    requires '/' !in provider
    ensures SplitOnce(Handle(provider, model)) == Some((provider, model))
  {
    var s := Handle(provider, model);
    if provider == "" {
      assert s[1..] == model;
    } else {
      assert provider[0] in provider;
      assert s[1..] == Handle(provider[1..], model);
      HandleSplits(provider[1..], model);
      assert provider == [provider[0]] + provider[1..];
    }
  }

  /** Only a model id may hold a slash. */
  lemma PlainIdentifiersHaveNoSlash(name: string)
    requires ValidIdentifier(name, false)
    ensures '/' !in name
  {}

  /**
   * Resolving the printed handle of any route the resolver gave returns that same route, whatever
   * selector it came from: model ids holding slashes and passthrough models included.
   */
  lemma ResolvedHandlesAreFixed(c: Catalog, available: set<string>, route: Route)
    requires Built(c) && Sound(c, available, route)
    ensures Resolve(c, available, Handle(route.provider.id, route.model.id)) == Ok(route)
  {
    var p, m := route.provider, route.model;
    PlainIdentifiersHaveNoSlash(p.id);
    HandleSplits(p.id, m.id);
    ProviderSelectorsFindTheirProvider(c, p, p.id);
    if m in p.models {
      ModelSelectorsFindTheirModel(p, m, m.id);
    }
  }

  /** Any catalog model of an enabled, available provider is reached by its handle, and by the handle of any alias. */
  lemma CatalogHandlesRoundTrip(c: Catalog, available: set<string>, p: Provider, m: Model, name: string, selector: string)
    requires Built(c) && p in c.providers && p.enabled && p.id in available && m in p.models
    requires (name == p.id || name in p.aliases) && Matches(m, selector)
    ensures Resolve(c, available, Handle(name, selector)) == Ok(Route(p, m))
  {
    PlainIdentifiersHaveNoSlash(name);
    HandleSplits(name, selector);
    ProviderSelectorsFindTheirProvider(c, p, name);
    ModelSelectorsFindTheirModel(p, m, selector);
    OwnerIsFound(c, p, m);
  }

  // ---------------------------------------------------------------------------------------------
  // Bare selectors
  // ---------------------------------------------------------------------------------------------

  /**
   * A bare model name resolves exactly when some enabled, available provider offers it, and then to
   * the candidate no other outranks.
   */
  lemma BareSelectorPicksTheBest(c: Catalog, available: set<string>, selector: string)
    requires Built(c)
    ensures ResolveBare(c, available, selector).Ok? <==>
      exists p, m :: p in c.providers && p.enabled && p.id in available && m in p.models && Matches(m, selector)
    ensures ResolveBare(c, available, selector).Ok? ==>
      var best := ResolveBare(c, available, selector).value;
      forall p, m :: p in c.providers && p.enabled && p.id in available && m in p.models && Matches(m, selector) ==>
        m == best.model || OfferingRank(selector)(Offering(best.provider, best.model), Offering(p, m))
  {
    hide Matches, RankedMatches, MatchBefore, OfferingRank, Built, FindProvider, ProviderById;
    var ranked := RankedMatches(c, available, selector);
    RankedMatchesMembers(c, available, selector);
    RankedMatchesAreStrict(c, available, selector);
    if ranked != [] {
      assert ranked[0] in ranked;
      var q :| q in c.providers && q.enabled && q.id in available && ranked[0] in q.models && Matches(ranked[0], selector);
      OwnerIsFound(c, q, ranked[0]);
      forall p, m | p in c.providers && p.enabled && p.id in available && m in p.models && Matches(m, selector)
        ensures m == ranked[0] || OfferingRank(selector)(Offering(q, ranked[0]), Offering(p, m))
      {
        var k :| 0 <= k < |ranked| && ranked[k] == m;
        assert k == 0 || MatchBefore(c, selector)(ranked[0], ranked[k]);
        if k > 0 {
          MatchBeforeIsTheRank(c, selector, Offering(q, ranked[0]), Offering(p, m));
        }
      }
    }
  }

  lemma MatchBeforeIsTheRank(c: Catalog, selector: string, a: Offering, b: Offering)
    requires Built(c) && a.provider in c.providers && b.provider in c.providers
    requires a.model in a.provider.models && b.model in b.provider.models
    requires MatchBefore(c, selector)(a.model, b.model)
    ensures OfferingRank(selector)(a, b)
  {
    hide Built, PriorityOf, FindProvider, ProviderById, Less;
    OwnerIsFound(c, a.provider, a.model);
    OwnerIsFound(c, b.provider, b.model);
    LessIsTotal(a.provider.id, b.provider.id);
    assert MatchOrder(c, selector)(a.model, b.model) && !MatchOrder(c, selector)(b.model, a.model);
  }

  /** A selector the resolver takes for the bare name of a model. */
  predicate IsBare(c: Catalog, selector: string) {
    SplitOnce(selector).None? && selector != "default" && FindProvider(c, selector).None?
  }

  /**
   * The canonical id a query gives any selector without a provider is the best-ranked offering's. The
   * resolver's route of a bare name agrees: it needs an offering too, and is that one whenever its
   * provider is available.
   */
  lemma CanonicalIdIsRouted(c: Catalog, available: set<string>, selector: string)
    requires Built(c)
    ensures
      var all := OfferingsMatching(c, selector);
      && (CanonicalModelId(c, None, selector) == if all == [] then None else Some(all[0].model.id))
      && (IsBare(c, selector) ==>
            && (Resolve(c, available, selector).Ok? ==> all != [])
            && (all != [] && all[0].provider.id in available ==>
                  Resolve(c, available, selector) == Ok(Route(all[0].provider, all[0].model)))
            && ((forall p <- c.providers :: p.id in available) ==>
                  (Resolve(c, available, selector).Ok? <==> CanonicalModelId(c, None, selector).Some?)))
  {
    OfferingsAreRanked(c, selector);
    hide Built, RankedMatches, OfferingsMatching, ServingProvider, Matches;
    var all := OfferingsMatching(c, selector);
    RankingsAgree(c, available, selector);
    FilterMembers(all, OfferingIn(available));
    BareIsSound(c, available, selector);
    RankedOwnersAreKnown(c, available, selector);
    if all != [] {
      assert all[0] in all;
      OwnerIsFound(c, all[0].provider, all[0].model);
    }
  }

  lemma {:induction false} SplitHolds(s: string)
    ensures SplitOnce(s).Some? <==> '/' in s
    ensures SplitOnce(s).Some? ==> s == Handle(SplitOnce(s).value.0, SplitOnce(s).value.1) && '/' !in SplitOnce(s).value.0
  {
    if s != "" {
      SplitHolds(s[1..]);
      assert s == [s[0]] + s[1..];
    }
  }

  /**
   * A selector with a slash is a handle to the resolver and a model id to the query: only a canonical
   * id can match it there, and it is its own canonical id exactly when some enabled provider has it.
   * The resolver takes the text before the first slash for a provider, so a model whose id starts with
   * no provider's name has a canonical id that does not resolve.
   */
  lemma SlashedSelectorsDiverge(c: Catalog, available: set<string>, selector: string)
    requires Built(c) && '/' in selector
    ensures
      var offered := exists p, m :: p in c.providers && p.enabled && m in p.models && m.id == selector;
      CanonicalModelId(c, None, selector) == if offered then Some(selector) else None
    ensures SplitOnce(selector).Some?
    ensures
      var name := SplitOnce(selector).value.0;
      FindProvider(c, name).None? ==> Resolve(c, available, selector) == Err(ProviderNotFound(name))
  {
    SplitHolds(selector);
    OfferingsAreRanked(c, selector);
    var all := OfferingsMatching(c, selector);
    forall p, m | p in c.providers && m in p.models && Matches(m, selector)
      ensures m.id == selector
    {
      assert ValidModel(m);
      if m.id != selector {
        PlainIdentifiersHaveNoSlash(selector);
      }
    }
    hide Built, OfferingsMatching, FindProvider, Matches, ValidCatalog;
    if p, m :| p in c.providers && p.enabled && m in p.models && m.id == selector {
      IdMatches(m);
      assert Offering(p, m) in all;
    }
    if all != [] {
      assert all[0] in all;
    }
  }

  lemma IdMatches(m: Model)
    ensures Matches(m, m.id)
  {}

  /**
   * With a provider named, the canonical id is that of the model the selector finds on it, by id, alias
   * or wire id, and the two written as a handle route to that model when the provider is available.
   * Naming an unknown or disabled provider, or one without the model, is naming none.
   */
  lemma NamedCanonicalIdIsRouted(c: Catalog, available: set<string>, name: string, selector: string)
    requires Built(c)
    ensures
      var p := FindProvider(c, name);
      if p.Some? && p.value.enabled && ProviderModel(p.value, selector).Some? then
        var m := ProviderModel(p.value, selector).value;
        && CanonicalModelId(c, Some(name), selector) == Some(m.id)
        && (p.value.id in available ==> Resolve(c, available, Handle(name, selector)) == Ok(Route(p.value, m)))
      else CanonicalModelId(c, Some(name), selector) == CanonicalModelId(c, None, selector)
  {
    var p := FindProvider(c, name);
    if p.Some? {
      FindProviderSound(c, name);
      ProviderModelSound(p.value, selector);
      assert ValidProvider(p.value);
      PlainIdentifiersHaveNoSlash(name);
      HandleSplits(name, selector);
      if ProviderModel(p.value, selector).Some? {
        OwnerIsFound(c, p.value, ProviderModel(p.value, selector).value);
      }
    }
    hide Built, FindProvider, ProviderModel, OfferingsMatching;
  }

  lemma RankedOwnersAreKnown(c: Catalog, available: set<string>, selector: string)
    requires Built(c)
    ensures
      var ranked := RankedMatches(c, available, selector);
      if ranked == [] then ResolveBare(c, available, selector).Err?
      else ResolveBare(c, available, selector).Ok? && ResolveBare(c, available, selector).value.model == ranked[0]
  {
    hide Matches, RankedMatches;
    var ranked := RankedMatches(c, available, selector);
    RankedMatchesMembers(c, available, selector);
    if ranked != [] {
      assert ranked[0] in ranked;
      var p :| p in c.providers && p.enabled && p.id in available && ranked[0] in p.models && Matches(ranked[0], selector);
      OwnerIsFound(c, p, ranked[0]);
    }
  }

  // ---------------------------------------------------------------------------------------------
  // The resolver as it runs
  // ---------------------------------------------------------------------------------------------

  /** Resolves a selector, narrowing and sorting its candidates in place. */
  method ResolveSelector(c: Catalog, available: set<string>, selector: string) returns (r: Resolution)
    requires Built(c)
    ensures r == Resolve(c, available, selector)
    ensures r.Ok? ==> Sound(c, available, r.value) && Resolve(c, available, Handle(r.value.provider.id, r.value.model.id)) == r
    ensures r.Err? ==> !r.error.ModelProviderMismatch?
  {
    RoutesAreSound(c, available, selector);
    if Resolve(c, available, selector).Ok? {
      ResolvedHandlesAreFixed(c, available, Resolve(c, available, selector).value);
    }
    hide Sound, Built, ServingProvider, ResolveExplicit, ResolveProviderDefault, FindProvider, TryNew;
    var parts := SplitOnce(selector);
    if parts.Some? {
      var provider := FindProvider(c, parts.value.0);
      if provider.None? {
        return Err(ProviderNotFound(parts.value.0));
      }
      var serving := ServingProvider(c, provider.value, available);
      if serving.Err? {
        return Err(serving.error);
      }
      return ResolveExplicit(serving.value, parts.value.1);
    }
    if selector == "default" {
      var providers := Filter(c.providers, DefaultCandidate(available));
      providers := StableSort(providers, HigherPriority);
      if providers == [] {
        return Err(NoDefaultModel);
      }
      return ResolveProviderDefault(providers[0]);
    }
    var named := FindProvider(c, selector);
    if named.Some? {
      var serving := ServingProvider(c, named.value, available);
      if serving.Err? {
        return Err(serving.error);
      }
      return ResolveProviderDefault(serving.value);
    }
    var matches := ModelsMatching(c, selector);
    matches := Filter(matches, Reachable(c, available));
    matches := StableSort(matches, MatchOrder(c, selector));
    if matches == [] {
      return Err(ModelNotFound(selector));
    }
    var owner := FindProvider(c, matches[0].provider);
    if owner.None? {
      return Err(ProviderNotFound(matches[0].provider));
    }
    return TryNew(owner.value, matches[0]);
  }
}
