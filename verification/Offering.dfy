/** Queries over a built catalog: lookups by selector, which offerings match one, and in what order. */
module Offerings {
  import opened Wrappers
  import opened Sequences
  import opened Sorting
  import opened Catalog

  datatype Offering = Offering(provider: Provider, model: Model)

  // ---------------------------------------------------------------------------------------------
  // Lookups
  // ---------------------------------------------------------------------------------------------

  function ProviderHasId(id: string): Provider -> bool {
    (p: Provider) => p.id == id
  }

  function ProviderHasAlias(alias: string): Provider -> bool {
    (p: Provider) => alias in p.aliases
  }

  function ProviderById(c: Catalog, id: string): Option<Provider> {
    First(c.providers, ProviderHasId(id))
  }

  function FindProvider(c: Catalog, selector: string): Option<Provider> {
    ProviderById(c, selector).Or(First(c.providers, ProviderHasAlias(selector)))
  }

  function ModelHasId(id: string): Model -> bool {
    (m: Model) => m.id == id
  }

  function ModelHasAlias(alias: string): Model -> bool {
    (m: Model) => alias in m.aliases
  }

  function ModelHasApiId(api: string): Model -> bool {
    (m: Model) => m.apiModel == api
  }

  /** By canonical id, then alias, then the id used on the wire. */
  function ProviderModel(p: Provider, selector: string): Option<Model> {
    First(p.models, ModelHasId(selector))
    .Or(First(p.models, ModelHasAlias(selector)))
    .Or(First(p.models, ModelHasApiId(selector)))
  }

  predicate Matches(m: Model, selector: string) {
    m.id == selector || selector in m.aliases
  }

  // ---------------------------------------------------------------------------------------------
  // Offerings
  // ---------------------------------------------------------------------------------------------

  /** The comparison providers are sorted by: higher priority, then smaller id. */
  predicate HigherPriority(a: Provider, b: Provider) {
    a.priority > b.priority || (a.priority == b.priority && !Less(b.id, a.id))
  }

  predicate Enabled(p: Provider) {
    p.enabled
  }

  function EnabledProviders(c: Catalog): seq<Provider> {
    StableSort(Filter(c.providers, Enabled), HigherPriority)
  }

  function OfferingsOf(p: Provider, models: seq<Model>): seq<Offering> {
    if models == [] then [] else [Offering(p, models[0])] + OfferingsOf(p, models[1..])
  }

  function AllOfferings(providers: seq<Provider>): seq<Offering> {
    if providers == [] then [] else OfferingsOf(providers[0], providers[0].models) + AllOfferings(providers[1..])
  }

  function OfferingMatches(selector: string): Offering -> bool {
    (o: Offering) => Matches(o.model, selector)
  }

  function OfferingIsAlias(selector: string): Offering -> bool {
    (o: Offering) => o.model.id != selector
  }

  function OfferingsMatching(c: Catalog, selector: string): seq<Offering> {
    StableSort(Filter(AllOfferings(EnabledProviders(c)), OfferingMatches(selector)),
               FlagOrder(OfferingIsAlias(selector)))
  }

  function ProviderOffering(p: Provider, selector: string): Option<Offering> {
    match ProviderModel(p, selector)
    case Some(m) => Some(Offering(p, m))
    case None => None
  }

  function DefaultOffering(p: Provider): Option<Offering> {
    if p.defaultModel.Some? then ProviderOffering(p, p.defaultModel.value) else None
  }

  function ProviderIn(ids: set<string>): Provider -> bool {
    (p: Provider) => p.id in ids
  }

  predicate OffersDefault(p: Provider) {
    DefaultOffering(p).Some?
  }

  /** The best-ranked ready provider's default, else any enabled provider's. */
  function DefaultOfferingFor(c: Catalog, ready: set<string>): Option<Offering> {
    var providers := EnabledProviders(c);
    match First(Filter(providers, ProviderIn(ready)) + providers, OffersDefault)
    case Some(p) => DefaultOffering(p)
    case None => None
  }

  /** The named provider's offering of the selector, else the best-ranked offering anywhere. */
  function CanonicalModelId(c: Catalog, provider: Option<string>, selector: string): Option<string> {
    var named :=
      if provider.Some? && FindProvider(c, provider.value).Some? && FindProvider(c, provider.value).value.enabled
      then ProviderOffering(FindProvider(c, provider.value).value, selector)
      else None;
    var ranked := OfferingsMatching(c, selector);
    match named.Or(if ranked == [] then None else Some(ranked[0]))
    case Some(o) => Some(o.model.id)
    case None => None
  }

  // ---------------------------------------------------------------------------------------------
  // Selectors name at most one thing
  // ---------------------------------------------------------------------------------------------

  predicate Answers(n: Named, selector: string) {
    n.id == selector || selector in n.aliases
  }

  lemma AliasHasIndex(names: seq<Named>, i: nat, alias: string)
    requires i < |names| && alias in names[i].aliases
    ensures alias in Aliases(names)
    ensures alias in Aliases(names[..i + 1])
  {
    AliasesSnoc(names, i);
    AliasPrefix(names, i + 1);
    hide Aliases;
    var before, here := Aliases(names[..i]), names[i].aliases;
    assert forall name <- here :: name in before + here;
  }

  lemma AliasesClash(names: seq<Named>, i: nat, j: nat, alias: string)
    requires i < j < |names| && alias in names[i].aliases && alias in names[j].aliases
    ensures Repeats(Aliases(names), alias)
  {
    AliasHasIndex(names[..j], i, alias);
    AliasesSnoc(names, j);
    var before, here := Aliases(names[..j]), names[j].aliases;
    var k :| 0 <= k < |before| && before[k] == alias;
    var l :| 0 <= l < |here| && here[l] == alias;
    assert (before + here)[k] == (before + here)[|before| + l] == alias;
    AliasPrefix(names, j + 1);
    PrefixRepeats(before + here, Aliases(names), alias);
  }

  lemma SharedSelectorRepeats(names: seq<Named>, i: nat, j: nat, selector: string)
    requires i != j && i < |names| && j < |names|
    requires Answers(names[i], selector) && Answers(names[j], selector)
    ensures !Distinct(Selectors(names))
  {
    var ids, aliases, all := Ids(names), Aliases(names), Selectors(names);
    if ids[i] == selector && ids[j] == selector {
      assert all[i] == all[j];
    } else if ids[i] == selector || ids[j] == selector {
      var a, b := if ids[i] == selector then i else j, if ids[i] == selector then j else i;
      AliasHasIndex(names, b, selector);
      var k :| 0 <= k < |aliases| && aliases[k] == selector;
      assert all[a] == all[|ids| + k];
    } else {
      AliasesClash(names, if i < j then i else j, if i < j then j else i, selector);
      var k, l :| 0 <= k < l < |aliases| && aliases[k] == aliases[l] == selector;
      assert all[|ids| + k] == all[|ids| + l];
    }
  }

  /** Validated selectors answer for at most one entry, whether they match as an id or as an alias. */
  lemma SelectorsAreUnambiguous(names: seq<Named>, i: nat, j: nat, selector: string)
    requires Distinct(Selectors(names))
    requires i < |names| && j < |names| && Answers(names[i], selector) && Answers(names[j], selector)
    ensures i == j
  {
    if i != j {
      SharedSelectorRepeats(names, i, j, selector);
    }
  }

  lemma {:induction false} FirstFinds<T(!new)>(xs: seq<T>, wanted: T -> bool, k: nat)
    requires k < |xs| && wanted(xs[k])
    requires forall i :: 0 <= i < |xs| && wanted(xs[i]) ==> i == k
    ensures First(xs, wanted) == Some(xs[k])
  {
    if k > 0 {
      forall i | 0 <= i < |xs[1..]| && wanted(xs[1..][i])
        ensures i == k - 1
      {
        assert wanted(xs[i + 1]);
      }
      FirstFinds(xs[1..], wanted, k - 1);
    }
  }

  lemma {:induction false} FirstSound<T(!new)>(xs: seq<T>, wanted: T -> bool)
    ensures First(xs, wanted).Some? ==> First(xs, wanted).value in xs && wanted(First(xs, wanted).value)
    ensures First(xs, wanted).None? <==> forall x <- xs :: !wanted(x)
  {
    if xs != [] {
      FirstSound(xs[1..], wanted);
      assert xs == [xs[0]] + xs[1..];
    }
  }

  lemma {:induction false} FirstIsEarliest<T(!new)>(xs: seq<T>, wanted: T -> bool)
    requires First(xs, wanted).Some?
    ensures exists k :: 0 <= k < |xs| && xs[k] == First(xs, wanted).value && forall i :: 0 <= i < k ==> !wanted(xs[i])
  {
    if wanted(xs[0]) {
      assert xs[0] == First(xs, wanted).value;
    } else {
      var rest := xs[1..];
      FirstIsEarliest(rest, wanted);
      var k :| 0 <= k < |rest| && rest[k] == First(rest, wanted).value && forall i :: 0 <= i < k ==> !wanted(rest[i]);
      assert forall i :: 1 <= i < |xs| ==> xs[i] == rest[i - 1];
      assert xs[k + 1] == First(xs, wanted).value;
    }
  }

  /** Every id and alias of a provider in a valid catalog finds that provider. */
  lemma ProviderSelectorsFindTheirProvider(c: Catalog, p: Provider, selector: string)
    requires ValidCatalog(c) && p in c.providers && (p.id == selector || selector in p.aliases)
    ensures FindProvider(c, selector) == Some(p)
  {
    var names := ProviderNames(c.providers);
    var k :| 0 <= k < |c.providers| && c.providers[k] == p;
    forall i | 0 <= i < |names| && Answers(names[i], selector)
      ensures i == k
    {
      SelectorsAreUnambiguous(names, i, k, selector);
    }
    assert forall i :: 0 <= i < |names| ==> names[i] == Named(c.providers[i].id, c.providers[i].aliases);
    if p.id == selector {
      FirstFinds(c.providers, ProviderHasId(selector), k);
    } else {
      FirstSound(c.providers, ProviderHasId(selector));
      FirstFinds(c.providers, ProviderHasAlias(selector), k);
    }
  }

  lemma MatchIsUnique(p: Provider, i: nat, j: nat, selector: string)
    requires ValidProvider(p) && i < |p.models| && j < |p.models|
    requires Matches(p.models[i], selector) && Matches(p.models[j], selector)
    ensures i == j
  {
    var names := ModelNames(p.models);
    assert Answers(names[i], selector) && Answers(names[j], selector);
    SelectorsAreUnambiguous(names, i, j, selector);
  }

  /** Every id and alias of a model of a valid provider finds that model. */
  lemma ModelSelectorsFindTheirModel(p: Provider, m: Model, selector: string)
    requires ValidProvider(p) && m in p.models && Matches(m, selector)
    ensures ProviderModel(p, selector) == Some(m)
  {
    var k :| 0 <= k < |p.models| && p.models[k] == m;
    forall i | 0 <= i < |p.models| && Matches(p.models[i], selector)
      ensures i == k
    {
      MatchIsUnique(p, i, k, selector);
    }
    if m.id == selector {
      FirstFinds(p.models, ModelHasId(selector), k);
    } else {
      FirstSound(p.models, ModelHasId(selector));
      FirstFinds(p.models, ModelHasAlias(selector), k);
    }
  }

  /** A lookup only returns a model of that provider, and one that carries the selector in some form. */
  lemma ProviderModelSound(p: Provider, selector: string)
    ensures ProviderModel(p, selector).Some? ==>
      var m := ProviderModel(p, selector).value; m in p.models && (Matches(m, selector) || m.apiModel == selector)
    ensures ProviderModel(p, selector).None? <==>
      forall m <- p.models :: !Matches(m, selector) && m.apiModel != selector
    ensures ProviderModel(p, selector).Some? && (forall m <- p.models :: !Matches(m, selector)) ==>
      exists k :: 0 <= k < |p.models| && p.models[k] == ProviderModel(p, selector).value
                  && forall i :: 0 <= i < k ==> p.models[i].apiModel != selector
  {
    FirstSound(p.models, ModelHasId(selector));
    FirstSound(p.models, ModelHasAlias(selector));
    FirstSound(p.models, ModelHasApiId(selector));
    if First(p.models, ModelHasApiId(selector)).Some? {
      FirstIsEarliest(p.models, ModelHasApiId(selector));
    }
  }

  // ---------------------------------------------------------------------------------------------
  // The order of providers and of offerings
  // ---------------------------------------------------------------------------------------------

  /** Strictly before: higher priority, or the same priority and a smaller id. */
  predicate Before(a: Provider, b: Provider) {
    a.priority > b.priority || (a.priority == b.priority && Less(a.id, b.id))
  }

  function ProviderId(p: Provider): string {
    p.id
  }

  lemma HigherPriorityIsAPreorder()
    ensures TotalPreorder(HigherPriority)
  {
    forall a: Provider, b: Provider
      ensures HigherPriority(a, b) || HigherPriority(b, a)
    {
      if Less(b.id, a.id) && Less(a.id, b.id) {
        LessIsTransitive(a.id, b.id, a.id);
        LessIsIrreflexive(a.id);
      }
    }
    forall a: Provider, b: Provider, c: Provider | HigherPriority(a, b) && HigherPriority(b, c)
      ensures HigherPriority(a, c)
    {
      LessIsTotal(a.id, b.id);
      if Less(c.id, a.id) && Less(a.id, b.id) {
        LessIsTransitive(c.id, a.id, b.id);
      }
    }
  }

  lemma BeforeIsAsymmetric(a: Provider, b: Provider)
    requires Before(a, b)
    ensures !Before(b, a)
  {
    if Less(b.id, a.id) && Less(a.id, b.id) {
      LessIsTransitive(a.id, b.id, a.id);
      LessIsIrreflexive(a.id);
    }
  }

  /** Sorting providers with distinct ids leaves them strictly ranked. */
  lemma SortedProvidersAreRanked(providers: seq<Provider>)
    requires DistinctKeys(providers, ProviderId)
    ensures SortedBy(StableSort(providers, HigherPriority), Before)
    ensures DistinctKeys(StableSort(providers, HigherPriority), ProviderId)
  {
    HigherPriorityIsAPreorder();
    SortSorts(providers, HigherPriority);
    SortKeepsKeysDistinct(providers, HigherPriority, ProviderId);
    var sorted := StableSort(providers, HigherPriority);
    forall i, j | 0 <= i < j < |sorted|
      ensures Before(sorted[i], sorted[j])
    {
      assert ProviderId(sorted[i]) != ProviderId(sorted[j]);
      LessIsTotal(sorted[i].id, sorted[j].id);
    }
  }

  lemma CatalogIdsAreDistinct(c: Catalog)
    requires ValidCatalog(c)
    ensures DistinctKeys(c.providers, ProviderId)
  {
    forall i, j | 0 <= i < j < |c.providers|
      ensures ProviderId(c.providers[i]) != ProviderId(c.providers[j])
    {
      if c.providers[i].id == c.providers[j].id {
        SelectorsAreUnambiguous(ProviderNames(c.providers), i, j, c.providers[i].id);
      }
    }
  }

  lemma EnabledProvidersAreRanked(c: Catalog)
    requires ValidCatalog(c)
    ensures forall p :: p in EnabledProviders(c) <==> p in c.providers && p.enabled
    ensures SortedBy(EnabledProviders(c), Before)
  {
    CatalogIdsAreDistinct(c);
    FilterKeepsKeysDistinct(c.providers, Enabled, ProviderId);
    FilterMembers(c.providers, Enabled);
    SortMembers(Filter(c.providers, Enabled), HigherPriority);
    SortedProvidersAreRanked(Filter(c.providers, Enabled));
  }

  lemma {:induction false} OfferingsOfMembers(p: Provider, models: seq<Model>)
    ensures forall o :: o in OfferingsOf(p, models) <==> o.provider == p && o.model in models
    ensures |OfferingsOf(p, models)| == |models|
    ensures forall i :: 0 <= i < |models| ==> OfferingsOf(p, models)[i] == Offering(p, models[i])
  {
    OfferingsOfAre(p, models);
    hide OfferingsOf;
    assert forall i :: 0 <= i < |models| ==> OfferingsOf(p, models)[i] in OfferingsOf(p, models);
  }

  lemma {:induction false} OfferingsOfAre(p: Provider, models: seq<Model>)
    ensures |OfferingsOf(p, models)| == |models|
    ensures forall i :: 0 <= i < |models| ==> OfferingsOf(p, models)[i] == Offering(p, models[i])
  {
    if models != [] {
      OfferingsOfAre(p, models[1..]);
    }
  }

  lemma {:induction false} AllOfferingsMembers(providers: seq<Provider>)
    ensures forall o :: o in AllOfferings(providers) <==> o.provider in providers && o.model in o.provider.models
  {
    if providers != [] {
      OfferingsOfMembers(providers[0], providers[0].models);
      AllOfferingsMembers(providers[1..]);
      assert providers == [providers[0]] + providers[1..];
    }
  }

  lemma {:induction false} FilterConcat<T>(xs: seq<T>, ys: seq<T>, keep: T -> bool)
    ensures Filter(xs + ys, keep) == Filter(xs, keep) + Filter(ys, keep)
  {
    if xs == [] {
      assert xs + ys == ys;
    } else {
      var head := if keep(xs[0]) then [xs[0]] else [];
      HeadAndTail(xs, ys);
      FilterConcat(xs[1..], ys, keep);
      Associates(head, Filter(xs[1..], keep), Filter(ys, keep));
    }
  }

  lemma {:induction false} FilterAtMostOne<T(!new)>(xs: seq<T>, keep: T -> bool)
    requires forall i, j :: 0 <= i < |xs| && 0 <= j < |xs| && keep(xs[i]) && keep(xs[j]) ==> i == j
    ensures |Filter(xs, keep)| <= 1
  {
    if xs != [] {
      forall i, j | 0 <= i < |xs| - 1 && 0 <= j < |xs| - 1 && keep(xs[1..][i]) && keep(xs[1..][j])
        ensures i == j
      {
        assert keep(xs[i + 1]) && keep(xs[j + 1]);
      }
      FilterAtMostOne(xs[1..], keep);
      FilterMembers(xs[1..], keep);
      if keep(xs[0]) {
        forall i | 0 <= i < |xs| - 1
          ensures !keep(xs[1..][i])
        {
          assert xs[1..][i] == xs[i + 1];
        }
        NoneKept(xs[1..], keep);
      }
    }
  }

  lemma {:induction false} NoneKept<T>(xs: seq<T>, keep: T -> bool)
    requires forall i :: 0 <= i < |xs| ==> !keep(xs[i])
    ensures Filter(xs, keep) == []
  {
    if xs != [] {
      assert !keep(xs[0]);
      NoneKept(xs[1..], keep);
    }
  }

  lemma OneOfferingPerProvider(p: Provider, selector: string)
    requires ValidProvider(p)
    ensures |Filter(OfferingsOf(p, p.models), OfferingMatches(selector))| <= 1
  {
    var offerings := OfferingsOf(p, p.models);
    OfferingsOfMembers(p, p.models);
    forall i, j | 0 <= i < |offerings| && 0 <= j < |offerings|
                  && OfferingMatches(selector)(offerings[i]) && OfferingMatches(selector)(offerings[j])
      ensures i == j
    {
      MatchIsUnique(p, i, j, selector);
    }
    FilterAtMostOne(offerings, OfferingMatches(selector));
  }

  predicate OfferingBefore(a: Offering, b: Offering) {
    Before(a.provider, b.provider)
  }

  /** Ranked providers give ranked matches, because each has at most one. */
  lemma {:induction false} MatchesFollowProviders(providers: seq<Provider>, selector: string)
    requires SortedBy(providers, Before) && forall p <- providers :: ValidProvider(p)
    ensures SortedBy(Filter(AllOfferings(providers), OfferingMatches(selector)), OfferingBefore)
  {
    if providers != [] {
      var first := OfferingsOf(providers[0], providers[0].models);
      var keep := OfferingMatches(selector);
      MatchesFollowProviders(providers[1..], selector);
      FilterConcat(first, AllOfferings(providers[1..]), keep);
      OneOfferingPerProvider(providers[0], selector);
      OfferingsOfMembers(providers[0], providers[0].models);
      FilterMembers(first, keep);
      AllOfferingsMembers(providers[1..]);
      FilterMembers(AllOfferings(providers[1..]), keep);
      var head, tail := Filter(first, keep), Filter(AllOfferings(providers[1..]), keep);
      forall a, b | a in head && b in tail
        ensures OfferingBefore(a, b)
      {
        var k :| 0 <= k < |providers| - 1 && providers[1..][k] == b.provider;
        assert Before(providers[0], providers[k + 1]);
      }
      SortedConcat(head, tail, OfferingBefore);
    }
  }

  lemma SortedConcat<T(!new)>(xs: seq<T>, ys: seq<T>, le: (T, T) -> bool)
    requires SortedBy(xs, le) && SortedBy(ys, le) && forall x, y :: x in xs && y in ys ==> le(x, y)
    ensures SortedBy(xs + ys, le)
  {}

  /** The documented ranking: canonical matches first, then priority, then provider id. */
  function OfferingRank(selector: string): (Offering, Offering) -> bool {
    (a: Offering, b: Offering) =>
      (a.model.id == selector && b.model.id != selector)
      || ((a.model.id == selector <==> b.model.id == selector) && Before(a.provider, b.provider))
  }

  /**
   * Sorting only by the alias flag yields the full documented ranking, and the result is exactly the
   * enabled matches.
   */
  lemma OfferingsAreRanked(c: Catalog, selector: string)
    requires ValidCatalog(c)
    ensures SortedBy(OfferingsMatching(c, selector), OfferingRank(selector))
    ensures forall o :: o in OfferingsMatching(c, selector) <==>
      o.provider in c.providers && o.provider.enabled && o.model in o.provider.models && Matches(o.model, selector)
  {
    var providers := EnabledProviders(c);
    var matching := Filter(AllOfferings(providers), OfferingMatches(selector));
    var flag := OfferingIsAlias(selector);
    var rank := OfferingRank(selector);
    EnabledProvidersAreRanked(c);
    AllOfferingsMembers(providers);
    FilterMembers(AllOfferings(providers), OfferingMatches(selector));
    SortMembers(matching, FlagOrder(flag));
    MatchesFollowProviders(providers, selector);
    SortByFlag(matching, flag);
    var plain, aliased := Filter(matching, Unless(flag)), Filter(matching, flag);
    FilterKeepsOrder(matching, Unless(flag), OfferingBefore);
    FilterKeepsOrder(matching, flag, OfferingBefore);
    FilterMembers(matching, Unless(flag));
    FilterMembers(matching, flag);
    SortedWithin(plain, selector);
    SortedWithin(aliased, selector);
    SortedConcat(plain, aliased, rank);
  }

  lemma SortedWithin(group: seq<Offering>, selector: string)
    requires SortedBy(group, OfferingBefore)
    requires (forall o <- group :: o.model.id == selector) || (forall o <- group :: o.model.id != selector)
    ensures SortedBy(group, OfferingRank(selector))
  {}

  /** A model with the name as its id before one with it as an alias, then the higher priority, then the smaller provider id. */
  predicate Outranks(a: Offering, b: Offering, name: string) {
    || (a.model.id == name && b.model.id != name)
    || ((a.model.id == name <==> b.model.id == name)
        && (a.provider.priority > b.provider.priority
            || (a.provider.priority == b.provider.priority && Less(a.provider.id, b.provider.id))))
  }

  lemma RankIsOutranking(a: Offering, b: Offering, name: string)
    ensures OfferingRank(name)(a, b) <==> Outranks(a, b, name)
  {}

  // ---------------------------------------------------------------------------------------------
  // The queries as they run
  // ---------------------------------------------------------------------------------------------

  /** Collects the enabled providers and sorts them in place. */
  method ListEnabledProviders(c: Catalog) returns (providers: seq<Provider>)
    requires ValidCatalog(c)
    ensures providers == EnabledProviders(c)
    ensures SortedBy(providers, Before)
    ensures forall i, j :: 0 <= i < j < |providers| ==>
      || providers[i].priority > providers[j].priority
      || (providers[i].priority == providers[j].priority && Less(providers[i].id, providers[j].id))
    ensures forall p :: p in providers <==> p in c.providers && p.enabled
  {
    EnabledProvidersAreRanked(c);
    providers := Filter(c.providers, Enabled);
    providers := StableSort(providers, HigherPriority);
  }

  /** Collects the enabled matches and sorts them in place by the alias flag alone. */
  method ListOfferings(c: Catalog, selector: string) returns (matches: seq<Offering>)
    requires ValidCatalog(c)
    ensures matches == OfferingsMatching(c, selector)
    ensures SortedBy(matches, OfferingRank(selector))
    ensures forall i, j :: 0 <= i < j < |matches| ==> Outranks(matches[i], matches[j], selector)
    ensures forall o :: o in matches <==>
      && o.provider in c.providers && o.provider.enabled && o.model in o.provider.models
      && (o.model.id == selector || selector in o.model.aliases)
  {
    OfferingsAreRanked(c, selector);
    forall i, j | 0 <= i < j < |OfferingsMatching(c, selector)|
      ensures Outranks(OfferingsMatching(c, selector)[i], OfferingsMatching(c, selector)[j], selector)
    {
      RankIsOutranking(OfferingsMatching(c, selector)[i], OfferingsMatching(c, selector)[j], selector);
    }
    assert forall m: Model :: Matches(m, selector) <==> m.id == selector || selector in m.aliases;
    hide Before, HigherPriority, Matches;
    var providers := ListEnabledProviders(c);
    matches := Filter(AllOfferings(providers), OfferingMatches(selector));
    matches := StableSort(matches, FlagOrder(OfferingIsAlias(selector)));
  }
}
