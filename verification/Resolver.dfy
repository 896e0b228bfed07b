/** Catalog-based resolution of a selector to a route. */
module Resolver {
  import opened Wrappers
  import opened Sorting
  import opened Catalog
  import opened Offerings

  const I32_MIN: int := -0x8000_0000

  datatype Route = Route(provider: Provider, model: Model)

  datatype SelectionError =
    | ModelProviderMismatch(provider: string, handle: string)
    | ProviderNotFound(selector: string)
    | ProviderUnavailable(provider: string)
    | ProviderDisabled(provider: string)
    | ModelNotFound(selector: string)
    | ProviderHasNoDefault(provider: string)
    | NoDefaultModel

  type Resolution = Result<Route, SelectionError>

  /** How a provider and a model on it are written as one selector. */
  function Handle(provider: string, model: string): string {
    provider + "/" + model
  }

  /** The text before and after the first slash. */
  function SplitOnce(s: string): Option<(string, string)> {
    if s == "" then None
    else if s[0] == '/' then Some(("", s[1..]))
    else match SplitOnce(s[1..])
         case Some(parts) => Some(([s[0]] + parts.0, parts.1))
         case None => None
  }

  /** White_Space of the Unicode Character Database, which trimming uses. */
  predicate IsWhitespace(c: char) {
    var code := c as int;
    9 <= code <= 13 || code == 0x20 || code == 0x85 || code == 0xA0 || code == 0x1680
    || 0x2000 <= code <= 0x200A || code == 0x2028 || code == 0x2029 || code == 0x202F || code == 0x205F
    || code == 0x3000
  }

  predicate IsBlank(s: string) {
    forall c <- s :: IsWhitespace(c)
  }

  function TryNew(provider: Provider, model: Model): Resolution {
    if provider.id != model.provider then Err(ModelProviderMismatch(provider.id, Handle(model.provider, model.id)))
    else Ok(Route(provider, model))
  }

  function StandsInFor(target: string, available: set<string>): Provider -> bool {
    (p: Provider) => p.enabled && p.id in available && p.standsInFor == Some(target)
  }

  function ServingProvider(c: Catalog, provider: Provider, available: set<string>): Result<Provider, SelectionError> {
    if !provider.enabled then Err(ProviderDisabled(provider.id))
    else if provider.id in available then Ok(provider)
    else match First(c.providers, StandsInFor(provider.id, available))
         case Some(standIn) => Ok(standIn)
         case None => Err(ProviderUnavailable(provider.id))
  }

  function Passthrough(provider: Provider, id: string): Model {
    Model(provider.id, id, true, [], id)
  }

  function ResolveExplicit(provider: Provider, selector: string): Resolution {
    match ProviderModel(provider, selector)
    case Some(model) => TryNew(provider, model)
    case None =>
      if provider.allowPassthrough && !IsBlank(selector) then TryNew(provider, Passthrough(provider, selector))
      else Err(ModelNotFound(Handle(provider.id, selector)))
  }

  function ResolveProviderDefault(provider: Provider): Resolution {
    if provider.defaultModel.None? then Err(ProviderHasNoDefault(provider.id))
    else match ProviderModel(provider, provider.defaultModel.value)
         case Some(model) => TryNew(provider, model)
         case None => Err(ModelNotFound(Handle(provider.id, provider.defaultModel.value)))
  }

  function DefaultCandidate(available: set<string>): Provider -> bool {
    (p: Provider) => p.enabled && p.id in available && p.defaultModel.Some?
  }

  function ResolveDefault(c: Catalog, available: set<string>): Resolution {
    var providers := StableSort(Filter(c.providers, DefaultCandidate(available)), HigherPriority);
    if providers == [] then Err(NoDefaultModel) else ResolveProviderDefault(providers[0])
  }

  function AllModels(providers: seq<Provider>): seq<Model> {
    if providers == [] then [] else providers[0].models + AllModels(providers[1..])
  }

  function ModelMatches(selector: string): Model -> bool {
    (m: Model) => Matches(m, selector)
  }

  function ModelsMatching(c: Catalog, selector: string): seq<Model> {
    Filter(AllModels(c.providers), ModelMatches(selector))
  }

  function Reachable(c: Catalog, available: set<string>): Model -> bool {
    (m: Model) => m.provider in available && ProviderById(c, m.provider).Some? && ProviderById(c, m.provider).value.enabled
  }

  function PriorityOf(c: Catalog, provider: string): int {
    match FindProvider(c, provider)
    case Some(p) => p.priority
    case None => I32_MIN
  }

  /** The comparison matches are sorted by: canonical before alias, then higher priority, then provider id. */
  function MatchOrder(c: Catalog, selector: string): (Model, Model) -> bool {
    (a: Model, b: Model) =>
      var aliasA, aliasB := a.id != selector, b.id != selector;
      var priorityA, priorityB := PriorityOf(c, a.provider), PriorityOf(c, b.provider);
      if aliasA != aliasB then aliasB
      else if priorityA != priorityB then priorityA > priorityB
      else !Less(b.provider, a.provider)
  }

  function RankedMatches(c: Catalog, available: set<string>, selector: string): seq<Model> {
    StableSort(Filter(ModelsMatching(c, selector), Reachable(c, available)), MatchOrder(c, selector))
  }

  function ResolveBare(c: Catalog, available: set<string>, selector: string): Resolution {
    var matches := RankedMatches(c, available, selector);
    if matches == [] then Err(ModelNotFound(selector))
    else match FindProvider(c, matches[0].provider)
         case Some(provider) => TryNew(provider, matches[0])
         case None => Err(ProviderNotFound(matches[0].provider))
  }

  function Resolve(c: Catalog, available: set<string>, selector: string): Resolution {
    if SplitOnce(selector).Some? then
      var (name, model) := SplitOnce(selector).value;
      match FindProvider(c, name)
      case None => Err(ProviderNotFound(name))
      case Some(provider) =>
        match ServingProvider(c, provider, available)
        case Ok(serving) => ResolveExplicit(serving, model)
        case Err(e) => Err(e)
    else if selector == "default" then ResolveDefault(c, available)
    else match FindProvider(c, selector)
         case None => ResolveBare(c, available, selector)
         case Some(provider) =>
           match ServingProvider(c, provider, available)
           case Ok(serving) => ResolveProviderDefault(serving)
           case Err(e) => Err(e)
  }
}
