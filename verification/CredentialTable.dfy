/** Which named secrets each provider wants, and what a store of secrets makes of them. */
module CredentialTable {
  import opened Wrappers
  import opened Sequences
  import opened Sorting

  datatype HttpAuth = NoAuth | BearerFrom(secret: string) | HeaderFrom(header: string, secret: string)

  /** Extra headers pair a header with the secret that holds its value. */
  datatype HttpSpec = HttpSpec(auth: HttpAuth, extra: seq<(string, string)>)

  datatype Mapping = Http(spec: HttpSpec) | AwsDefaultChain(region: Option<string>) | BedrockBearerFrom(secret: string)

  datatype AuthScheme = BearerScheme | HeaderScheme(header: string) | BedrockScheme | NoneScheme | OtherScheme

  datatype Authentication = Anonymous | Bearer(token: string) | Header(header: string, value: string)

  datatype Credentials =
    | HttpCredentials(auth: Authentication, extra: seq<(string, string)>)
    | AwsCredentials(region: Option<string>)
    | BedrockBearer(token: string)

  datatype CredentialError = NotConfigured(provider: string) | MissingSecret(provider: string, name: string) | Unusable(provider: string)

  type Resolved = Result<Credentials, CredentialError>

  /** A store of secrets; `None` means it holds no such secret. */
  type Store = string -> Option<string>

  // ---------------------------------------------------------------------------------------------
  // One mapping
  // ---------------------------------------------------------------------------------------------

  function HeaderSecrets(extra: seq<(string, string)>): seq<string> {
    seq(|extra|, i requires 0 <= i < |extra| => extra[i].1)
  }

  function AuthSecrets(auth: HttpAuth): seq<string> {
    match auth
    case NoAuth => []
    case BearerFrom(secret) => [secret]
    case HeaderFrom(_, secret) => [secret]
  }

  /** The names a mapping reads, in the order it reads them. */
  function MappingSecrets(m: Mapping): seq<string> {
    match m
    case Http(spec) => AuthSecrets(spec.auth) + HeaderSecrets(spec.extra)
    case AwsDefaultChain(_) => []
    case BedrockBearerFrom(secret) => [secret]
  }

  function ReadSecret(provider: string, name: string, store: Store): Result<string, CredentialError> {
    match store(name)
    case Some(value) => Ok(value)
    case None => Err(MissingSecret(provider, name))
  }

  function ReadHeaders(provider: string, extra: seq<(string, string)>, store: Store)
    : Result<seq<(string, string)>, CredentialError>
  {
    if extra == [] then Ok([])
    else
      match ReadSecret(provider, extra[0].1, store)
      case Err(e) => Err(e)
      case Ok(value) =>
        match ReadHeaders(provider, extra[1..], store)
        case Err(e) => Err(e)
        case Ok(rest) => Ok([(extra[0].0, value)] + rest)
  }

  function ReadAuth(provider: string, auth: HttpAuth, store: Store): Result<Authentication, CredentialError> {
    match auth
    case NoAuth => Ok(Anonymous)
    case BearerFrom(secret) =>
      (match ReadSecret(provider, secret, store)
       case Ok(value) => Ok(Bearer(value))
       case Err(e) => Err(e))
    case HeaderFrom(header, secret) =>
      match ReadSecret(provider, secret, store)
      case Ok(value) => Ok(Header(header, value))
      case Err(e) => Err(e)
  }

  function ResolveMapping(provider: string, m: Mapping, store: Store): Resolved {
    match m
    case Http(spec) =>
      (match ReadAuth(provider, spec.auth, store)
       case Err(e) => Err(e)
       case Ok(auth) =>
         match ReadHeaders(provider, spec.extra, store)
         case Err(e) => Err(e)
         case Ok(extra) => Ok(HttpCredentials(auth, extra)))
    case AwsDefaultChain(region) => Ok(AwsCredentials(region))
    case BedrockBearerFrom(secret) =>
      match ReadSecret(provider, secret, store)
      case Ok(value) => Ok(BedrockBearer(value))
      case Err(e) => Err(e)
  }

  // ---------------------------------------------------------------------------------------------
  // A chain of mappings
  // ---------------------------------------------------------------------------------------------

  function FirstMissing(names: seq<string>, store: Store): Option<string> {
    if names == [] then None
    else if store(names[0]).None? then Some(names[0])
    else FirstMissing(names[1..], store)
  }

  predicate HasAll(store: Store, m: Mapping) {
    FirstMissing(MappingSecrets(m), store).None?
  }

  lemma {:induction false} NothingMissing(names: seq<string>, store: Store)
    ensures FirstMissing(names, store).None? <==> forall name <- names :: store(name).Some?
  {
    if names != [] {
      NothingMissing(names[1..], store);
      assert names == [names[0]] + names[1..];
    }
  }

  lemma {:induction false} FirstMissingConcat(a: seq<string>, b: seq<string>, store: Store)
    ensures FirstMissing(a + b, store) == FirstMissing(a, store).Or(FirstMissing(b, store))
  {
    if a == [] {
      assert a + b == b;
    } else {
      assert (a + b)[1..] == a[1..] + b;
      FirstMissingConcat(a[1..], b, store);
    }
  }

  lemma {:induction false} HeadersReadAll(provider: string, extra: seq<(string, string)>, store: Store)
    ensures
      match FirstMissing(HeaderSecrets(extra), store)
      case Some(name) => ReadHeaders(provider, extra, store) == Err(MissingSecret(provider, name))
      case None => ReadHeaders(provider, extra, store).Ok?
  {
    if extra != [] {
      HeadersReadAll(provider, extra[1..], store);
      assert HeaderSecrets(extra)[1..] == HeaderSecrets(extra[1..]);
    }
  }

  /** A mapping resolves exactly when the store has all its names; otherwise it reports the first that is missing. */
  lemma MappingResolvesExactly(provider: string, m: Mapping, store: Store)
    ensures
      match FirstMissing(MappingSecrets(m), store)
      case Some(name) => ResolveMapping(provider, m, store) == Err(MissingSecret(provider, name))
      case None => ResolveMapping(provider, m, store).Ok?
  {
    if m.Http? {
      var auth, headers := AuthSecrets(m.spec.auth), HeaderSecrets(m.spec.extra);
      HeadersReadAll(provider, m.spec.extra, store);
      FirstMissingConcat(auth, headers, store);
    }
  }

  lemma {:induction false} HeadersCarryTheirSecrets(provider: string, extra: seq<(string, string)>, store: Store)
    requires FirstMissing(HeaderSecrets(extra), store).None?
    ensures
      var read := ReadHeaders(provider, extra, store);
      && read.Ok? && |read.value| == |extra|
      && forall i :: 0 <= i < |extra| ==> store(extra[i].1).Some? && read.value[i] == (extra[i].0, store(extra[i].1).value)
  {
    if extra != [] {
      assert HeaderSecrets(extra)[0] == extra[0].1 && HeaderSecrets(extra)[1..] == HeaderSecrets(extra[1..]);
      HeadersCarryTheirSecrets(provider, extra[1..], store);
    }
  }

  /**
   * A served mapping yields exactly what it describes: its authentication with the secret's value, and
   * every extra header in order with its own.
   */
  lemma ServedMappingCarriesItsSecrets(provider: string, m: Mapping, store: Store)
    requires HasAll(store, m)
    ensures
      var r := ResolveMapping(provider, m, store);
      && r.Ok?
      && (m.AwsDefaultChain? ==> r.value == AwsCredentials(m.region))
      && (m.BedrockBearerFrom? ==> Some(r.value) == (if store(m.secret).Some? then Some(BedrockBearer(store(m.secret).value)) else None))
      && (m.Http? ==>
            && r.value.HttpCredentials?
            && (m.spec.auth.NoAuth? ==> r.value.auth == Anonymous)
            && (m.spec.auth.BearerFrom? ==>
                  store(m.spec.auth.secret).Some? && r.value.auth == Bearer(store(m.spec.auth.secret).value))
            && (m.spec.auth.HeaderFrom? ==>
                  store(m.spec.auth.secret).Some?
                  && r.value.auth == Header(m.spec.auth.header, store(m.spec.auth.secret).value))
            && |r.value.extra| == |m.spec.extra|
            && forall i :: 0 <= i < |m.spec.extra| ==>
                 store(m.spec.extra[i].1).Some?
                 && r.value.extra[i] == (m.spec.extra[i].0, store(m.spec.extra[i].1).value))
  {
    MappingResolvesExactly(provider, m, store);
    if m.Http? {
      FirstMissingConcat(AuthSecrets(m.spec.auth), HeaderSecrets(m.spec.extra), store);
      HeadersCarryTheirSecrets(provider, m.spec.extra, store);
    }
  }

  /** The first mapping the store can serve. */
  function FirstServed(chain: seq<Mapping>, store: Store): Option<Mapping> {
    if chain == [] then None
    else if HasAll(store, chain[0]) then Some(chain[0])
    else FirstServed(chain[1..], store)
  }

  lemma {:induction false} FirstServedIs(chain: seq<Mapping>, store: Store)
    ensures FirstServed(chain, store).Some? <==> exists k :: 0 <= k < |chain| && HasAll(store, chain[k])
    ensures FirstServed(chain, store).Some? ==>
      exists k :: 0 <= k < |chain| && FirstServed(chain, store) == Some(chain[k]) && HasAll(store, chain[k])
                  && forall i :: 0 <= i < k ==> !HasAll(store, chain[i])
  {
    if chain != [] && !HasAll(store, chain[0]) {
      var rest := chain[1..];
      FirstServedIs(rest, store);
      assert forall i :: 1 <= i < |chain| ==> chain[i] == rest[i - 1];
      if FirstServed(rest, store).Some? {
        var k :| 0 <= k < |rest| && FirstServed(rest, store) == Some(rest[k]) && HasAll(store, rest[k])
                 && forall i :: 0 <= i < k ==> !HasAll(store, rest[i]);
        assert HasAll(store, chain[k + 1]) && FirstServed(chain, store) == Some(chain[k + 1]);
      }
    }
  }

  /** What a chain comes to: its first served mapping, else its first mapping's own complaint. */
  function ResolveChain(provider: string, chain: seq<Mapping>, store: Store): Resolved {
    match FirstServed(chain, store)
    case Some(m) => ResolveMapping(provider, m, store)
    case None =>
      if chain == [] then Err(NotConfigured(provider))
      else ResolveMapping(provider, chain[0], store)
  }

  /** Tries each mapping in turn and keeps the first failure; it comes to what the chain does. */
  method Resolve(provider: string, chain: seq<Mapping>, store: Store) returns (r: Resolved)
    ensures r == ResolveChain(provider, chain, store)
  {
    if chain == [] {
      return Err(NotConfigured(provider));
    }
    var firstError: Option<CredentialError> := None;
    assert chain[0..] == chain;
    for i := 0 to |chain|
      invariant FirstServed(chain, store) == FirstServed(chain[i..], store)
      invariant i == 0 ==> firstError.None?
      invariant i > 0 ==> ResolveMapping(provider, chain[0], store).Err?
      invariant i > 0 ==> firstError == Some(ResolveMapping(provider, chain[0], store).error)
    {
      MappingResolvesExactly(provider, chain[i], store);
      assert chain[i..][1..] == chain[i + 1..];
      var tried := ResolveMapping(provider, chain[i], store);
      if tried.Ok? {
        return tried;
      }
      if firstError.None? {
        firstError := Some(tried.error);
      }
    }
    return Err(firstError.GetOr(NotConfigured(provider)));
  }

  /**
   * Resolution succeeds exactly when some mapping has every one of its names in the store, and then as
   * the first such mapping does. Otherwise an empty chain is not configured and any other reports its
   * first mapping's first missing name.
   */
  lemma ResolutionIsExact(provider: string, chain: seq<Mapping>, store: Store)
    ensures
      ResolveChain(provider, chain, store).Ok? <==>
      exists k :: 0 <= k < |chain| && forall name <- MappingSecrets(chain[k]) :: store(name).Some?
    ensures ResolveChain(provider, chain, store).Ok? ==>
      exists k :: 0 <= k < |chain| && HasAll(store, chain[k]) && (forall i :: 0 <= i < k ==> !HasAll(store, chain[i]))
                  && ResolveChain(provider, chain, store) == ResolveMapping(provider, chain[k], store)
    ensures ResolveChain(provider, chain, store).Err? ==>
      if chain == [] then ResolveChain(provider, chain, store) == Err(NotConfigured(provider))
      else
        exists j :: 0 <= j < |MappingSecrets(chain[0])|
                    && store(MappingSecrets(chain[0])[j]).None?
                    && (forall i :: 0 <= i < j ==> store(MappingSecrets(chain[0])[i]).Some?)
                    && ResolveChain(provider, chain, store) == Err(MissingSecret(provider, MappingSecrets(chain[0])[j]))
  {
    FirstServedIs(chain, store);
    forall k | 0 <= k < |chain|
      ensures HasAll(store, chain[k]) <==> forall name <- MappingSecrets(chain[k]) :: store(name).Some?
    {
      NothingMissing(MappingSecrets(chain[k]), store);
    }
    if FirstServed(chain, store).Some? {
      MappingResolvesExactly(provider, FirstServed(chain, store).value, store);
    } else if chain != [] {
      MappingResolvesExactly(provider, chain[0], store);
      FirstMissingIs(MappingSecrets(chain[0]), store);
    }
  }

  lemma {:induction false} FirstMissingIs(names: seq<string>, store: Store)
    requires FirstMissing(names, store).Some?
    ensures exists j :: 0 <= j < |names| && names[j] == FirstMissing(names, store).value && store(names[j]).None?
                        && forall i :: 0 <= i < j ==> store(names[i]).Some?
  {
    if store(names[0]).None? {
      assert names[0] == FirstMissing(names, store).value;
    } else {
      var rest := names[1..];
      FirstMissingIs(rest, store);
      var j :| 0 <= j < |rest| && rest[j] == FirstMissing(rest, store).value && store(rest[j]).None?
               && forall i :: 0 <= i < j ==> store(rest[i]).Some?;
      assert forall i :: 1 <= i < |names| ==> names[i] == rest[i - 1];
      assert names[j + 1] == FirstMissing(names, store).value;
    }
  }

  /** A chain that ends in the AWS default chain always resolves. */
  lemma AwsDefaultChainAlwaysResolves(provider: string, chain: seq<Mapping>, region: Option<string>, store: Store)
    ensures ResolveChain(provider, chain + [AwsDefaultChain(region)], store).Ok?
  {
    var all := chain + [AwsDefaultChain(region)];
    assert all[|chain|] == AwsDefaultChain(region) && MappingSecrets(all[|chain|]) == [];
    ResolutionIsExact(provider, all, store);
  }

  // ---------------------------------------------------------------------------------------------
  // The names a provider reads
  // ---------------------------------------------------------------------------------------------

  function AllSecrets(chain: seq<Mapping>): seq<string> {
    if chain == [] then [] else AllSecrets(chain[..|chain| - 1]) + MappingSecrets(chain[|chain| - 1])
  }

  /** The names without repeats, each where it first appears. */
  function Deduplicated(names: seq<string>): (r: seq<string>)
    ensures forall name :: name in r <==> name in names
    ensures Distinct(r)
  {
    if names == [] then []
    else
      var before, last := Deduplicated(names[..|names| - 1]), names[|names| - 1];
      assert names == names[..|names| - 1] + [last];
      if last in before then before else before + [last]
  }

  /** The first place a name appears. */
  predicate FirstPlace(names: seq<string>, name: string, k: nat) {
    k < |names| && names[k] == name && forall i :: 0 <= i < k ==> names[i] != name
  }

  /** Names without repeats stand in the order of their first appearances. */
  lemma {:induction false} DeduplicatedKeepsFirstPlaces(names: seq<string>, i: nat, j: nat, k: nat, l: nat)
    requires i < j < |Deduplicated(names)|
    requires FirstPlace(names, Deduplicated(names)[i], k) && FirstPlace(names, Deduplicated(names)[j], l)
    ensures k < l
  {
    var front, last := names[..|names| - 1], names[|names| - 1];
    var before := Deduplicated(front);
    assert Deduplicated(names) == before || Deduplicated(names) == before + [last];
    assert before[i] in before && before[i] in front;
    assert k < |front| by {
      var m :| 0 <= m < |front| && front[m] == before[i];
      assert names[m] == before[i];
    }
    if j < |before| {
      assert before[j] in before && before[j] in front;
      var m :| 0 <= m < |front| && front[m] == before[j];
      assert names[m] == before[j];
      DeduplicatedKeepsFirstPlaces(front, i, j, k, l);
    } else {
      assert last !in before && last !in front;
      forall m | 0 <= m < |front|
        ensures names[m] != last
      {
        assert front[m] in front;
      }
    }
  }

  method SecretNames(chain: seq<Mapping>) returns (names: seq<string>)
    ensures names == Deduplicated(AllSecrets(chain))
    ensures Distinct(names)
    ensures forall name :: name in names <==> exists k :: 0 <= k < |chain| && name in MappingSecrets(chain[k])
  {
    names := [];
    for i := 0 to |chain|
      invariant names == Deduplicated(AllSecrets(chain[..i]))
    {
      assert chain[..i + 1][..i] == chain[..i];
      names := AddNames(names, MappingSecrets(chain[i]), AllSecrets(chain[..i]));
    }
    assert chain[..|chain|] == chain;
    SecretsOfChain(chain);
  }

  lemma DeduplicateOne(names: seq<string>, last: string)
    ensures Deduplicated(names + [last]) ==
            if last in Deduplicated(names) then Deduplicated(names) else Deduplicated(names) + [last]
  {}

  method AddNames(known: seq<string>, more: seq<string>, ghost before: seq<string>) returns (names: seq<string>)
    requires known == Deduplicated(before)
    ensures names == Deduplicated(before + more)
  {
    hide Deduplicated, Distinct;
    names := known;
    assert before + more[..0] == before;
    for i := 0 to |more|
      invariant names == Deduplicated(before + more[..i])
    {
      var seen, next := before + more[..i], before + more[..i + 1];
      assert next == seen + [more[i]];
      DeduplicateOne(seen, more[i]);
      if more[i] !in names {
        names := names + [more[i]];
      }
    }
    assert more[..|more|] == more;
  }

  lemma SecretsOfChain(chain: seq<Mapping>)
    ensures forall name :: name in AllSecrets(chain) <==> exists k :: 0 <= k < |chain| && name in MappingSecrets(chain[k])
  {
    forall name
      ensures name in AllSecrets(chain) <==> exists k :: 0 <= k < |chain| && name in MappingSecrets(chain[k])
    {
      SecretOfChain(chain, name);
    }
  }

  lemma {:induction false} SecretOfChain(chain: seq<Mapping>, name: string)
    ensures name in AllSecrets(chain) <==> exists k :: 0 <= k < |chain| && name in MappingSecrets(chain[k])
  {
    hide MappingSecrets;
    if chain != [] {
      var front, last := chain[..|chain| - 1], chain[|chain| - 1];
      SecretOfChain(front, name);
      assert forall k :: 0 <= k < |front| ==> chain[k] == front[k];
      assert name in AllSecrets(chain) <==> name in AllSecrets(front) || name in MappingSecrets(last);
    }
  }

  ghost predicate Agree(a: Store, b: Store, names: seq<string>) {
    forall name <- names :: a(name) == b(name)
  }

  lemma {:induction false} HeadersDependOnTheirSecrets(provider: string, extra: seq<(string, string)>, a: Store, b: Store)
    requires Agree(a, b, HeaderSecrets(extra))
    ensures ReadHeaders(provider, extra, a) == ReadHeaders(provider, extra, b)
  {
    if extra != [] {
      assert HeaderSecrets(extra)[0] == extra[0].1;
      assert HeaderSecrets(extra) == [extra[0].1] + HeaderSecrets(extra[1..]);
      HeadersDependOnTheirSecrets(provider, extra[1..], a, b);
    }
  }

  lemma MappingDependsOnItsSecrets(provider: string, m: Mapping, a: Store, b: Store)
    requires Agree(a, b, MappingSecrets(m))
    ensures ResolveMapping(provider, m, a) == ResolveMapping(provider, m, b)
    ensures HasAll(a, m) <==> HasAll(b, m)
  {
    MappingResolvesExactly(provider, m, a);
    MappingResolvesExactly(provider, m, b);
    if m.Http? {
      var auth, headers := AuthSecrets(m.spec.auth), HeaderSecrets(m.spec.extra);
      assert MappingSecrets(m) == auth + headers;
      assert forall name <- headers :: name in MappingSecrets(m);
      HeadersDependOnTheirSecrets(provider, m.spec.extra, a, b);
      assert forall name <- auth :: name in MappingSecrets(m);
      assert ReadAuth(provider, m.spec.auth, a) == ReadAuth(provider, m.spec.auth, b) by {
        assert m.spec.auth.BearerFrom? ==> auth[0] == m.spec.auth.secret && auth[0] in auth;
        assert m.spec.auth.HeaderFrom? ==> auth[0] == m.spec.auth.secret && auth[0] in auth;
      }
    } else if m.BedrockBearerFrom? {
      assert MappingSecrets(m)[0] == m.secret;
    }
  }

  /** Resolution reads only the names it advertises: two stores that agree on them resolve alike. */
  lemma {:induction false} ResolutionDependsOnAdvertisedNames(provider: string, chain: seq<Mapping>, a: Store, b: Store)
    requires Agree(a, b, Deduplicated(AllSecrets(chain)))
    ensures ResolveChain(provider, chain, a) == ResolveChain(provider, chain, b)
  {
    SecretsOfChain(chain);
    forall k | 0 <= k < |chain|
      ensures ResolveMapping(provider, chain[k], a) == ResolveMapping(provider, chain[k], b)
      ensures HasAll(a, chain[k]) <==> HasAll(b, chain[k])
    {
      MappingDependsOnItsSecrets(provider, chain[k], a, b);
    }
    SameServed(chain, a, b);
    FirstServedIs(chain, a);
  }

  lemma {:induction false} SameServed(chain: seq<Mapping>, a: Store, b: Store)
    requires forall k :: 0 <= k < |chain| ==> (HasAll(a, chain[k]) <==> HasAll(b, chain[k]))
    ensures FirstServed(chain, a) == FirstServed(chain, b)
  {
    if chain != [] {
      SameServed(chain[1..], a, b);
    }
  }

  // ---------------------------------------------------------------------------------------------
  // Several credential providers in order
  // ---------------------------------------------------------------------------------------------

  predicate Informative(r: Resolved) {
    r.Err? && !r.error.NotConfigured?
  }

  function IsOk(): Resolved -> bool {
    (r: Resolved) => r.Ok?
  }

  function IsInformative(): Resolved -> bool {
    (r: Resolved) => Informative(r)
  }

  /** The first success; else the first failure that says more than "not configured"; else the first failure. */
  function ChainOutcome(provider: string, tried: seq<Resolved>): Resolved {
    First(tried, IsOk())
    .Or(First(tried, IsInformative()))
    .Or(if tried == [] then None else Some(tried[0]))
    .GetOr(Err(NotConfigured(provider)))
  }

  lemma {:induction false} FirstAt<T(!new)>(xs: seq<T>, wanted: T -> bool, k: nat)
    requires k < |xs| && wanted(xs[k]) && forall i :: 0 <= i < k ==> !wanted(xs[i])
    ensures First(xs, wanted) == Some(xs[k])
  {
    if k > 0 {
      FirstAt(xs[1..], wanted, k - 1);
    }
  }

  lemma {:induction false} FirstOfNone<T(!new)>(xs: seq<T>, wanted: T -> bool)
    requires forall i :: 0 <= i < |xs| ==> !wanted(xs[i])
    ensures First(xs, wanted) == None
  {
    if xs != [] {
      FirstOfNone(xs[1..], wanted);
    }
  }

  predicate FirstSuccess(tried: seq<Resolved>, k: nat) {
    k < |tried| && tried[k].Ok? && forall i :: 0 <= i < k ==> tried[i].Err?
  }

  /** The first failure that says more than that nothing is configured. */
  predicate FirstComplaint(tried: seq<Resolved>, k: nat) {
    && k < |tried| && tried[k].Err? && !tried[k].error.NotConfigured?
    && forall i :: 0 <= i < k ==> tried[i].Err? ==> tried[i].error.NotConfigured?
  }

  lemma OutcomeIs(provider: string, tried: seq<Resolved>)
    ensures forall k: nat :: FirstSuccess(tried, k) ==> ChainOutcome(provider, tried) == tried[k]
    ensures (forall i :: 0 <= i < |tried| ==> tried[i].Err?) ==>
      forall k: nat :: FirstComplaint(tried, k) ==> ChainOutcome(provider, tried) == tried[k]
    ensures (forall i :: 0 <= i < |tried| ==> tried[i].Err? && tried[i].error.NotConfigured?) ==>
      ChainOutcome(provider, tried) == if tried == [] then Err(NotConfigured(provider)) else tried[0]
  {
    hide First;
    forall k: nat | FirstSuccess(tried, k)
      ensures ChainOutcome(provider, tried) == tried[k]
    {
      FirstAt(tried, IsOk(), k);
    }
    if forall i :: 0 <= i < |tried| ==> tried[i].Err? {
      FirstOfNone(tried, IsOk());
      forall k: nat | FirstComplaint(tried, k)
        ensures ChainOutcome(provider, tried) == tried[k]
      {
        FirstAt(tried, IsInformative(), k);
      }
      if forall i :: 0 <= i < |tried| ==> tried[i].error.NotConfigured? {
        FirstOfNone(tried, IsInformative());
      }
    }
  }

  /** `tried` holds what each link would answer; links after a success are not asked. */
  method ResolveLinks(provider: string, tried: seq<Resolved>) returns (r: Resolved)
    ensures r == ChainOutcome(provider, tried)
    ensures forall k: nat :: FirstSuccess(tried, k) ==> r == tried[k]
    ensures (forall i :: 0 <= i < |tried| ==> tried[i].Err?) ==> forall k: nat :: FirstComplaint(tried, k) ==> r == tried[k]
    ensures (forall i :: 0 <= i < |tried| ==> tried[i].Err? && tried[i].error.NotConfigured?) ==>
      r == if tried == [] then Err(NotConfigured(provider)) else tried[0]
  {
    OutcomeIs(provider, tried);
    var reported: Option<CredentialError> := None;
    assert tried[0..] == tried;
    for i := 0 to |tried|
      invariant First(tried, IsOk()) == First(tried[i..], IsOk())
      invariant reported.None? <==> i == 0
      invariant i > 0 ==> tried[0].Err?
      invariant reported.Some? && reported.value.NotConfigured? ==>
        Err(reported.value) == tried[0] && First(tried, IsInformative()) == First(tried[i..], IsInformative())
      invariant reported.Some? && !reported.value.NotConfigured? ==>
        First(tried, IsInformative()) == Some(Err(reported.value))
    {
      assert tried[i..][1..] == tried[i + 1..];
      match tried[i]
      case Ok(credentials) =>
        return Ok(credentials);
      case Err(error) =>
        if reported.None? || (reported.value.NotConfigured? && !error.NotConfigured?) {
          reported := Some(error);
        }
    }
    if reported.Some? {
      return Err(reported.value);
    }
    return Err(NotConfigured(provider));
  }
}
