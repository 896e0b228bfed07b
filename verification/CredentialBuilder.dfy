/** Building the table of secret mappings, and what the order of registrations changes. */
module CredentialBuilder {
  import opened Wrappers
  import opened Sequences
  import opened CredentialTable

  // ---------------------------------------------------------------------------------------------
  // Registrations
  // ---------------------------------------------------------------------------------------------

  /** One change to a provider's HTTP mapping. */
  datatype Edit = SetBearer(secret: string) | AddHeader(header: string, secret: string)
                | AddExtra(header: string, secret: string) | Nothing

  /** One registration: edit the primary mapping, replace the chain, or append a fallback. */
  datatype Registration = EditPrimary(edit: Edit) | Replace(mapping: Mapping) | Fallback(mapping: Mapping)

  function ApplyEdit(spec: HttpSpec, edit: Edit): HttpSpec {
    match edit
    case SetBearer(secret) =>
      HttpSpec(BearerFrom(secret),
               if spec.auth.HeaderFrom? then [(spec.auth.header, spec.auth.secret)] + spec.extra else spec.extra)
    case AddHeader(header, secret) =>
      if spec.auth.NoAuth? then spec.(auth := HeaderFrom(header, secret))
      else spec.(extra := spec.extra + [(header, secret)])
    case AddExtra(header, secret) => spec.(extra := spec.extra + [(header, secret)])
    case Nothing => spec
  }

  const BLANK: HttpSpec := HttpSpec(NoAuth, [])

  /** The HTTP mapping an edit starts from: the primary one, or a blank one in place of anything else. */
  function Editable(chain: seq<Mapping>): HttpSpec {
    if chain != [] && chain[0].Http? then chain[0].spec else BLANK
  }

  function Register(chain: seq<Mapping>, r: Registration): seq<Mapping> {
    match r
    case EditPrimary(edit) =>
      [Http(ApplyEdit(Editable(chain), edit))] + (if chain == [] then [] else chain[1..])
    case Replace(mapping) => [mapping]
    case Fallback(mapping) => chain + [mapping]
  }

  function RegisterAll(chain: seq<Mapping>, rs: seq<Registration>): seq<Mapping>
    decreases |rs|
  {
    if rs == [] then chain else RegisterAll(Register(chain, rs[0]), rs[1..])
  }

  function ChainOf(specs: map<string, seq<Mapping>>, provider: string): seq<Mapping> {
    if provider in specs then specs[provider] else []
  }

  // ---------------------------------------------------------------------------------------------
  // The builder
  // ---------------------------------------------------------------------------------------------

  class Builder {
    var specs: map<string, seq<Mapping>>

    constructor ()
      ensures specs == map[]
    {
      specs := map[];
    }

    /** Edits the provider's primary mapping in place, creating it if there is none. */
    method WithHttp(provider: string, edit: Edit)
      modifies this
      ensures specs == old(specs)[provider := Register(ChainOf(old(specs), provider), EditPrimary(edit))]
    {
      var chain := if provider in specs then specs[provider] else [];
      var spec := BLANK;
      if |chain| > 0 {
        match chain[0]
        case Http(primary) => spec := primary;
        case AwsDefaultChain(_) =>
        case BedrockBearerFrom(_) =>
      }
      match edit {
        case SetBearer(secret) =>
          if spec.auth.HeaderFrom? {
            spec := spec.(extra := [(spec.auth.header, spec.auth.secret)] + spec.extra);
          }
          spec := spec.(auth := BearerFrom(secret));
        case AddHeader(header, secret) =>
          if spec.auth.NoAuth? {
            spec := spec.(auth := HeaderFrom(header, secret));
          } else {
            spec := spec.(extra := spec.extra + [(header, secret)]);
          }
        case AddExtra(header, secret) =>
          spec := spec.(extra := spec.extra + [(header, secret)]);
        case Nothing =>
      }
      assert spec == ApplyEdit(Editable(chain), edit);
      if |chain| > 0 {
        chain := chain[0 := Http(spec)];
        assert chain == [Http(spec)] + chain[1..];
      } else {
        chain := chain + [Http(spec)];
        assert chain == [Http(spec)] + [];
      }
      specs := specs[provider := chain];
    }

    method SetPrimary(provider: string, mapping: Mapping)
      modifies this
      ensures specs == old(specs)[provider := Register(ChainOf(old(specs), provider), Replace(mapping))]
      ensures specs == old(specs)[provider := [mapping]]
    {
      specs := specs[provider := [mapping]];
    }

    method Push(provider: string, mapping: Mapping)
      modifies this
      ensures specs == old(specs)[provider := Register(ChainOf(old(specs), provider), Fallback(mapping))]
      ensures specs == old(specs)[provider := (if provider in old(specs) then old(specs)[provider] else []) + [mapping]]
    {
      var chain := if provider in specs then specs[provider] else [];
      specs := specs[provider := chain + [mapping]];
    }

    /** Any list of registrations for one provider leaves every other provider's chain alone. */
    method RegisterEach(provider: string, rs: seq<Registration>)
      modifies this
      ensures ChainOf(specs, provider) == RegisterAll(ChainOf(old(specs), provider), rs)
      ensures forall other :: other != provider ==> ChainOf(specs, other) == ChainOf(old(specs), other)
    {
      assert rs[0..] == rs;
      for i := 0 to |rs|
        invariant RegisterAll(ChainOf(specs, provider), rs[i..]) == RegisterAll(ChainOf(old(specs), provider), rs)
        invariant forall other :: other != provider ==> ChainOf(specs, other) == ChainOf(old(specs), other)
      {
        assert rs[i..][1..] == rs[i + 1..];
        match rs[i]
        case EditPrimary(edit) => WithHttp(provider, edit);
        case Replace(mapping) => SetPrimary(provider, mapping);
        case Fallback(mapping) => Push(provider, mapping);
      }
    }
  }

  // ---------------------------------------------------------------------------------------------
  // The order of headers and the bearer secret
  // ---------------------------------------------------------------------------------------------

  function Headers(pairs: seq<(string, string)>): seq<Registration> {
    seq(|pairs|, i requires 0 <= i < |pairs| => EditPrimary(AddHeader(pairs[i].0, pairs[i].1)))
  }

  function BearerCall(secret: string): seq<Registration> {
    [EditPrimary(SetBearer(secret))]
  }

  lemma {:induction false} RegisterAllConcat(chain: seq<Mapping>, a: seq<Registration>, b: seq<Registration>)
    ensures RegisterAll(chain, a + b) == RegisterAll(RegisterAll(chain, a), b)
    decreases |a|
  {
    if a == [] {
      assert a + b == b;
    } else {
      HeadAndTail(a, b);
      RegisterAllConcat(Register(chain, a[0]), a[1..], b);
    }
  }

  /** Once there is an authentication, header registrations only append. */
  lemma {:induction false} HeadersAppend(spec: HttpSpec, rest: seq<Mapping>, pairs: seq<(string, string)>)
    requires !spec.auth.NoAuth?
    ensures RegisterAll([Http(spec)] + rest, Headers(pairs)) == [Http(spec.(extra := spec.extra + pairs))] + rest
    decreases |pairs|
  {
    if pairs == [] {
      assert spec.extra + pairs == spec.extra;
    } else {
      var next := spec.(extra := spec.extra + [pairs[0]]);
      assert Headers(pairs)[1..] == Headers(pairs[1..]);
      assert Register([Http(spec)] + rest, Headers(pairs)[0]) == [Http(next)] + rest by {
        assert ([Http(spec)] + rest)[1..] == rest;
      }
      HeadersAppend(next, rest, pairs[1..]);
      Associates(spec.extra, [pairs[0]], pairs[1..]);
      assert [pairs[0]] + pairs[1..] == pairs;
    }
  }

  /** From nothing, the first header becomes the authentication and the others follow it. */
  lemma HeadersAlone(pairs: seq<(string, string)>)
    requires pairs != []
    ensures RegisterAll([], Headers(pairs)) == [Http(HttpSpec(HeaderFrom(pairs[0].0, pairs[0].1), pairs[1..]))]
  {
    var first := HttpSpec(HeaderFrom(pairs[0].0, pairs[0].1), []);
    assert Headers(pairs)[1..] == Headers(pairs[1..]);
    HeadersAppend(first, [], pairs[1..]);
    assert [Http(first)] + [] == [Http(first)];
    assert first.extra + pairs[1..] == pairs[1..];
  }

  /**
   * The bearer secret may be registered before, after or anywhere among the headers: the provider ends
   * with that bearer and every header in registration order.
   */
  lemma RegistrationOrderDoesNotMatter(before: seq<(string, string)>, secret: string, after: seq<(string, string)>)
    ensures RegisterAll([], Headers(before) + BearerCall(secret) + Headers(after)) ==
            [Http(HttpSpec(BearerFrom(secret), before + after))]
  {
    var chain := RegisterAll([], Headers(before));
    var bearer := HttpSpec(BearerFrom(secret), before);
    RegisterAllConcat([], Headers(before) + BearerCall(secret), Headers(after));
    RegisterAllConcat([], Headers(before), BearerCall(secret));
    if before != [] {
      HeadersAlone(before);
      assert before == [before[0]] + before[1..];
    }
    BearerAlone(chain, secret);
    assert RegisterAll(chain, BearerCall(secret)) == [Http(bearer)] + [];
    HeadersAppend(bearer, [], after);
  }

  lemma BearerAlone(chain: seq<Mapping>, secret: string)
    ensures RegisterAll(chain, BearerCall(secret)) == Register(chain, EditPrimary(SetBearer(secret)))
  {}

  // ---------------------------------------------------------------------------------------------
  // Mixed with headers that never authenticate
  // ---------------------------------------------------------------------------------------------

  /** A header registered before the bearer: one that may authenticate, or one that is always extra. */
  datatype Early = Early(header: string, secret: string, alwaysExtra: bool)

  function EarlyCalls(early: seq<Early>): seq<Registration> {
    seq(|early|, i requires 0 <= i < |early| =>
      EditPrimary(if early[i].alwaysExtra then AddExtra(early[i].header, early[i].secret)
                  else AddHeader(early[i].header, early[i].secret)))
  }

  function Pairs(early: seq<Early>): seq<(string, string)> {
    seq(|early|, i requires 0 <= i < |early| => (early[i].header, early[i].secret))
  }

  /** Where the first header that may authenticate stands, or the length when there is none. */
  function FirstPlain(early: seq<Early>): (k: nat)
    ensures k <= |early|
    ensures k < |early| ==> !early[k].alwaysExtra
    ensures forall i :: 0 <= i < k ==> early[i].alwaysExtra
  {
    if early == [] then 0
    else if !early[0].alwaysExtra then 0
    else
      var k := FirstPlain(early[1..]);
      assert forall i :: 1 <= i < |early| ==> early[i] == early[1..][i - 1];
      1 + k
  }

  /** What those headers leave: the first that may authenticate does, and the others stay extra in order. */
  function EarlySpec(early: seq<Early>): HttpSpec {
    var k := FirstPlain(early);
    if k == |early| then HttpSpec(NoAuth, Pairs(early))
    else HttpSpec(HeaderFrom(early[k].header, early[k].secret), Pairs(early[..k]) + Pairs(early[k + 1..]))
  }

  /** Extra and further headers only append, whatever the authentication is. */
  lemma {:induction false} EarlyAppend(spec: HttpSpec, early: seq<Early>)
    requires spec.auth.NoAuth? ==> forall i :: 0 <= i < |early| ==> early[i].alwaysExtra
    ensures RegisterAll([Http(spec)], EarlyCalls(early)) == [Http(spec.(extra := spec.extra + Pairs(early)))]
    decreases |early|
  {
    if early == [] {
      assert spec.extra + Pairs(early) == spec.extra;
    } else {
      var next := spec.(extra := spec.extra + [(early[0].header, early[0].secret)]);
      assert EarlyCalls(early)[1..] == EarlyCalls(early[1..]);
      EarlyAppend(next, early[1..]);
      assert spec.extra + [(early[0].header, early[0].secret)] + Pairs(early[1..]) == spec.extra + Pairs(early);
      assert Register([Http(spec)], EarlyCalls(early)[0]) == [Http(next)];
    }
  }

  /** The first header that may authenticate does, and the ones after it append. */
  lemma FirstPlainAuthenticates(extra: seq<(string, string)>, tail: seq<Early>)
    requires tail != [] && !tail[0].alwaysExtra
    ensures RegisterAll([Http(HttpSpec(NoAuth, extra))], EarlyCalls(tail)) ==
            [Http(HttpSpec(HeaderFrom(tail[0].header, tail[0].secret), extra + Pairs(tail[1..])))]
  {
    var auth := HttpSpec(HeaderFrom(tail[0].header, tail[0].secret), extra);
    assert Register([Http(HttpSpec(NoAuth, extra))], EarlyCalls(tail)[0]) == [Http(auth)];
    assert EarlyCalls(tail)[1..] == EarlyCalls(tail[1..]);
    EarlyAppend(auth, tail[1..]);
  }

  lemma EarlyCallsSplit(early: seq<Early>, k: nat)
    requires k <= |early|
    ensures EarlyCalls(early) == EarlyCalls(early[..k]) + EarlyCalls(early[k..])
  {}

  lemma EarlyLeaves(early: seq<Early>)
    ensures RegisterAll([Http(BLANK)], EarlyCalls(early)) == [Http(EarlySpec(early))]
  {
    var k := FirstPlain(early);
    var head, tail := early[..k], early[k..];
    hide RegisterAll;
    EarlyAppend(BLANK, head);
    assert BLANK.extra + Pairs(head) == Pairs(head);
    EarlyCallsSplit(early, k);
    RegisterAllConcat([Http(BLANK)], EarlyCalls(head), EarlyCalls(tail));
    hide EarlyCalls, Pairs;
    if k == |early| {
      assert head == early;
    } else {
      assert tail[1..] == early[k + 1..];
      FirstPlainAuthenticates(Pairs(head), tail);
    }
  }

  /** Registering on nothing is registering on a blank mapping. */
  lemma EarlyFromNothing(early: seq<Early>)
    requires early != []
    ensures RegisterAll([], EarlyCalls(early)) == RegisterAll([Http(BLANK)], EarlyCalls(early))
  {}

  /** Every always-extra header before the first authenticating one is that same header again. */
  predicate NothingOvertaken(early: seq<Early>) {
    var k := FirstPlain(early);
    k == |early| || forall i :: 0 <= i < k ==> Pairs(early)[i] == Pairs(early)[k]
  }

  /**
   * With always-extra headers among them, the headers keep registration order under a later bearer
   * exactly when none was registered before the first authenticating header, short of repeating it:
   * the bearer moves that header to the front.
   */
  lemma OrderIsKeptExactly(early: seq<Early>, secret: string)
    requires early != []
    ensures RegisterAll([], EarlyCalls(early) + BearerCall(secret)) == [Http(HttpSpec(BearerFrom(secret), Pairs(early)))]
            <==> NothingOvertaken(early)
  {
    var k := FirstPlain(early);
    var left := [Http(EarlySpec(early))];
    EarlyFromNothing(early);
    EarlyLeaves(early);
    RegisterAllConcat([], EarlyCalls(early), BearerCall(secret));
    BearerAlone(left, secret);
    hide RegisterAll, EarlyCalls, BearerCall;
    if k < |early| {
      var moved := [Pairs(early)[k]] + (Pairs(early[..k]) + Pairs(early[k + 1..]));
      assert RegisterAll([], EarlyCalls(early) + BearerCall(secret)) == [Http(HttpSpec(BearerFrom(secret), moved))];
      RotationIsIdentity(Pairs(early), k);
      assert Pairs(early[..k]) == Pairs(early)[..k] && Pairs(early[k + 1..]) == Pairs(early)[k + 1..];
    }
  }

  /** One always-extra header, then another header, then the bearer: the second header ends up first. */
  lemma ExtraHeaderIsOvertaken(extra: (string, string), header: (string, string), secret: string)
    requires extra != header
    ensures
      var early := [Early(extra.0, extra.1, true), Early(header.0, header.1, false)];
      && !NothingOvertaken(early)
      && RegisterAll([], EarlyCalls(early) + BearerCall(secret)) == [Http(HttpSpec(BearerFrom(secret), [header, extra]))]
  {
    var early := [Early(extra.0, extra.1, true), Early(header.0, header.1, false)];
    assert early[1..] == [Early(header.0, header.1, false)];
    assert FirstPlain(early[1..]) == 0 && FirstPlain(early) == 1;
    EarlyFromNothing(early);
    EarlyLeaves(early);
    assert early[..1] == [Early(extra.0, extra.1, true)] && early[2..] == [];
    assert EarlySpec(early) == HttpSpec(HeaderFrom(header.0, header.1), [extra]);
    RegisterAllConcat([], EarlyCalls(early), BearerCall(secret));
    BearerAlone([Http(EarlySpec(early))], secret);
    assert Pairs(early)[0] == extra && Pairs(early)[1] == header;
    var left := [Http(EarlySpec(early))];
    assert (header.0, header.1) == header && [header] + [extra] == [header, extra];
    assert Register(left, EditPrimary(SetBearer(secret))) == [Http(HttpSpec(BearerFrom(secret), [header, extra]))] + left[1..];
  }

  lemma {:induction false} RotationIsIdentity<T(!new)>(xs: seq<T>, k: nat)
    requires k < |xs|
    ensures [xs[k]] + (xs[..k] + xs[k + 1..]) == xs <==> forall i :: 0 <= i < k ==> xs[i] == xs[k]
  {
    var moved := [xs[k]] + (xs[..k] + xs[k + 1..]);
    assert forall i :: 1 <= i <= k ==> moved[i] == xs[i - 1];
    assert forall i :: k < i < |xs| ==> moved[i] == xs[i];
    if moved == xs {
      RotationIsConstant(xs, k, k);
    }
  }

  lemma {:induction false} RotationIsConstant<T>(xs: seq<T>, k: nat, i: nat)
    requires i <= k < |xs| && xs[0] == xs[k]
    requires forall j :: 1 <= j <= k ==> xs[j] == xs[j - 1]
    ensures forall j :: 0 <= j <= i ==> xs[j] == xs[k]
  {
    if i > 0 {
      RotationIsConstant(xs, k, i - 1);
      assert xs[i] == xs[i - 1];
    }
  }

  // ---------------------------------------------------------------------------------------------
  // Fallbacks
  // ---------------------------------------------------------------------------------------------

  /** The primary mapping's own edits, in order. */
  function EditsOf(rs: seq<Registration>): seq<Registration> {
    if rs == [] then [] else (if rs[0].EditPrimary? then [rs[0]] else []) + EditsOf(rs[1..])
  }

  function FallbacksOf(rs: seq<Registration>): seq<Mapping> {
    if rs == [] then [] else (if rs[0].Fallback? then [rs[0].mapping] else []) + FallbacksOf(rs[1..])
  }

  /**
   * Once a primary mapping exists, edits touch only it and fallbacks queue up behind it in the order
   * they were added, however the two are interleaved.
   */
  lemma {:induction false} FallbacksKeepTheirPlace(primary: Mapping, fallbacks: seq<Mapping>, rs: seq<Registration>)
    requires forall i :: 0 <= i < |rs| ==> !rs[i].Replace?
    ensures RegisterAll([primary] + fallbacks, rs) ==
            RegisterAll([primary], EditsOf(rs)) + fallbacks + FallbacksOf(rs)
    decreases |rs|
  {
    if rs == [] {
      assert [primary] + fallbacks + [] == [primary] + fallbacks;
    } else {
      var r, rest := rs[0], rs[1..];
      if r.EditPrimary? {
        var edited := EditedPrimary(primary, fallbacks, r);
        FallbacksKeepTheirPlace(edited, fallbacks, rest);
        HeadAndTail([r], EditsOf(rest));
        assert [r][1..] + EditsOf(rest) == EditsOf(rest);
        assert [] + FallbacksOf(rest) == FallbacksOf(rest);
      } else {
        var queued := fallbacks + [r.mapping];
        Associates([primary], fallbacks, [r.mapping]);
        FallbacksKeepTheirPlace(primary, queued, rest);
        assert [] + EditsOf(rest) == EditsOf(rest);
        QueueAssociates(RegisterAll([primary], EditsOf(rest)), fallbacks, r.mapping, FallbacksOf(rest));
      }
    }
  }

  lemma EditedPrimary(primary: Mapping, fallbacks: seq<Mapping>, r: Registration) returns (edited: Mapping)
    requires r.EditPrimary?
    ensures Register([primary] + fallbacks, r) == [edited] + fallbacks && Register([primary], r) == [edited]
  {
    edited := Http(ApplyEdit(Editable([primary]), r.edit));
    assert ([primary] + fallbacks)[1..] == fallbacks;
    assert [edited] + [primary][1..] == [edited];
  }

  /**
   * An edit of a chain whose primary mapping is not HTTP replaces that mapping by what the edit makes of
   * a blank one, and a chain that is empty begins with it; the fallbacks stay.
   */
  lemma EditReplacesWhatIsNotHttp(chain: seq<Mapping>, name: string, secret: string)
    requires chain == [] || !chain[0].Http?
    ensures
      var rest := if chain == [] then [] else chain[1..];
      && Register(chain, EditPrimary(SetBearer(secret))) == [Http(HttpSpec(BearerFrom(secret), []))] + rest
      && Register(chain, EditPrimary(AddHeader(name, secret))) == [Http(HttpSpec(HeaderFrom(name, secret), []))] + rest
      && Register(chain, EditPrimary(AddExtra(name, secret))) == [Http(HttpSpec(NoAuth, [(name, secret)]))] + rest
      && Register(chain, EditPrimary(Nothing)) == [Http(HttpSpec(NoAuth, []))] + rest
  {
    assert [] + [(name, secret)] == [(name, secret)];
  }

  /** Naming a primary mapping drops every fallback registered before, and what follows starts from it alone. */
  lemma {:induction false} ReplacingForgetsTheChain(chain: seq<Mapping>, before: seq<Registration>, mapping: Mapping, after: seq<Registration>)
    ensures RegisterAll(chain, before + [Replace(mapping)] + after) == RegisterAll([mapping], after)
  {
    RegisterAllConcat(chain, before + [Replace(mapping)], after);
    RegisterAllConcat(chain, before, [Replace(mapping)]);
    var reached := RegisterAll(chain, before);
    assert [Replace(mapping)][1..] == [];
    assert RegisterAll(reached, [Replace(mapping)]) == [mapping];
  }

  lemma QueueAssociates(edited: seq<Mapping>, fallbacks: seq<Mapping>, next: Mapping, rest: seq<Mapping>)
    ensures edited + (fallbacks + [next]) + rest == edited + fallbacks + ([next] + rest)
  {}

  /**
   * A fallback added earlier survives an edit untouched exactly when something already stood before it;
   * one added to an empty chain has become the primary mapping, which only an empty edit or its own
   * bearer leaves as it was.
   */
  lemma EarlierFallbackIsKeptExactly(chain: seq<Mapping>, fallback: Mapping, edit: Edit)
    ensures
      var added := Register(chain, Fallback(fallback));
      Register(added, EditPrimary(edit))[|chain|] == fallback <==>
      chain != [] || (fallback.Http? && (edit.Nothing? || (edit.SetBearer? && fallback.spec.auth == BearerFrom(edit.secret))))
  {
    var added := Register(chain, Fallback(fallback));
    assert added[|chain|] == fallback;
    if chain != [] {
      assert added[1..][|chain| - 1] == fallback;
    } else if fallback.Http? {
      assert edit.AddHeader? ==> |ApplyEdit(fallback.spec, edit).extra| > |fallback.spec.extra| || fallback.spec.auth.NoAuth?;
      assert edit.AddExtra? ==> |ApplyEdit(fallback.spec, edit).extra| > |fallback.spec.extra|;
    }
  }

  /** A fallback bearer added first is edited by a later header registration. */
  lemma FirstFallbackIsEdited(header: string, secret: string)
    ensures RegisterAll([], [Fallback(Http(HttpSpec(BearerFrom("A"), []))), EditPrimary(AddHeader(header, secret))]) ==
            [Http(HttpSpec(BearerFrom("A"), [(header, secret)]))]
  {
    var first, second := Fallback(Http(HttpSpec(BearerFrom("A"), []))), EditPrimary(AddHeader(header, secret));
    var one := [Http(HttpSpec(BearerFrom("A"), []))];
    assert Register([], first) == one;
    assert [first, second][1..] == [second] && [second][1..] == [];
    assert RegisterAll([], [first, second]) == RegisterAll(one, [second]);
    assert RegisterAll(one, [second]) == RegisterAll(Register(one, second), []);
    var edited := HttpSpec(BearerFrom("A"), [] + [(header, secret)]);
    assert Register(one, second) == [Http(edited)] + one[1..] == [Http(edited)];
    assert edited.extra == [(header, secret)];
  }

  // ---------------------------------------------------------------------------------------------
  // Providers the table does not list
  // ---------------------------------------------------------------------------------------------

  function DerivedChar(c: char): char {
    if c == '-' || c == '.' then '_'
    else if 'a' <= c <= 'z' then (c as int - 32) as char
    else c
  }

  function DerivedName(provider: string): string {
    seq(|provider|, i requires 0 <= i < |provider| => DerivedChar(provider[i])) + "_API_KEY"
  }

  /** The provider's own chain, else one derived from its authentication scheme. */
  function SpecsFor(specs: map<string, seq<Mapping>>, provider: string, scheme: AuthScheme): seq<Mapping> {
    if ChainOf(specs, provider) != [] then ChainOf(specs, provider)
    else
      var name := DerivedName(provider);
      match scheme
      case BearerScheme => [Http(HttpSpec(BearerFrom(name), []))]
      case HeaderScheme(header) => [Http(HttpSpec(HeaderFrom(header, name), []))]
      case BedrockScheme => [BedrockBearerFrom(name)]
      case NoneScheme => [Http(BLANK)]
      case OtherScheme => []
  }

  lemma SingleMapping(m: Mapping)
    requires |MappingSecrets(m)| <= 1
    ensures Deduplicated(AllSecrets([m])) == MappingSecrets(m)
  {}

  lemma SingleResolution(provider: string, m: Mapping, store: Store)
    ensures ResolveChain(provider, [m], store).Ok? <==> forall name <- MappingSecrets(m) :: store(name).Some?
  {
    hide MappingSecrets;
    NothingMissing(MappingSecrets(m), store);
    MappingResolvesExactly(provider, m, store);
    assert [m][0] == m && [m][1..] == [];
    assert FirstServed([m][1..], store) == None;
    assert ResolveChain(provider, [m], store) == ResolveMapping(provider, m, store);
  }

  lemma NoMapping(provider: string, store: Store)
    ensures ResolveChain(provider, [], store).Err? && Deduplicated(AllSecrets([])) == []
  {}

  /** The derived name is the provider's, dashes and dots as underscores and letters in capitals, before `_API_KEY`. */
  lemma DerivedNameIs(provider: string)
    ensures
      var name := DerivedName(provider);
      && |name| == |provider| + 8 && name[|provider|..] == "_API_KEY"
      && forall i :: 0 <= i < |provider| ==>
           && (provider[i] == '-' || provider[i] == '.' ==> name[i] == '_')
           && ('a' <= provider[i] <= 'z' ==> 'A' <= name[i] <= 'Z' && name[i] as int - 'A' as int == provider[i] as int - 'a' as int)
           && (provider[i] != '-' && provider[i] != '.' && !('a' <= provider[i] <= 'z') ==> name[i] == provider[i])
  {}

  /**
   * What an unlisted provider's derived secret is used as, by the scheme it authenticates with: a bearer
   * token, the scheme's own header, a Bedrock key, or nothing at all; and a listed provider's chain is
   * the one it lists.
   */
  lemma DerivedCredentials(specs: map<string, seq<Mapping>>, provider: string, header: string, value: string, store: Store)
    requires ChainOf(specs, provider) == [] && store(DerivedName(provider)) == Some(value)
    ensures ResolveChain(provider, SpecsFor(specs, provider, BearerScheme), store) == Ok(HttpCredentials(Bearer(value), []))
    ensures ResolveChain(provider, SpecsFor(specs, provider, HeaderScheme(header)), store) ==
            Ok(HttpCredentials(Header(header, value), []))
    ensures ResolveChain(provider, SpecsFor(specs, provider, BedrockScheme), store) == Ok(BedrockBearer(value))
    ensures ResolveChain(provider, SpecsFor(specs, provider, NoneScheme), store) == Ok(HttpCredentials(Anonymous, []))
    ensures ResolveChain(provider, SpecsFor(specs, provider, OtherScheme), store) == Err(NotConfigured(provider))
  {
    var name := DerivedName(provider);
    hide DerivedName;
    ServedAlone(provider, Http(HttpSpec(BearerFrom(name), [])), store);
    ServedAlone(provider, Http(HttpSpec(HeaderFrom(header, name), [])), store);
    ServedAlone(provider, BedrockBearerFrom(name), store);
    ServedAlone(provider, Http(HttpSpec(NoAuth, [])), store);
    hide ResolveChain;
    NothingListed(provider, store);
  }

  lemma NothingListed(provider: string, store: Store)
    ensures ResolveChain(provider, [], store) == Err(NotConfigured(provider))
  {}

  lemma ServedAlone(provider: string, m: Mapping, store: Store)
    requires ResolveMapping(provider, m, store).Ok?
    ensures ResolveChain(provider, [m], store) == ResolveMapping(provider, m, store)
  {
    MappingResolvesExactly(provider, m, store);
    hide ResolveMapping, MappingSecrets;
    assert FirstServed([m], store) == Some(m);
  }

  /** A provider the table lists keeps the chain it lists, whatever its scheme. */
  lemma ListedChainIsKept(specs: map<string, seq<Mapping>>, provider: string, scheme: AuthScheme)
    requires provider in specs && specs[provider] != []
    ensures SpecsFor(specs, provider, scheme) == specs[provider]
  {}

  /** An unlisted provider resolves with the derived name alone, without any when its scheme needs none, and never otherwise. */
  lemma DerivedMappingResolves(specs: map<string, seq<Mapping>>, provider: string, scheme: AuthScheme, store: Store)
    requires ChainOf(specs, provider) == []
    ensures ResolveChain(provider, SpecsFor(specs, provider, scheme), store).Ok? <==>
      match scheme
      case NoneScheme => true
      case OtherScheme => false
      case _ => store(DerivedName(provider)).Some?
    ensures Deduplicated(AllSecrets(SpecsFor(specs, provider, scheme))) ==
      match scheme
      case NoneScheme => []
      case OtherScheme => []
      case _ => [DerivedName(provider)]
  {
    hide DerivedName, ResolveChain, AllSecrets, Deduplicated;
    var chain := SpecsFor(specs, provider, scheme);
    if scheme.OtherScheme? {
      NoMapping(provider, store);
    } else {
      var names := if scheme.NoneScheme? then [] else [DerivedName(provider)];
      assert chain == [chain[0]] && MappingSecrets(chain[0]) == names + [] == names;
      SingleMapping(chain[0]);
      SingleResolution(provider, chain[0], store);
      assert forall name <- names :: name == DerivedName(provider);
      assert names != [] ==> names[0] in names;
    }
  }
}
