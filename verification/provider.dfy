/**
 * Provider traits: validation of a trait's shape (`find_probes`), the
 * immutable `ProviderSpecification` record built from a valid trait, its
 * hash-qualified name, and the split of a record into metadata and probes.
 */
module Provider {
  import opened Results
  import opened Syntax
  import Hex
  import SnakeCase

  /** The canonical rendering of a declaration, one string per token. */
  type TokenStream = seq<string>

  /** The provider's content hash, taken as an unsigned 64-bit value. */
  type HashCode = h: nat | h < Hex.U64Limit

  /** What the probe extractor returns for one method: its name and its argument types in order. */
  datatype ProbeSpecification = ProbeSpecification(name: string, argTypes: seq<string>)

  datatype ParseError = ParseError(message: string)

  /** The syntax node an `invalid_provider` error points at. */
  datatype Offender = WholeTrait(decl: ItemTrait) | Member(item: TraitItem)

  datatype TracersError =
    | InvalidProvider(message: string, offender: Offender)
    | SynError(message: string, cause: ParseError)
    | ProbeError(message: string)

  /**
   * The code this module calls but does not define: the per-method probe
   * extractor, the renderer of a trait to tokens, the token-stream hash,
   * the snake_case conversion and the trait parser. Every property below
   * holds whatever these functions are.
   */
  datatype Collaborators = Collaborators(
    fromMethod: (ItemTrait, TraitMethod) -> Result<ProbeSpecification, TracersError>,
    render: ItemTrait -> TokenStream,
    hashTokens: TokenStream -> HashCode,
    snakeCase: string -> string,
    parseTrait: TokenStream -> Result<ItemTrait, ParseError>)

  datatype ProviderSpecification = ProviderSpecification(
    name: string,
    hash: HashCode,
    itemTrait: ItemTrait,
    tokenStream: TokenStream,
    probes: seq<ProbeSpecification>)

  const GenericsMessage: string := "Probe traits must not take any lifetime or type parameters"
  const NonMethodMessage: string := "Probe traits must consist entirely of methods, no other contents"
  const ExpectedTraitMessage: string := "Expected a trait"

  predicate HasGenerics(t: ItemTrait) {
    HasTypeParam(t) || HasLifetimeParam(t)
  }

  /** What `find_probes` does with one member of trait `t`. */
  function ProbeOf(env: Collaborators, t: ItemTrait, item: TraitItem): (r: Result<ProbeSpecification, TracersError>)
    ensures item.NonMethod? ==> r.Err? && r.error.InvalidProvider? && r.error.offender == Member(item)
    ensures item.NonMethod? ==> r.error.message == NonMethodMessage
    ensures item.Method? ==> r == env.fromMethod(t, item.decl)
  {
    match item
    case Method(m, _) => env.fromMethod(t, m)
    case NonMethod(_, _, _) => Err(InvalidProvider(NonMethodMessage, Member(item)))
  }

  /** Every member yields a probe. */
  predicate AllSucceed(env: Collaborators, t: ItemTrait, items: seq<TraitItem>) {
    forall i :: 0 <= i < |items| ==> ProbeOf(env, t, items[i]).Ok?
  }

  /** Member `k` is the first one that fails. */
  predicate FirstFailureAt(env: Collaborators, t: ItemTrait, items: seq<TraitItem>, k: nat) {
    && k < |items|
    && (forall i :: 0 <= i < k ==> ProbeOf(env, t, items[i]).Ok?)
    && ProbeOf(env, t, items[k]).Err?
  }

  /** The loop of `find_probes`: members in order, stopping at the first failure. */
  function CollectProbes(env: Collaborators, t: ItemTrait, items: seq<TraitItem>): (r: Result<seq<ProbeSpecification>, TracersError>)
    ensures r.Ok? <==> AllSucceed(env, t, items)
    ensures r.Ok? ==> |r.value| == |items|
    ensures r.Ok? ==> forall i :: 0 <= i < |items| ==> r.value[i] == ProbeOf(env, t, items[i]).value
    ensures r.Err? ==> exists k: nat :: FirstFailureAt(env, t, items, k) && r.error == ProbeOf(env, t, items[k]).error
    decreases |items|
  {
    if |items| == 0 then Ok([])
    else
      match ProbeOf(env, t, items[0])
      case Err(e) =>
        assert FirstFailureAt(env, t, items, 0);
        Err(e)
      case Ok(p) =>
        match CollectProbes(env, t, items[1..])
        case Err(e) =>
          var k: nat :| FirstFailureAt(env, t, items[1..], k) && e == ProbeOf(env, t, items[1..][k]).error;
          assert FirstFailureAt(env, t, items, k + 1);
          Err(e)
        case Ok(ps) =>
          Ok([p] + ps)
  }

  /** `find_probes`: reject generic traits, then translate every member into a probe. */
  function FindProbes(env: Collaborators, t: ItemTrait): (r: Result<seq<ProbeSpecification>, TracersError>)
    ensures HasGenerics(t) ==> r == Err(InvalidProvider(GenericsMessage, WholeTrait(t)))
    ensures !HasGenerics(t) ==> (r.Ok? <==> AllSucceed(env, t, t.items))
    ensures r.Ok? ==> |r.value| == |t.items|
    ensures r.Ok? ==> forall i :: 0 <= i < |t.items| ==>
      t.items[i].Method? && r.value[i] == env.fromMethod(t, t.items[i].decl).value
    ensures !HasGenerics(t) && r.Err? ==>
      exists k: nat :: FirstFailureAt(env, t, t.items, k) && r.error == ProbeOf(env, t, t.items[k]).error
  {
    if HasGenerics(t) then Err(InvalidProvider(GenericsMessage, WholeTrait(t)))
    else
      var r := CollectProbes(env, t, t.items);
      assert r.Ok? ==> forall i :: 0 <= i < |t.items| ==> ProbeOf(env, t, t.items[i]).Ok?;
      r
  }

  /** The generics check comes first: a generic trait fails the same way whatever the extractor does. */
  lemma GenericsCheckedFirst(env1: Collaborators, env2: Collaborators, t: ItemTrait)
    requires HasGenerics(t)
    ensures FindProbes(env1, t) == FindProbes(env2, t)
    ensures FindProbes(env1, t).Err? && FindProbes(env1, t).error.message == GenericsMessage
  {
  }

  /** Const generic parameters are not looked at: only type and lifetime parameters are rejected. */
  lemma ConstParamsAllowed(env: Collaborators, t: ItemTrait)
    requires forall i :: 0 <= i < |t.generics| ==> t.generics[i].ConstParam?
    ensures FindProbes(env, t) == CollectProbes(env, t, t.items)
  {
  }

  /** A trait with a member that is not a method never yields probes. */
  lemma NonMethodRejected(env: Collaborators, t: ItemTrait, j: nat)
    requires j < |t.items| && t.items[j].NonMethod?
    ensures FindProbes(env, t).Err?
  {
  }

  /** When a non-method member is the first failure, the error names exactly that member. */
  lemma FirstNonMethodReported(env: Collaborators, t: ItemTrait, k: nat)
    requires !HasGenerics(t)
    requires k < |t.items| && t.items[k].NonMethod?
    requires forall i :: 0 <= i < k ==> ProbeOf(env, t, t.items[i]).Ok?
    ensures FindProbes(env, t) == Err(InvalidProvider(NonMethodMessage, Member(t.items[k])))
  {
  }

  /** When the extractor fails on the first failing member, its error comes back unchanged. */
  lemma ExtractorErrorPropagated(env: Collaborators, t: ItemTrait, k: nat)
    requires !HasGenerics(t)
    requires k < |t.items| && t.items[k].Method?
    requires env.fromMethod(t, t.items[k].decl).Err?
    requires forall i :: 0 <= i < k ==> ProbeOf(env, t, t.items[i]).Ok?
    ensures FindProbes(env, t) == Err(env.fromMethod(t, t.items[k].decl).error)
  {
  }

  /** Members after the first failing one are never examined: replacing them changes nothing. */
  lemma {:induction false} FirstErrorStops(env: Collaborators, t: ItemTrait, items: seq<TraitItem>, other: seq<TraitItem>, k: nat)
    requires FirstFailureAt(env, t, items, k)
    requires k < |other| && other[..k + 1] == items[..k + 1]
    ensures CollectProbes(env, t, other) == CollectProbes(env, t, items)
    decreases k
  {
    assert other[0] == items[0];
    if k > 0 {
      assert FirstFailureAt(env, t, items[1..], k - 1);
      assert other[1..][..k] == items[1..][..k];
      FirstErrorStops(env, t, items[1..], other[1..], k - 1);
    }
  }

  /** A trait without generics and without members is a valid provider with no probes. */
  lemma EmptyTraitIsValid(env: Collaborators, t: ItemTrait)
    requires !HasGenerics(t) && |t.items| == 0
    ensures FindProbes(env, t) == Ok([])
  {
  }

  /** `provider_name_from_trait`: the snake_case form of the trait's identifier. */
  function ProviderNameFromTrait(env: Collaborators, ident: string): (r: string)
    ensures SnakeCase.IsIdentifier(ident) && env.snakeCase(ident) == SnakeCase.ToSnakeCase(ident) ==>
      SnakeCase.IsSnake(r) && '.' !in r && ':' !in r
  {
    env.snakeCase(ident)
  }

  /** The record's name, hash and token stream are those its trait determines. */
  predicate IdentityConsistent(env: Collaborators, s: ProviderSpecification) {
    && s.name == ProviderNameFromTrait(env, s.itemTrait.ident)
    && s.tokenStream == env.render(s.itemTrait)
    && s.hash == env.hashTokens(s.tokenStream)
  }

  /** The record is exactly what its trait determines, probes included. */
  predicate Consistent(env: Collaborators, s: ProviderSpecification) {
    IdentityConsistent(env, s) && FindProbes(env, s.itemTrait) == Ok(s.probes)
  }

  /** `from_trait`: validate, then build the record. */
  function FromTrait(env: Collaborators, t: ItemTrait): (r: Result<ProviderSpecification, TracersError>)
    ensures r.Err? <==> FindProbes(env, t).Err?
    ensures r.Err? ==> r.error == FindProbes(env, t).error
    ensures r.Ok? ==> r.value.itemTrait == t && Consistent(env, r.value)
  {
    var probes :- FindProbes(env, t);
    var tokenStream := env.render(t);
    var hash := env.hashTokens(tokenStream);
    Ok(ProviderSpecification(ProviderNameFromTrait(env, t.ident), hash, t, tokenStream, probes))
  }

  /** A record is what `from_trait` builds from its trait exactly when it is consistent with that trait. */
  lemma FromTraitCharacterized(env: Collaborators, s: ProviderSpecification)
    ensures FromTrait(env, s.itemTrait) == Ok(s) <==> Consistent(env, s)
  {
  }

  /** The name depends on the identifier alone; two providers with one identifier share it. */
  lemma SameIdentSameName(env: Collaborators, t1: ItemTrait, t2: ItemTrait)
    requires t1.ident == t2.ident
    requires FromTrait(env, t1).Ok? && FromTrait(env, t2).Ok?
    ensures FromTrait(env, t1).value.name == FromTrait(env, t2).value.name
    ensures NameWithHash(FromTrait(env, t1).value) == NameWithHash(FromTrait(env, t2).value)
        <==> FromTrait(env, t1).value.hash == FromTrait(env, t2).value.hash
  {
    var s1 := FromTrait(env, t1).value;
    var s2 := FromTrait(env, t2).value;
    if NameWithHash(s1) == NameWithHash(s2) {
      NameWithHashInjective(s1, s2);
    }
  }

  /** With an ASCII identifier and the ASCII snake_case, the name holds no dots and no colons. */
  lemma NameHasNoSeparators(env: Collaborators, t: ItemTrait)
    requires SnakeCase.IsIdentifier(t.ident)
    requires env.snakeCase(t.ident) == SnakeCase.ToSnakeCase(t.ident)
    requires FromTrait(env, t).Ok?
    ensures SnakeCase.IsSnake(FromTrait(env, t).value.name)
    ensures '.' !in FromTrait(env, t).value.name && ':' !in FromTrait(env, t).value.name
  {
  }

  /** `from_token_stream`: parse a trait, then `from_trait`; a parse failure becomes a syn error. */
  function FromTokenStream(env: Collaborators, tokens: TokenStream): (r: Result<ProviderSpecification, TracersError>)
    ensures env.parseTrait(tokens).Err? ==> r == Err(SynError(ExpectedTraitMessage, env.parseTrait(tokens).error))
    ensures env.parseTrait(tokens).Ok? ==> r == FromTrait(env, env.parseTrait(tokens).value)
    ensures env.parseTrait(tokens).Ok? ==> (r.Err? <==> FindProbes(env, env.parseTrait(tokens).value).Err?)
    ensures env.parseTrait(tokens).Ok? && r.Err? ==> r.error == FindProbes(env, env.parseTrait(tokens).value).error
    ensures r.Ok? ==> env.parseTrait(tokens) == Ok(r.value.itemTrait) && Consistent(env, r.value)
  {
    match env.parseTrait(tokens)
    case Ok(t) => FromTrait(env, t)
    case Err(e) => Err(SynError(ExpectedTraitMessage, e))
  }

  /** `name_with_hash`: the name, an underscore, and the hash in lowercase hexadecimal. */
  function NameWithHash(s: ProviderSpecification): (r: string)
    ensures |s.name| < |r| <= |s.name| + 17
    ensures r[..|s.name|] == s.name && r[|s.name|] == '_'
    ensures Hex.IsLowerHex(r[|s.name| + 1..]) && |r[|s.name| + 1..]| >= 1
  {
    Hex.U64HexWidth(s.hash);
    s.name + "_" + Hex.LowerHex(s.hash)
  }

  /** The index of the last occurrence of `c` in `s`, if any. */
  function LastIndexOf(s: string, c: char): (r: Option<nat>)
    ensures r.Some? ==> r.value < |s| && s[r.value] == c && forall j :: r.value < j < |s| ==> s[j] != c
    ensures r.None? ==> forall j :: 0 <= j < |s| ==> s[j] != c
  {
    if |s| == 0 then None
    else if s[|s| - 1] == c then Some(|s| - 1)
    else LastIndexOf(s[..|s| - 1], c)
  }

  /** Reads a hash-qualified name back: the part before the last underscore and the hex number after it. */
  function SplitNameWithHash(s: string): Option<(string, nat)> {
    match LastIndexOf(s, '_')
    case None => None
    case Some(k) =>
      var suffix := s[k + 1..];
      if |suffix| > 0 && Hex.IsLowerHex(suffix) then Some((s[..k], Hex.ParseHex(suffix))) else None
  }

  /** The hash-qualified name can be split back into the name and the hash. */
  lemma SplitNameWithHashRoundTrip(s: ProviderSpecification)
    ensures SplitNameWithHash(NameWithHash(s)) == Some((s.name, s.hash as nat))
  {
    var r := NameWithHash(s);
    var n := |s.name|;
    var k := LastIndexOf(r, '_');
    assert k.Some? && k.value >= n;
    assert r[n + 1..] == Hex.LowerHex(s.hash);
    Hex.ParseLowerHex(s.hash);
  }

  /** Two records with the same hash-qualified name have the same name and the same hash. */
  lemma NameWithHashInjective(s1: ProviderSpecification, s2: ProviderSpecification)
    requires NameWithHash(s1) == NameWithHash(s2)
    ensures s1.name == s2.name && s1.hash == s2.hash
  {
    SplitNameWithHashRoundTrip(s1);
    SplitNameWithHashRoundTrip(s2);
  }

  /** `separate_probes`: the record without its probes, and the probes. */
  function SeparateProbes(s: ProviderSpecification): (r: (ProviderSpecification, seq<ProbeSpecification>))
    ensures r.1 == s.probes && r.0.probes == []
    ensures r.0.name == s.name && r.0.hash == s.hash
    ensures r.0.itemTrait == s.itemTrait && r.0.tokenStream == s.tokenStream
  {
    (ProviderSpecification(s.name, s.hash, s.itemTrait, s.tokenStream, []), s.probes)
  }

  /** Putting the probes back restores the record; nothing was recomputed or lost. */
  lemma SeparateProbesReassembles(env: Collaborators, s: ProviderSpecification)
    ensures SeparateProbes(s).0.(probes := SeparateProbes(s).1) == s
    ensures IdentityConsistent(env, s) <==> IdentityConsistent(env, SeparateProbes(s).0)
    ensures NameWithHash(SeparateProbes(s).0) == NameWithHash(s)
  {
  }
}
