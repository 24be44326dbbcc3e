# Provider-trait front end of `tracers-codegen`, in Dafny

This project models the part of `tracers` that turns Rust traits marked
`#[tracer]` into provider specifications (`tracers-codegen/src/spec/provider.rs`):

- **Validation** (`find_probes`): a trait with a type or lifetime parameter is
  rejected before any member is looked at; otherwise the members are walked in
  declaration order, a non-method member is an error naming that member, every
  method goes to the probe extractor, and the first error ends the walk.
- **Building the record** (`from_trait`, `from_token_stream`): the
  `ProviderSpecification` holds the snake_case name of the trait's identifier,
  the hash of the rendered token stream, the trait, the token stream and the
  probes, in that order.
- **Naming** (`provider_name_from_trait`, `name_with_hash`): the hash-qualified
  name is the name, `_`, and the hash in lowercase hexadecimal.
- **Decomposition** (`separate_probes`): the same record with no probes, plus
  the probes.
- **Scanning** (`find_providers`): a visit of the whole file in which a trait's
  contents are visited before the trait itself; marked traits that
  `from_trait` accepts are kept, the others are silently dropped.

The code this file calls but does not define is gathered in `Provider.Collaborators`:
`ProbeSpecification::from_method`, the `quote!` rendering of a trait, the
hash of a token stream, heck's `to_snake_case` and `syn::parse2`. They are
function-valued fields, so every property below holds for any choice of them.

Modules, one per file: `Results` (Result/Option), `Syntax` (the abstract syntax
tree and the marker test), `Hex` (`{:x}` formatting), `SnakeCase` (an ASCII
snake_case used for the character-set property), `Provider` (validation, the
record, naming, decomposition) and `Scanner` (the file visitor).

`name_with_hash` uses `{:x}`, which prints as few hex digits as the hash
needs, with no zero padding, so the hash suffix is between 1 and 16 characters
(`Hex.U64HexWidth`). Only type and lifetime parameters are rejected; const
generic parameters pass the generics check (`Provider.ConstParamsAllowed`).

## Model

| member | source | states |
|---|---|---|
| Provider.CollectProbes | tracers-codegen/src/spec/provider.rs:187-203 | the member walk succeeds exactly when every member yields a probe; then it has one probe per member, in order, each the extractor's result for that member; on failure the error is that of the first failing member |
| Provider.FindProbes | tracers-codegen/src/spec/provider.rs:179-204 | a trait with a type or lifetime parameter gets the "must not take any lifetime or type parameters" error naming the trait; otherwise success iff every member is a method the extractor accepts, with probe i from member i, and failure carries the first failing member's error |
| Provider.GenericsCheckedFirst | tracers-codegen/src/spec/provider.rs:180-185 | for a generic trait the outcome is the same whatever the extractor does, so no extraction takes place |
| Provider.ConstParamsAllowed | tracers-codegen/src/spec/provider.rs:180 | a trait whose only generic parameters are const parameters goes straight to the member walk |
| Provider.NonMethodRejected | tracers-codegen/src/spec/provider.rs:189-200 | any non-method member makes validation fail |
| Provider.FirstNonMethodReported | tracers-codegen/src/spec/provider.rs:194-199 | when the first failing member is a non-method, the error is "must consist entirely of methods" naming exactly that member |
| Provider.ExtractorErrorPropagated | tracers-codegen/src/spec/provider.rs:191-193 | when the first failing member is a method the extractor rejects, the extractor's error is returned unchanged |
| Provider.FirstErrorStops | tracers-codegen/src/spec/provider.rs:189-200 | members after the first failing one are not examined: replacing them does not change the result |
| Provider.EmptyTraitIsValid | tracers-codegen/src/spec/provider.rs:188-203 | a non-generic trait without members is valid and has no probes |
| Provider.ProbeOf | tracers-codegen/src/spec/provider.rs:190-199 | one member of the loop: a non-method member is the "must consist entirely of methods" error naming that member; a method's outcome is the extractor's, unchanged |
| Provider.ProviderNameFromTrait | tracers-codegen/src/spec/provider.rs:70-79 | with an ASCII identifier and an ASCII snake_case conversion, the provider name holds only lowercase letters, digits and underscores, so no dots or colons |
| Syntax.IsTracerAttribute | tracers-codegen/src/spec/provider.rs:153-156 | an attribute is the marker exactly when its path is some (possibly empty) prefix followed by the segment `tracer` |
| Syntax.IsMarked | tracers-codegen/src/spec/provider.rs:151-156 | a trait is a candidate exactly when one of its attributes is the marker |
| Scanner.Harvested | tracers-codegen/src/spec/provider.rs:150-162 | for one trait the visitor keeps at most one record; it keeps one exactly when the trait is marked and `from_trait` accepts it, and that record is `from_trait`'s consistent record of the trait |
| Scanner.VisitItemTrait | tracers-codegen/src/spec/provider.rs:146-163 | visiting a trait only appends to the providers found so far, and an accepted marked trait's own record is appended last, after everything found inside it |
| Provider.FromTrait | tracers-codegen/src/spec/provider.rs:55-66 | fails exactly when `find_probes` fails, with its error; on success the record keeps the given trait and its name, token stream, hash and probes are the ones that trait determines |
| Provider.FromTraitCharacterized | tracers-codegen/src/spec/provider.rs:55-66 | a record is what `from_trait` builds from its own trait if and only if its name, token stream, hash and probes are the ones the trait determines |
| Provider.FromTokenStream | tracers-codegen/src/spec/provider.rs:48-53 | a parse failure becomes the "Expected a trait" syn error carrying the parse error; otherwise the result is `from_trait` of the parsed trait, so a validation failure returns `find_probes`'s error and a success is a record consistent with the parsed trait |
| Provider.SameIdentSameName | tracers-codegen/src/spec/provider.rs:70-89 | two traits with one identifier get the same name whatever their contents, and their hash-qualified names are equal exactly when their hashes are |
| Provider.NameHasNoSeparators | tracers-codegen/src/spec/provider.rs:70-78 | with an ASCII identifier and an ASCII snake_case conversion, the provider name has only lowercase letters, digits and underscores, so no dots or colons |
| Provider.NameWithHash | tracers-codegen/src/spec/provider.rs:85-89 | the hash-qualified name starts with the name, then an underscore, then 1 to 16 lowercase hex digits |
| Provider.SplitNameWithHashRoundTrip | tracers-codegen/src/spec/provider.rs:85-89 | splitting the hash-qualified name at its last underscore gives back the name and the hash |
| Provider.NameWithHashInjective | tracers-codegen/src/spec/provider.rs:85-89 | records with equal hash-qualified names have equal names and equal hashes |
| Provider.SeparateProbes | tracers-codegen/src/spec/provider.rs:112-128 | the returned probes are the record's probes; the returned record has no probes and the same name, hash, trait and token stream |
| Provider.SeparateProbesReassembles | tracers-codegen/src/spec/provider.rs:112-128 | putting the probes back gives the original record, and the split record keeps the consistency of name, hash and token stream and the same hash-qualified name |
| Hex.ParseLowerHex | tracers-codegen/src/spec/provider.rs:88 | reading the `{:x}` text of a number back gives the number |
| Hex.LowerHex | tracers-codegen/src/spec/provider.rs:88 | `{:x}` prints at least one lowercase hex digit and has no leading zero except for the value 0 |
| Hex.U64HexWidth | tracers-codegen/src/spec/provider.rs:21 | a 64-bit hash prints in 1 to 16 hex digits |
| SnakeCase.CamelCaseExample | tracers-codegen/src/spec/provider.rs:78 | `FooBarBaz` becomes `foo_bar_baz` |
| Syntax.MarkerSpellings | tracers-codegen/src/spec/provider.rs:150-156 | `#[tracer]` and `#[tracers::tracer]` mark a trait; a path that ends elsewhere or is empty does not |
| Scanner.VisitItemsHarvests | tracers-codegen/src/spec/provider.rs:145-169 | the visitor appends to its list exactly the specifications of the accepted marked traits, taking the traits in post-order (contents before the trait) |
| Scanner.FindProviders | tracers-codegen/src/spec/provider.rs:138-172 | the result is the filter of the file's traits in post-order: marked traits that `from_trait` accepts, mapped to their records |
| Scanner.FindProvidersMembers | tracers-codegen/src/spec/provider.rs:150-161 | a record is found if and only if some marked trait of the file builds it |
| Scanner.FindProvidersSound | tracers-codegen/src/spec/provider.rs:150-161 | every record found comes from a marked trait and is consistent with it |
| Scanner.InvalidTraitDropped | tracers-codegen/src/spec/provider.rs:235-251 | a file whose single marked trait is rejected by `from_trait` yields no providers |
| Scanner.EnclosingTraitLast | tracers-codegen/src/spec/provider.rs:146-162 | an accepted marked trait's record comes after the records of the traits nested in it |
| Scanner.GenericThenValidScenario | tracers-codegen/src/spec/provider.rs:138-204 | a file with a marked generic trait and a marked one-method trait yields one provider, the second, with one probe |

## Left out

- Serialization through `serde_helpers` and the JSON round-trip test: the helpers are not part of this model, and the test's equality compares only name and probes.
- The `Debug` implementation and `vis_str`: presentation only.
- The field accessors `name`, `ident`, `item_trait`, `token_stream` and `probes`: they return record fields, which the model exposes directly.
- `syn::parse2`, `quote!` rendering, the hash in `crate::hashing` and `ProbeSpecification::from_method`: library or out-of-file code. They are parameters (`Provider.Collaborators`), so nothing is assumed about them. `HashCode` is taken to be a 64-bit unsigned integer, since `crate::hashing` is not part of this model.
- heck's `to_snake_case` is a parameter. `SnakeCase.ToSnakeCase` is a simplified ASCII version used only for the character-set property and the example. It differs from heck in two ways. It does not split acronyms the way heck does (`HTTPServer` gives `httpserver`, not `http_server`). It also keeps underscores as they are, while heck splits on `_` and drops empty words (`Foo__Bar` gives `foo__bar`, not `foo_bar`, and `_Foo` gives `_foo`, not `foo`).
- The syn visitor is abstracted. Items are traits, items holding further items (modules, functions, impl blocks and so on), or leaves. Trait members carry the items nested in them. Attributes, generics and supertraits are treated as holding no items.
- `tests/sandbox.rs`: it fires probes at run time and has no logic to model.
