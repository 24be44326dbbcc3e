/**
 * The part of Rust's syntax tree that the provider front end looks at:
 * trait declarations with their attributes, generic parameters and members,
 * and the items of a file in which traits may be nested.
 */
module Syntax {

  /** An outer attribute such as `#[tracer]` or `#[tracers::tracer]`: only its path matters here. */
  datatype Attribute = Attribute(path: seq<string>)

  /** One generic parameter of a trait: `T`, `'a` or `const N: usize`. */
  datatype GenericParam =
    | TypeParam(name: string)
    | LifetimeParam(name: string)
    | ConstParam(name: string)

  /** The kinds of trait member other than a method. */
  datatype MemberKind = Const | Type | Macro | Verbatim

  /** The declaration of a method in a trait: attributes, name, argument and return types. */
  datatype TraitMethod = TraitMethod(attrs: seq<Attribute>, ident: string, inputs: seq<string>, output: string, hasDefault: bool)

  /**
   * A member of a trait. `nested` holds the items declared inside the member:
   * in a method's default body, or in a block of a `const` member's value.
   */
  datatype TraitItem =
    | Method(decl: TraitMethod, nested: seq<Item>)
    | NonMethod(kind: MemberKind, ident: string, nested: seq<Item>)

  /** A trait declaration. */
  datatype ItemTrait = ItemTrait(
    attrs: seq<Attribute>,
    vis: string,
    ident: string,
    generics: seq<GenericParam>,
    supertraits: seq<string>,
    items: seq<TraitItem>)

  /**
   * An item of a file. `Nested` stands for every item whose body can declare
   * further items (a module, a function, an impl block, ...); `Leaf` for one that cannot.
   */
  datatype Item =
    | Trait(decl: ItemTrait)
    | Nested(kind: string, items: seq<Item>)
    | Leaf(text: string)

  /** A parsed source file. */
  datatype File = File(attrs: seq<Attribute>, items: seq<Item>)

  /** True when the trait declares at least one type parameter. */
  predicate HasTypeParam(t: ItemTrait) {
    exists i :: 0 <= i < |t.generics| && t.generics[i].TypeParam?
  }

  /** True when the trait declares at least one lifetime parameter. */
  predicate HasLifetimeParam(t: ItemTrait) {
    exists i :: 0 <= i < |t.generics| && t.generics[i].LifetimeParam?
  }

  /** The marker test: the last segment of the attribute's path is `tracer`. */
  predicate IsTracerAttribute(a: Attribute): (b: bool)
    ensures b <==> exists prefix :: a.path == prefix + ["tracer"]
  {
    if |a.path| > 0 && a.path[|a.path| - 1] == "tracer" then
      assert a.path == a.path[..|a.path| - 1] + ["tracer"];
      true
    else
      false
  }

  /** A trait is a provider candidate when any of its attributes is the marker. */
  predicate IsMarked(t: ItemTrait): (b: bool)
    ensures b <==> exists a :: a in t.attrs && IsTracerAttribute(a)
  {
    exists i :: 0 <= i < |t.attrs| && IsTracerAttribute(t.attrs[i])
  }

  /** Both spellings of the marker are recognised; a path that only starts with `tracer` is not. */
  lemma MarkerSpellings(t: ItemTrait)
    ensures IsTracerAttribute(Attribute(["tracer"]))
    ensures IsTracerAttribute(Attribute(["tracers", "tracer"]))
    ensures !IsTracerAttribute(Attribute(["tracer", "probe"]))
    ensures !IsTracerAttribute(Attribute([]))
    ensures |t.attrs| > 0 && t.attrs[0] == Attribute(["tracers", "tracer"]) ==> IsMarked(t)
  {
  }
}
