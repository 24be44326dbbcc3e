/**
 * A simplified ASCII stand-in for the `heck` crate's `to_snake_case`:
 * every upper-case letter is lowered, and an underscore is inserted before
 * an upper-case letter that follows a lower-case letter or a digit.
 */
module SnakeCase {

  predicate IsUpper(c: char) { 'A' <= c <= 'Z' }
  predicate IsLower(c: char) { 'a' <= c <= 'z' }
  predicate IsDigit(c: char) { '0' <= c <= '9' }

  /** A character of an ASCII Rust identifier. */
  predicate IsIdentChar(c: char) { IsUpper(c) || IsLower(c) || IsDigit(c) || c == '_' }

  /** A character allowed in a snake_case name. */
  predicate IsSnakeChar(c: char) { IsLower(c) || IsDigit(c) || c == '_' }

  predicate IsIdentifier(s: string) {
    forall i :: 0 <= i < |s| ==> IsIdentChar(s[i])
  }

  predicate IsSnake(s: string) {
    forall i :: 0 <= i < |s| ==> IsSnakeChar(s[i])
  }

  function ToLower(c: char): (d: char)
    ensures IsUpper(c) ==> IsLower(d)
    ensures !IsUpper(c) ==> d == c
  {
    if IsUpper(c) then (c as int - 'A' as int + 'a' as int) as char else c
  }

  /** True when a word boundary falls just before position `i`. */
  predicate StartsWord(s: string, i: nat)
    requires i < |s|
  {
    i > 0 && IsUpper(s[i]) && (IsLower(s[i - 1]) || IsDigit(s[i - 1]))
  }

  function ToSnakeCase(s: string): (r: string)
    ensures |s| <= |r|
    ensures IsIdentifier(s) ==> IsSnake(r)
  {
    if |s| == 0 then ""
    else
      var i := |s| - 1;
      ToSnakeCase(s[..i]) + (if StartsWord(s, i) then "_" else "") + [ToLower(s[i])]
  }

  lemma AppendChar(s: string, c: char)
    ensures ToSnakeCase(s + [c]) == ToSnakeCase(s) + (if StartsWord(s + [c], |s|) then "_" else "") + [ToLower(c)]
  {
  }

  lemma FooExample()
    ensures ToSnakeCase("Foo") == "foo"
  {
    assert ToSnakeCase("F") == "f" by { AppendChar("", 'F'); assert "" + ['F'] == "F"; }
    assert ToSnakeCase("Fo") == "fo" by { AppendChar("F", 'o'); assert "F" + ['o'] == "Fo"; }
    assert ToSnakeCase("Foo") == "foo" by { AppendChar("Fo", 'o'); assert "Fo" + ['o'] == "Foo"; }
  }

  lemma FooBarExample()
    ensures ToSnakeCase("FooBar") == "foo_bar"
  {
    FooExample();
    assert ToSnakeCase("FooB") == "foo_b" by { AppendChar("Foo", 'B'); assert "Foo" + ['B'] == "FooB"; }
    assert ToSnakeCase("FooBa") == "foo_ba" by { AppendChar("FooB", 'a'); assert "FooB" + ['a'] == "FooBa"; }
    assert ToSnakeCase("FooBar") == "foo_bar" by { AppendChar("FooBa", 'r'); assert "FooBa" + ['r'] == "FooBar"; }
  }

  /** `FooBarBaz` becomes `foo_bar_baz`. */
  lemma CamelCaseExample()
    ensures ToSnakeCase("FooBarBaz") == "foo_bar_baz"
  {
    FooBarExample();
    assert ToSnakeCase("FooBarB") == "foo_bar_b" by { AppendChar("FooBar", 'B'); assert "FooBar" + ['B'] == "FooBarB"; }
    assert ToSnakeCase("FooBarBa") == "foo_bar_ba" by { AppendChar("FooBarB", 'a'); assert "FooBarB" + ['a'] == "FooBarBa"; }
    assert ToSnakeCase("FooBarBaz") == "foo_bar_baz" by { AppendChar("FooBarBa", 'z'); assert "FooBarBa" + ['z'] == "FooBarBaz"; }
  }
}
