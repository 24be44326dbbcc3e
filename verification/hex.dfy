/**
 * Rust's `{:x}` formatting of an unsigned integer: lowercase hexadecimal,
 * as few digits as the value needs, no prefix and no padding.
 */
module Hex {

  /** The largest value of a `u64` plus one. */
  const U64Limit: nat := 0x1_0000_0000_0000_0000

  predicate IsLowerHexDigit(c: char) {
    '0' <= c <= '9' || 'a' <= c <= 'f'
  }

  predicate IsLowerHex(s: string) {
    forall i :: 0 <= i < |s| ==> IsLowerHexDigit(s[i])
  }

  function DigitChar(d: nat): (c: char)
    requires d < 16
    ensures IsLowerHexDigit(c)
  {
    if d < 10 then ('0' as int + d) as char else ('a' as int + d - 10) as char
  }

  function DigitValue(c: char): (d: nat)
    requires IsLowerHexDigit(c)
    ensures d < 16
    ensures DigitChar(d) == c
    ensures forall e :: 0 <= e < 16 && DigitChar(e) == c ==> e == d
  {
    if c <= '9' then c as int - '0' as int else c as int - 'a' as int + 10
  }

  /** `{:x}` of `n`. */
  function LowerHex(n: nat): (r: string)
    ensures |r| >= 1
    ensures IsLowerHex(r)
    ensures r[0] == '0' ==> n == 0 && r == "0"
    decreases n
  {
    if n < 16 then [DigitChar(n)] else LowerHex(n / 16) + [DigitChar(n % 16)]
  }

  /** Reads a string of lowercase hexadecimal digits back as a number. */
  function ParseHex(s: string): nat
    requires IsLowerHex(s)
  {
    if |s| == 0 then 0 else ParseHex(s[..|s| - 1]) * 16 + DigitValue(s[|s| - 1])
  }

  function Pow16(k: nat): (p: nat)
    ensures p >= 1
  {
    if k == 0 then 1 else 16 * Pow16(k - 1)
  }

  /** Formatting then reading back gives the number again, so distinct hashes print differently. */
  lemma {:induction false} ParseLowerHex(n: nat)
    ensures ParseHex(LowerHex(n)) == n
    decreases n
  {
    if n >= 16 {
      var r := LowerHex(n);
      ParseLowerHex(n / 16);
      assert r[..|r| - 1] == LowerHex(n / 16);
      assert DigitValue(r[|r| - 1]) == n % 16;
    }
  }

  /** A value below 16^k prints in at most k digits; a `u64` in at most 16. */
  lemma {:induction false} LowerHexWidth(n: nat, k: nat)
    requires k >= 1
    requires n < Pow16(k)
    ensures |LowerHex(n)| <= k
    decreases n
  {
    if n >= 16 {
      LowerHexWidth(n / 16, k - 1);
    }
  }

  lemma U64HexWidth(n: nat)
    requires n < U64Limit
    ensures 1 <= |LowerHex(n)| <= 16
  {
    assert Pow16(16) == U64Limit by {
      assert Pow16(4) == 0x1_0000;
      assert Pow16(8) == 0x1_0000_0000 by {
        assert Pow16(8) == Pow16(4) * Pow16(4) by { Pow16Add(4, 4); }
      }
      Pow16Add(8, 8);
    }
    LowerHexWidth(n, 16);
  }

  lemma {:induction false} Pow16Add(a: nat, b: nat)
    ensures Pow16(a + b) == Pow16(a) * Pow16(b)
    decreases a
  {
    if a > 0 {
      Pow16Add(a - 1, b);
    }
  }
}
