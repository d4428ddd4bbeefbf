/** Small shared vocabulary: optional values, results, and the string helpers
    that the components rely on (prefix tests and decimal rendering). */
module Common {

  datatype Option<+T> = None | Some(value: T)

  datatype Result<+T, +E> = Ok(value: T) | Err(error: E)

  /** `s.startsWith(prefix)` */
  predicate StartsWith(s: string, prefix: string) {
    |prefix| <= |s| && s[..|prefix|] == prefix
  }

  function DigitChar(d: nat): (c: char)
    requires d < 10
    ensures '0' <= c <= '9'
  {
    "0123456789"[d]
  }

  /** The decimal rendering a template literal gives a non-negative integer
      (`${n}`). */
  function NatToString(n: nat): (s: string)
    ensures 1 <= |s|
    ensures forall i :: 0 <= i < |s| ==> '0' <= s[i] <= '9'
    decreases n
  {
    if n < 10 then [DigitChar(n)] else NatToString(n / 10) + [DigitChar(n % 10)]
  }

  /** Reads a string of decimal digits back as a number. */
  function DigitsValue(s: string): nat
    requires forall i :: 0 <= i < |s| ==> '0' <= s[i] <= '9'
  {
    if s == [] then 0
    else 10 * DigitsValue(s[..|s| - 1]) + (s[|s| - 1] as int - '0' as int)
  }

  /** Rendering a number and reading it back gives the number: distinct
      numbers render to distinct strings. */
  lemma {:induction false} NatToStringRoundTrip(n: nat)
    ensures DigitsValue(NatToString(n)) == n
    decreases n
  {
    var s := NatToString(n);
    if n >= 10 {
      var q, r := n / 10, n % 10;
      NatToStringRoundTrip(q);
      assert s == NatToString(q) + [DigitChar(r)];
      assert s[..|s| - 1] == NatToString(q);
      assert s[|s| - 1] as int - '0' as int == r;
      assert DigitsValue(s) == 10 * q + r;
    } else {
      assert s[..0] == [];
    }
  }

  /** JavaScript's `s.length`: the number of UTF-16 code units, two for a
      character outside the Basic Multilingual Plane and one otherwise. */
  function Utf16Length(s: string): nat {
    if s == [] then 0
    else Utf16Length(s[..|s| - 1]) + (if s[|s| - 1] as int >= 0x1_0000 then 2 else 1)
  }

  /** The code-unit length lies between the character count and twice it,
      so it is 0 exactly for the empty string. */
  lemma {:induction false} Utf16LengthBounds(s: string)
    ensures |s| <= Utf16Length(s) <= 2 * |s|
    ensures Utf16Length(s) == 0 <==> s == ""
  {
    if s != [] {
      Utf16LengthBounds(s[..|s| - 1]);
    }
  }
}
