/** Character and string helpers with Python's meaning: `str.isspace`,
    `str.lower`, substring tests, `sep.join(parts)`, `str(int)`. */
module Text {

  /** Python's `str.isspace` (also what `\s` matches in a `re` pattern on `str`). */
  predicate IsSpace(c: char)
  {
    c == ' ' || ('\t' <= c <= '\r') || ('\U{1C}' <= c <= '\U{1F}')
    || c == '\U{85}' || c == '\U{A0}' || c == '\U{1680}'
    || ('\U{2000}' <= c <= '\U{200A}') || c == '\U{2028}' || c == '\U{2029}'
    || c == '\U{202F}' || c == '\U{205F}' || c == '\U{3000}'
  }

  predicate NoSpace(s: string)
  {
    forall i :: 0 <= i < |s| ==> !IsSpace(s[i])
  }

  /** U+0130, LATIN CAPITAL LETTER I WITH DOT ABOVE: the one character that
      `str.lower` turns into two, `i` followed by U+0307 COMBINING DOT ABOVE. */
  const DottedCapitalI: char := '\U{0130}'

  /** U+212A, KELVIN SIGN, which `str.lower` turns into ASCII `k`. */
  const KelvinSign: char := '\U{212A}'

  /** `str.lower` on one character other than `DottedCapitalI`: ASCII capitals
      and the Kelvin sign become ASCII small letters; every other character is
      left as it is. */
  function LowerChar(c: char): (r: char)
    ensures 'A' <= c <= 'Z' ==> r as int == c as int + 32
    ensures c == KelvinSign ==> r == 'k'
    ensures !('A' <= c <= 'Z') && c != KelvinSign ==> r == c
  {
    if 'A' <= c <= 'Z' then (c as int + 32) as char
    else if c == KelvinSign then 'k'
    else c
  }

  predicate NoDottedCapitalI(s: string)
  {
    forall i :: 0 <= i < |s| ==> s[i] != DottedCapitalI
  }

  /** `str.lower`, as far as ASCII text can tell: `DottedCapitalI` becomes
      `i` and a combining dot, and every other character is lower-cased on its
      own, so text without `DottedCapitalI` keeps its length. */
  function Lower(s: string): (r: string)
    ensures |r| >= |s|
    ensures NoDottedCapitalI(s) ==>
              |r| == |s| && forall i :: 0 <= i < |s| ==> r[i] == LowerChar(s[i])
  {
    if s == [] then []
    else (if s[0] == DottedCapitalI then "i\U{0307}" else [LowerChar(s[0])]) + Lower(s[1..])
  }

  /** Lower-casing works character by character, so it distributes over
      concatenation. */
  lemma {:induction false} LowerAppend(a: string, b: string)
    ensures Lower(a + b) == Lower(a) + Lower(b)
  {
    if a != [] {
      var head := if a[0] == DottedCapitalI then "i\U{0307}" else [LowerChar(a[0])];
      assert (a + b)[0] == a[0] && (a + b)[1..] == a[1..] + b;
      LowerAppend(a[1..], b);
      assert Lower(a + b) == head + (Lower(a[1..]) + Lower(b));
    } else {
      assert a + b == b;
    }
  }

  /** `sub` occurs in `s` starting at position `k`. */
  predicate OccursAt(s: string, sub: string, k: int)
  {
    0 <= k <= |s| - |sub| && s[k..k + |sub|] == sub
  }

  /** Python's `sub in s`. */
  predicate Contains(s: string, sub: string)
  {
    exists k :: 0 <= k <= |s| - |sub| && OccursAt(s, sub, k)
  }

  /** Python's `sep.join(parts)`. */
  function Join(sep: string, parts: seq<string>): string
  {
    if parts == [] then ""
    else if |parts| == 1 then parts[0]
    else Join(sep, parts[..|parts| - 1]) + sep + parts[|parts| - 1]
  }

  /** `n` copies of one character (Python's `c * n`). */
  function Repeat(c: char, n: nat): (r: string)
    ensures |r| == n
    ensures forall i :: 0 <= i < n ==> r[i] == c
  {
    seq(n, i => c)
  }

  function DigitChar(d: nat): char
    requires d < 10
  {
    ('0' as int + d) as char
  }

  /** Decimal notation of a natural number (Python's `str(n)`). */
  function NatToString(n: nat): (r: string)
    ensures |r| >= 1
    ensures forall i :: 0 <= i < |r| ==> '0' <= r[i] <= '9'
    decreases n
  {
    if n < 10 then [DigitChar(n)] else NatToString(n / 10) + [DigitChar(n % 10)]
  }

  /** Decimal notation of an integer, with a leading minus when negative. */
  function IntToString(i: int): string
  {
    if i < 0 then "-" + NatToString(-i) else NatToString(i)
  }
}
