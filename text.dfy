/**
 * The few JavaScript string operations the adapter relies on, with the
 * semantics of the ECMAScript built-ins they stand for (`indexOf`,
 * `substring`, `startsWith`, `split(..).pop()`, `split(..)[0]`,
 * `toLowerCase` on ASCII, number-to-string and unary `+`).
 */
module Text {
  import opened Wrappers

  /** JavaScript truthiness of a `string | undefined`: present and non-empty. */
  predicate Truthy(s: Option<string>) {
    s.Some? && s.value != ""
  }

  function Max0(i: int): nat { if i < 0 then 0 else i }

  /** `s.indexOf(c, from)`: the first index at or after `from` holding `c`, or -1. */
  function IndexOf(s: string, c: char, from: nat): int {
    FirstFrom(s, c, from)
  }

  /** The scan behind `IndexOf`, one position at a time. */
  function FirstFrom(s: string, c: char, from: nat): (r: int)
    ensures r == -1 || (from <= r < |s| && s[r] == c)
    decreases |s| - from
  {
    if from >= |s| then -1
    else if s[from] == c then from
    else FirstFrom(s, c, from + 1)
  }

  /** `IndexOf` finds the first occurrence: none of the skipped positions holds `c`. */
  lemma {:induction false} IndexOfFirst(s: string, c: char, from: nat)
    ensures var r := IndexOf(s, c, from);
      forall i :: from <= i < (if r < 0 then |s| else r) ==> s[i] != c
    decreases |s| - from
  {
    if from < |s| && s[from] != c {
      IndexOfFirst(s, c, from + 1);
    }
  }

  function Clamp(i: int, n: nat): (r: nat)
    ensures r <= n
  {
    if i < 0 then 0 else if i > n then n else i
  }

  /** `s.substring(a, b)`: both ends clamped to the string, swapped when reversed. */
  function Substring(s: string, a: int, b: int): string {
    var x, y := Clamp(a, |s|), Clamp(b, |s|);
    if x <= y then s[x..y] else s[y..x]
  }

  /** `s.startsWith(p)`. */
  predicate StartsWith(s: string, p: string) {
    |p| <= |s| && s[..|p|] == p
  }

  /** `s.split(c)[0]`: everything before the first `c`. */
  function BeforeFirst(s: string, c: char): (r: string)
    ensures c !in r
    ensures r <= s
    ensures r == s || s[|r|] == c
  {
    var i := IndexOf(s, c, 0);
    IndexOfFirst(s, c, 0);
    if i < 0 then s else s[..i]
  }

  /** `s.split(c).pop()`: everything after the last `c`. */
  function AfterLast(s: string, c: char): (r: string)
    ensures c !in r
    ensures |r| <= |s| && r == s[|s| - |r|..]
    ensures r == s || s[|s| - |r| - 1] == c
  {
    if s == [] then []
    else if s[|s| - 1] == c then []
    else AfterLast(s[..|s| - 1], c) + [s[|s| - 1]]
  }

  predicate IsAsciiUpper(ch: char) { 'A' <= ch <= 'Z' }
  predicate IsAsciiLetter(ch: char) { 'A' <= ch <= 'Z' || 'a' <= ch <= 'z' }
  predicate IsDigit(ch: char) { '0' <= ch <= '9' }

  function LowerChar(ch: char): char {
    if IsAsciiUpper(ch) then (ch as int + 32) as char else ch
  }

  /** `s.toLowerCase()` on ASCII letters. */
  function ToLower(s: string): (r: string)
    ensures |r| == |s|
    ensures forall i :: 0 <= i < |s| ==> r[i] == LowerChar(s[i])
  {
    if s == [] then [] else [LowerChar(s[0])] + ToLower(s[1..])
  }

  /** Decimal digits of a natural number, as `String(n)` prints them. */
  function NatToString(n: nat): (r: string)
    decreases n
  {
    if n < 10 then [DigitChar(n)] else NatToString(n / 10) + [DigitChar(n % 10)]
  }

  function DigitChar(d: nat): char
    requires d < 10
  {
    ('0' as int + d) as char
  }

  predicate AllDigits(s: string) {
    forall i :: 0 <= i < |s| ==> IsDigit(s[i])
  }

  /** The value of a string of decimal digits. */
  function DigitsValue(s: string): (v: nat)
    requires AllDigits(s)
  {
    if s == [] then 0 else 10 * DigitsValue(s[..|s| - 1]) + (s[|s| - 1] as int - '0' as int)
  }

  /**
   * Unary `+` on a string as far as the adapter depends on it: the empty
   * string gives 0, a string of decimal digits gives its value, and anything
   * else gives NaN, which is represented by 0 because the only consumer
   * tests it for truthiness and NaN is falsy like 0.
   */
  function NumericValue(s: string): (v: nat)
    ensures s == "" ==> v == 0
    ensures !AllDigits(s) ==> v == 0
  {
    if AllDigits(s) then DigitsValue(s) else 0
  }

  /** Printing a number and reading it back with unary `+` gives the number. */
  lemma {:induction false} NatToStringRoundTrip(n: nat)
    ensures AllDigits(NatToString(n)) && NatToString(n) != ""
    ensures NumericValue(NatToString(n)) == n
    decreases n
  {
    var s := NatToString(n);
    if n >= 10 {
      NatToStringRoundTrip(n / 10);
      assert s[..|s| - 1] == NatToString(n / 10);
      assert s[|s| - 1] as int - '0' as int == n % 10;
      assert DigitsValue(s) == 10 * (n / 10) + n % 10;
    } else {
      assert s[..0] == [];
      assert DigitsValue(s) == n;
    }
  }

  /** Lower-casing is idempotent. */
  lemma {:induction false} ToLowerIdempotent(s: string)
    ensures ToLower(ToLower(s)) == ToLower(s)
  {
    var l := ToLower(s);
    forall i | 0 <= i < |s| ensures ToLower(l)[i] == l[i] {
      assert LowerChar(LowerChar(s[i])) == LowerChar(s[i]);
    }
  }
}
