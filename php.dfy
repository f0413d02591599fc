/**
 * The few PHP built-ins whose exact behaviour the bundle relies on:
 * `ucfirst`, `str_starts_with`, `str_ends_with`, integer-to-string conversion
 * inside `sprintf('%s', …)`, and the `count(array_unique(…))` duplicate test.
 */
module Php {

  /** `ucfirst`: PHP 8 upper-cases only an ASCII lower-case first letter. */
  function UpperAscii(c: char): (u: char)
    ensures 'a' <= c <= 'z' ==> 'A' <= u <= 'Z' && u as int == c as int - 32
    ensures !('a' <= c <= 'z') ==> u == c
  {
    if 'a' <= c <= 'z' then (c as int - 32) as char else c
  }

  function Ucfirst(s: string): (r: string)
    ensures |r| == |s|
    ensures s != [] ==> r[0] == UpperAscii(s[0]) && r[1..] == s[1..]
  {
    if s == [] then s else [UpperAscii(s[0])] + s[1..]
  }

  /** `str_starts_with($s, $prefix)`. */
  predicate StartsWith(s: string, prefix: string) {
    |prefix| <= |s| && s[..|prefix|] == prefix
  }

  /** `str_ends_with($s, $suffix)`. */
  predicate EndsWith(s: string, suffix: string) {
    |suffix| <= |s| && s[|s| - |suffix|..] == suffix
  }

  lemma EndsWithConcat(prefix: string, suffix: string)
    ensures EndsWith(prefix + suffix, suffix)
  {
    assert (prefix + suffix)[|prefix|..] == suffix;
  }

  /** The decimal digits PHP prints for a non-negative integer. */
  function Digit(d: nat): char
    requires d < 10
  {
    "0123456789"[d]
  }

  function Decimal(n: nat): (r: string)
    ensures r != []
    ensures forall i :: 0 <= i < |r| ==> '0' <= r[i] <= '9'
    decreases n
  {
    if n < 10 then [Digit(n)] else Decimal(n / 10) + [Digit(n % 10)]
  }

  /** `(string) $i`: the digits, after a minus sign for a negative integer; never empty. */
  function IntText(i: int): (r: string)
    ensures r != []
    ensures i >= 0 ==> r == Decimal(i)
    ensures i < 0 ==> r == "-" + Decimal(-i)
  {
    if i < 0 then "-" + Decimal(-i) else Decimal(i)
  }

  /** Reading decimal digits back, the inverse of `Decimal`. */
  function DigitsValue(s: string): nat
    requires forall i :: 0 <= i < |s| ==> '0' <= s[i] <= '9'
  {
    if s == [] then 0
    else 10 * DigitsValue(s[..|s| - 1]) + (s[|s| - 1] as int - '0' as int)
  }

  lemma {:induction false} DecimalRoundTrip(n: nat)
    ensures DigitsValue(Decimal(n)) == n
    decreases n
  {
    if n >= 10 {
      var r := Decimal(n);
      assert r[..|r| - 1] == Decimal(n / 10);
      DecimalRoundTrip(n / 10);
    }
  }

  /** Different integers never print the same: the `"<key> parameter"` request keys are distinct. */
  lemma DecimalInjective(m: nat, n: nat)
    ensures Decimal(m) == Decimal(n) ==> m == n
  {
    DecimalRoundTrip(m);
    DecimalRoundTrip(n);
  }

  /** The set of values of a PHP list; `count(array_unique($values))` is its size. */
  function Elements(s: seq<string>): set<string> {
    set x | x in s
  }

  /** The validators' test `count($values) != count(array_unique($values))`. */
  predicate Repeated(s: seq<string>) {
    |s| != |Elements(s)|
  }

  predicate HasEqualPair(s: seq<string>) {
    exists i, j :: 0 <= i < j < |s| && s[i] == s[j]
  }

  lemma {:induction false} ElementsBound(s: seq<string>)
    ensures |Elements(s)| <= |s|
  {
    if s != [] {
      ElementsBound(s[1..]);
      assert Elements(s) == {s[0]} + Elements(s[1..]);
    }
  }

  /** The duplicate validators reject a list exactly when two of its positions hold the same value. */
  lemma {:induction false} RepeatedIffEqualPair(s: seq<string>)
    ensures Repeated(s) <==> HasEqualPair(s)
  {
    if s != [] {
      var t := s[1..];
      RepeatedIffEqualPair(t);
      ElementsBound(t);
      assert Elements(s) == {s[0]} + Elements(t);
      if s[0] in t {
        var j :| 0 <= j < |t| && t[j] == s[0];
        assert s[0] == s[j + 1];
      } else {
        assert |Elements(s)| == 1 + |Elements(t)|;
        if HasEqualPair(s) {
          var i, j :| 0 <= i < j < |s| && s[i] == s[j];
          assert s[j] == t[j - 1];
          assert t[i - 1] == t[j - 1];
        }
        if HasEqualPair(t) {
          var i, j :| 0 <= i < j < |t| && t[i] == t[j];
          assert s[i + 1] == s[j + 1];
        }
      }
    }
  }
}
