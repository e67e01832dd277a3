/** Text operations the dashboard search and the by-name sort rely on:
    lower-casing, substring search and an order on names. */
module Text {

  /** Lower-cases one ASCII capital; every other character is unchanged. */
  function LowerChar(c: char): char
  {
    if 'A' <= c <= 'Z' then (c as int + 32) as char else c
  }

  /** `String.prototype.toLowerCase`, restricted to ASCII letters. */
  function Lower(s: string): string
  {
    seq(|s|, i requires 0 <= i < |s| => LowerChar(s[i]))
  }

  /** `prefix` is an initial segment of `s`. */
  predicate IsPrefix(prefix: string, s: string)
  {
    |prefix| <= |s| && s[..|prefix|] == prefix
  }

  /** `haystack.includes(needle)`: the needle occurs at some offset.
      The empty needle occurs in every string. */
  predicate Contains(haystack: string, needle: string)
    decreases |haystack|
  {
    IsPrefix(needle, haystack) || (|haystack| > 0 && Contains(haystack[1..], needle))
  }

  /** `needle` occurs in `haystack` starting at offset `i`. */
  predicate OccursAt(haystack: string, needle: string, i: int)
  {
    0 <= i <= |haystack| - |needle| && haystack[i..i + |needle|] == needle
  }

  /** The recursive search agrees with the direct definition of an occurrence. */
  lemma {:induction false} ContainsIffOccurs(haystack: string, needle: string)
    ensures Contains(haystack, needle) <==> exists i :: OccursAt(haystack, needle, i)
    decreases |haystack|
  {
    assert OccursAt(haystack, needle, 0) <==> IsPrefix(needle, haystack);
    if |haystack| > 0 {
      var tail := haystack[1..];
      ContainsIffOccurs(tail, needle);
      forall i | OccursAt(tail, needle, i) ensures OccursAt(haystack, needle, i + 1) {
        assert haystack[i + 1..i + 1 + |needle|] == tail[i..i + |needle|];
      }
      forall i | 0 < i && OccursAt(haystack, needle, i) ensures OccursAt(tail, needle, i - 1) {
        assert tail[i - 1..i - 1 + |needle|] == haystack[i..i + |needle|];
      }
    }
  }

  /** Every string contains the empty string. */
  lemma ContainsEmpty(s: string)
    ensures Contains(s, "")
  {
    assert IsPrefix("", s);
  }

  /** Lexicographic order on character codes, the order the by-name sort uses
      in place of a locale collation. */
  predicate CodeUnitLeq(a: string, b: string)
  {
    a == [] || (b != [] && (a[0] < b[0] || (a[0] == b[0] && CodeUnitLeq(a[1..], b[1..]))))
  }

  lemma {:induction false} CodeUnitLeqTotal(a: string, b: string)
    ensures CodeUnitLeq(a, b) || CodeUnitLeq(b, a)
  {
    if a != [] && b != [] && a[0] == b[0] {
      CodeUnitLeqTotal(a[1..], b[1..]);
    }
  }

  lemma {:induction false} CodeUnitLeqTransitive(a: string, b: string, c: string)
    requires CodeUnitLeq(a, b) && CodeUnitLeq(b, c)
    ensures CodeUnitLeq(a, c)
  {
    if a != [] && b != [] && c != [] && a[0] == b[0] && b[0] == c[0] {
      CodeUnitLeqTransitive(a[1..], b[1..], c[1..]);
    }
  }
}
