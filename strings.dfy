/**
 * The few `String.prototype` methods the analyzer relies on, on strings as
 * sequences of `char`. A `char` is a Unicode scalar value where JavaScript
 * counts UTF-16 code units; the two agree on text without characters above
 * U+FFFF.
 */
module Strings {

  /** `s.startsWith(p)`. */
  predicate StartsWith(s: string, p: string) {
    |p| <= |s| && s[..|p|] == p
  }

  /** `p` occurs in `s` starting at index `i`. */
  predicate OccursAt(s: string, p: string, i: int) {
    0 <= i && i + |p| <= |s| && s[i..i + |p|] == p
  }

  /** `s.includes(p)`. */
  predicate Contains(s: string, p: string) {
    exists i | 0 <= i <= |s| :: OccursAt(s, p, i)
  }

  /**
   * `s.indexOf(p, from)` for a non-empty pattern and `from >= 0`: the first
   * occurrence of `p` at or after `from`, or -1.
   */
  function IndexOf(s: string, p: string, from: nat): (r: int)
    requires |p| > 0
    ensures r == -1 || (from <= r && OccursAt(s, p, r))
    ensures r == -1 ==> forall i | from <= i :: !OccursAt(s, p, i)
    ensures r != -1 ==> forall i | from <= i < r :: !OccursAt(s, p, i)
    decreases |s| - from
  {
    if from + |p| > |s| then -1
    else if s[from..from + |p|] == p then from
    else IndexOf(s, p, from + 1)
  }

  /** An occurrence with none before it, from `from` on, is the one `indexOf` finds. */
  lemma IndexOfFirst(s: string, p: string, from: nat, k: nat)
    requires |p| > 0 && from <= k && OccursAt(s, p, k)
    requires forall i | from <= i < k :: !OccursAt(s, p, i)
    ensures IndexOf(s, p, from) == k
  {
  }
}
