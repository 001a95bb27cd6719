/**
 * The order in which the analyzer lists tag, macro and trigger names.
 * The source sorts with `String.prototype.localeCompare`, whose collation
 * depends on the host's locale data; the model uses the lexicographic order
 * on `char`s (Unicode code points) in its place and relies only on it being a
 * total order.
 */
module Order {

  /** `a` sorts no later than `b`: lexicographic order on code points, a prefix first. */
  predicate Below(a: string, b: string) {
    if a == [] then true
    else if b == [] then false
    else if a[0] != b[0] then a[0] < b[0]
    else Below(a[1..], b[1..])
  }

  lemma {:induction false} BelowReflexive(a: string)
    ensures Below(a, a)
  {
    if a != [] {
      BelowReflexive(a[1..]);
    }
  }

  lemma {:induction false} BelowAntisymmetric(a: string, b: string)
    requires Below(a, b) && Below(b, a)
    ensures a == b
  {
    if a != [] && b != [] {
      BelowAntisymmetric(a[1..], b[1..]);
      assert a == [a[0]] + a[1..] && b == [b[0]] + b[1..];
    }
  }

  lemma {:induction false} BelowTransitive(a: string, b: string, c: string)
    requires Below(a, b) && Below(b, c)
    ensures Below(a, c)
  {
    if a != [] && b != [] && c != [] && a[0] == b[0] && b[0] == c[0] {
      BelowTransitive(a[1..], b[1..], c[1..]);
    }
  }

  lemma {:induction false} BelowTotal(a: string, b: string)
    ensures Below(a, b) || Below(b, a)
  {
    if a != [] && b != [] && a[0] == b[0] {
      BelowTotal(a[1..], b[1..]);
    }
  }
}
