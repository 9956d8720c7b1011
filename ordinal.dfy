/**
 * Ordinal string comparison: strings are compared character by character by
 * their numeric code, and a proper prefix comes first. This is the order
 * `StringComparer.Ordinal` puts identifiers in.
 */
module Ordinal {

  predicate OrdinalLess(a: string, b: string)
  {
    if a == [] then b != []
    else if b == [] then false
    else if a[0] != b[0] then a[0] < b[0]
    else OrdinalLess(a[1..], b[1..])
  }

  /** A shared prefix does not change the comparison. */
  lemma {:induction false} CommonPrefix(p: string, a: string, b: string)
    ensures OrdinalLess(p + a, p + b) <==> OrdinalLess(a, b)
  {
    if p == [] {
      assert p + a == a && p + b == b;
    } else {
      assert (p + a)[0] == p[0] == (p + b)[0];
      assert (p + a)[1..] == p[1..] + a;
      assert (p + b)[1..] == p[1..] + b;
      CommonPrefix(p[1..], a, b);
    }
  }

  /** Once two strings of the same length are ordered, whatever follows them does not matter. */
  lemma {:induction false} AppendSameLength(a: string, b: string, x: string, y: string)
    requires |a| == |b| && OrdinalLess(a, b)
    ensures OrdinalLess(a + x, b + y)
  {
    assert a != [];
    assert (a + x)[0] == a[0] && (b + y)[0] == b[0];
    if a[0] == b[0] {
      assert (a + x)[1..] == a[1..] + x;
      assert (b + y)[1..] == b[1..] + y;
      AppendSameLength(a[1..], b[1..], x, y);
    }
  }

  lemma {:induction false} Asymmetric(a: string, b: string)
    requires OrdinalLess(a, b)
    ensures !OrdinalLess(b, a)
  {
    if a != [] && b != [] && a[0] == b[0] {
      Asymmetric(a[1..], b[1..]);
    }
  }

  lemma {:induction false} Transitive(a: string, b: string, c: string)
    requires OrdinalLess(a, b) && OrdinalLess(b, c)
    ensures OrdinalLess(a, c)
  {
    if a != [] && a[0] == b[0] && b[0] == c[0] {
      Transitive(a[1..], b[1..], c[1..]);
    }
  }
}
