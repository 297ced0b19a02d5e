/** What the orders mean: Go's comparison of strings, and device identities compared part by part (planner.go:80-88). */
module Ordering {
  import opened Basics

  /** Alike up to `n`, where the first ends or has the smaller byte. */
  predicate SmallerAt(a: string, b: string, n: nat) {
    n <= |a| && n < |b| && a[..n] == b[..n] && (n == |a| || a[n] < b[n])
  }

  ghost predicate Smaller(a: string, b: string) {
    exists n: nat :: SmallerAt(a, b, n)
  }

  lemma SmallerTail(a: string, b: string, n: nat)
    requires a != [] && b != [] && a[0] == b[0]
    ensures SmallerAt(a, b, n + 1) <==> SmallerAt(a[1..], b[1..], n)
  {
    if n + 1 <= |a| && n + 1 < |b| {
      assert a[..n + 1] == [a[0]] + a[1..][..n];
      assert b[..n + 1] == [b[0]] + b[1..][..n];
      if SmallerAt(a, b, n + 1) {
        assert a[1..][..n] == a[..n + 1][1..];
      }
    }
  }

  lemma AlikeBefore(a: string, b: string, n: nat)
    requires SmallerAt(a, b, n)
    ensures n > 0 ==> a[0] == b[0]
  {
    if n > 0 {
      assert a[..n][0] == b[..n][0];
    }
  }

  /** Strings are in ascending order if one is a proper prefix of the other, or by the first byte that differs. */
  lemma {:induction false} BelowExactly(a: string, b: string)
    ensures Below(a, b) <==> Smaller(a, b)
  {
    if a == [] || b == [] {
      assert b != [] ==> SmallerAt([], b, 0);
    } else if a[0] != b[0] {
      assert a[0] < b[0] ==> SmallerAt(a, b, 0);
      forall n: nat | SmallerAt(a, b, n) ensures n == 0 {
        AlikeBefore(a, b, n);
      }
    } else {
      BelowExactly(a[1..], b[1..]);
      if n: nat :| SmallerAt(a[1..], b[1..], n) {
        SmallerTail(a, b, n);
      }
      if n: nat :| SmallerAt(a, b, n) {
        assert n > 0;
        SmallerTail(a, b, n - 1);
      }
    }
  }

  ghost predicate IdentityBefore(a: Key, b: Key) {
    if a.source != b.source then Smaller(a.source, b.source)
    else if a.namespace != b.namespace then Smaller(a.namespace, b.namespace)
    else Smaller(a.id, b.id)
  }

  /** Identities are in ascending order by source, then by namespace, then by id. */
  lemma KeyBelowExactly(a: Key, b: Key)
    ensures KeyBelow(a, b) <==> IdentityBefore(a, b)
  {
    BelowExactly(a.source, b.source);
    BelowExactly(a.namespace, b.namespace);
    BelowExactly(a.id, b.id);
  }
}
