/** Shared vocabulary: optional values, results, device identities, and orders on them. */
module Basics {
  datatype Option<+T> = None | Some(value: T)

  datatype Result<+T, +E> = Ok(value: T) | Err(error: E)

  /** A device within a provider resource namespace: the planner's identity and the ledger's key. */
  datatype Key = Key(source: string, namespace: string, id: string)

  /** Three-way lexicographic comparison of Go strings, one char standing for one byte. */
  function Compare(a: string, b: string): (c: int)
    ensures -1 <= c <= 1
    ensures c == 0 <==> a == b
  {
    if a == [] || b == [] then
      if |a| == |b| then 0 else if a == [] then -1 else 1
    else if a[0] != b[0] then
      if a[0] < b[0] then -1 else 1
    else
      assert a == [a[0]] + a[1..] && b == [b[0]] + b[1..];
      Compare(a[1..], b[1..])
  }

  lemma {:induction false} CompareFlips(a: string, b: string)
    ensures Compare(b, a) == -Compare(a, b)
  {
    if a != [] && b != [] && a[0] == b[0] {
      CompareFlips(a[1..], b[1..]);
    }
  }

  lemma {:induction false} CompareTransitive(a: string, b: string, c: string)
    requires Compare(a, b) < 0 && Compare(b, c) < 0
    ensures Compare(a, c) < 0
  {
    if a != [] && b != [] && c != [] && a[0] == b[0] == c[0] {
      CompareTransitive(a[1..], b[1..], c[1..]);
    }
  }

  predicate Below(a: string, b: string) {
    Compare(a, b) < 0
  }

  /** Source first, then namespace, then id. */
  function CompareKeys(a: Key, b: Key): (c: int)
    ensures -1 <= c <= 1
    ensures c == 0 <==> a == b
  {
    if Compare(a.source, b.source) != 0 then Compare(a.source, b.source)
    else if Compare(a.namespace, b.namespace) != 0 then Compare(a.namespace, b.namespace)
    else Compare(a.id, b.id)
  }

  predicate KeyBelow(a: Key, b: Key) {
    CompareKeys(a, b) < 0
  }

  lemma CompareKeysFlips(a: Key, b: Key)
    ensures CompareKeys(b, a) == -CompareKeys(a, b)
  {
    CompareFlips(a.source, b.source);
    CompareFlips(a.namespace, b.namespace);
    CompareFlips(a.id, b.id);
  }

  lemma CompareKeysTransitive(a: Key, b: Key, c: Key)
    requires KeyBelow(a, b) && KeyBelow(b, c)
    ensures KeyBelow(a, c)
  {
    if Below(a.source, b.source) && Below(b.source, c.source) {
      CompareTransitive(a.source, b.source, c.source);
    } else if a.source == b.source == c.source {
      if Below(a.namespace, b.namespace) && Below(b.namespace, c.namespace) {
        CompareTransitive(a.namespace, b.namespace, c.namespace);
      } else if a.namespace == b.namespace == c.namespace {
        CompareTransitive(a.id, b.id, c.id);
      }
    }
  }
}
