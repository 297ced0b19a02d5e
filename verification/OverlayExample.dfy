/** Three documents whose merge depends on how they are grouped (internal/config/load.go:28-42, 143-159). */
module OverlayExample {
  import opened OverlayModel

  const K := KeyId("!!str", "k")
  const INNER := KeyId("!!str", "x")

  /** k: {x: 1} */
  const A := Mapping("!!map", [Entry(K, Mapping("!!map", [Entry(INNER, Scalar("!!int", "1"))]))])
  /** k: off */
  const B := Mapping("!!map", [Entry(K, Scalar("!!str", "off"))])
  /** k: {} */
  const C := Mapping("!!map", [Entry(K, Mapping("!!map", []))])

  /**
   * Files are merged one after the other, so x is lost; had the last two been merged first, it would
   * have come back.
   */
  lemma GroupingMatters()
    ensures Unique(A) && Unique(B) && Unique(C)
    ensures Merge(Merge(A, B), C) == C
    ensures Merge(A, Merge(B, C)) == A
    ensures A != C
  {
    SoleEntries(A.entries[0], B.entries[0]);
    SoleEntries(B.entries[0], C.entries[0]);
    SoleEntries(A.entries[0], C.entries[0]);
  }

  lemma SoleEntries(a: Entry, b: Entry)
    requires a.key == b.key
    ensures MergeEntries([a], [b]) == [Entry(a.key, Merge(a.value, b.value))]
  {
    assert Find([a], b.key) == 0;
    assert MergeEntry([a], b) == [Entry(a.key, Merge(a.value, b.value))];
    assert [b][1..] == [];
  }
}
