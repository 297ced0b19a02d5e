/** Exactly when three documents may be merged in either grouping (internal/config/load.go:28-42, 143-169). */
module OverlayOrder {
  import opened Sorting
  import opened OverlayModel
  import opened OverlayLaws

  /** `c` starts with everything `a` says, in `a`'s order. */
  predicate Contains(c: Node, a: Node)
    decreases a
  {
    !a.Mapping? || !c.Mapping?
    || (&& a.tag == c.tag && |a.entries| <= |c.entries|
        && forall i | 0 <= i < |a.entries| ::
             a.entries[i].key == c.entries[i].key && Contains(c.entries[i].value, a.entries[i].value))
  }

  lemma PrefixKeys(a: seq<Entry>, c: seq<Entry>)
    requires NoRepeats(KeysIn(a)) && NoRepeats(KeysIn(c))
    requires |a| <= |c| && KeysIn(a) == KeysIn(c)[..|a|]
    ensures KeysIn(MergeEntries(a, c)) == KeysIn(c)
  {
    MergeKeepsOrder(a, c);
    NewAfterPrefix(KeysIn(a), KeysIn(c), 0);
  }

  lemma {:induction false} NewAfterPrefix(prefix: seq<KeyId>, keys: seq<KeyId>, k: nat)
    requires NoRepeats(keys) && prefix <= keys && k <= |keys|
    ensures NewKeys(prefix, keys[k..]) == keys[if k < |prefix| then |prefix| else k..]
    decreases |keys| - k
  {
    if k < |keys| {
      assert keys[k..][1..] == keys[k + 1..];
      NewAfterPrefix(prefix, keys, k + 1);
      if k < |prefix| {
        assert prefix[k] == keys[k];
      } else {
        assert keys[k] !in prefix;
      }
    }
  }

  /** Merging `c` into `a` gives `c` back exactly when `c` contains `a`. */
  lemma {:induction false} ContainedMerge(a: Node, c: Node)
    requires Unique(a) && Unique(c)
    ensures Merge(a, c) == c <==> Contains(c, a)
    decreases a
  {
    if a.Mapping? && c.Mapping? {
      var m := MergeEntries(a.entries, c.entries);
      MergedKeys(a.entries, c.entries);
      MergeKeepsOrder(a.entries, c.entries);
      if Contains(c, a) {
        assert KeysIn(a.entries) == KeysIn(c.entries)[..|a.entries|];
        PrefixKeys(a.entries, c.entries);
        forall key | key in KeysIn(c.entries) ensures Get(m, key) == Get(c.entries, key) {
          ContainedAtKey(a, c, key);
        }
        EntriesAgree(m, c.entries);
      } else if m == c.entries && a.tag == c.tag {
        forall i | 0 <= i < |a.entries|
          ensures a.entries[i].key == c.entries[i].key && Contains(c.entries[i].value, a.entries[i].value)
        {
          assert KeysIn(m)[i] == KeysIn(a.entries)[i];
          GetAt(a.entries, i);
          GetAt(c.entries, i);
          MergeLookup(a.entries, c.entries, a.entries[i].key);
          ContainedMerge(a.entries[i].value, c.entries[i].value);
        }
      }
    }
  }

  lemma ContainedAtKey(a: Node, c: Node, key: KeyId)
    requires Unique(a) && Unique(c) && a.Mapping? && c.Mapping? && Contains(c, a)
    ensures Get(MergeEntries(a.entries, c.entries), key) == Get(c.entries, key)
    decreases a, 0
  {
    MergeLookup(a.entries, c.entries, key);
    var i := Find(a.entries, key);
    if i < |a.entries| {
      GetAt(c.entries, i);
      ContainedMerge(a.entries[i].value, c.entries[i].value);
    }
  }

  // Order of keys.

  lemma {:induction false} NewKeysConcat(keys: seq<KeyId>, xs: seq<KeyId>, ys: seq<KeyId>)
    ensures NewKeys(keys, xs + ys) == NewKeys(keys, xs) + NewKeys(keys, ys)
  {
    if xs == [] {
      assert xs + ys == ys;
    } else {
      assert (xs + ys)[1..] == xs[1..] + ys;
      NewKeysConcat(keys, xs[1..], ys);
    }
  }

  /** What neither of two lists has, filtered one by one or at once. */
  lemma {:induction false} NewKeysTwice(a: seq<KeyId>, b: seq<KeyId>, both: seq<KeyId>, c: seq<KeyId>)
    requires forall k :: k in both <==> k in a || k in b
    ensures NewKeys(a, NewKeys(b, c)) == NewKeys(both, c)
  {
    if c != [] {
      NewKeysTwice(a, b, both, c[1..]);
      if c[0] !in b {
        var rest := NewKeys(b, c[1..]);
        assert ([c[0]] + rest)[1..] == rest;
      }
    }
  }

  lemma LeftKeys(a: seq<Entry>, b: seq<Entry>, c: seq<Entry>)
    requires NoRepeats(KeysIn(a)) && NoRepeats(KeysIn(b)) && NoRepeats(KeysIn(c))
    ensures KeysIn(MergeEntries(MergeEntries(a, b), c))
            == KeysIn(a) + NewKeys(KeysIn(a), KeysIn(b)) + NewKeys(KeysIn(MergeEntries(a, b)), KeysIn(c))
  {
    MergeKeepsOrder(a, b);
    MergeKeepsOrder(MergeEntries(a, b), c);
  }

  lemma RightKeys(a: seq<Entry>, b: seq<Entry>, c: seq<Entry>)
    requires NoRepeats(KeysIn(a)) && NoRepeats(KeysIn(b)) && NoRepeats(KeysIn(c))
    ensures KeysIn(MergeEntries(a, MergeEntries(b, c)))
            == KeysIn(a) + (NewKeys(KeysIn(a), KeysIn(b)) + NewKeys(KeysIn(a), NewKeys(KeysIn(b), KeysIn(c))))
  {
    MergedKeys(b, c);
    MergeKeepsOrder(b, c);
    MergeKeepsOrder(a, MergeEntries(b, c));
    NewKeysConcat(KeysIn(a), KeysIn(b), NewKeys(KeysIn(b), KeysIn(c)));
  }

  lemma RegroupKeys(a: seq<KeyId>, b: seq<KeyId>, both: seq<KeyId>, c: seq<KeyId>)
    requires forall k :: k in both <==> k in a || k in b
    ensures a + NewKeys(a, b) + NewKeys(both, c) == a + (NewKeys(a, b) + NewKeys(a, NewKeys(b, c)))
  {
    NewKeysTwice(a, b, both, c);
  }

  /** Both groupings list the same keys in the same order, whatever the values. */
  lemma SameKeyOrder(a: seq<Entry>, b: seq<Entry>, c: seq<Entry>)
    requires NoRepeats(KeysIn(a)) && NoRepeats(KeysIn(b)) && NoRepeats(KeysIn(c))
    ensures KeysIn(MergeEntries(MergeEntries(a, b), c)) == KeysIn(MergeEntries(a, MergeEntries(b, c)))
  {
    var both := MergeEntries(a, b);
    LeftKeys(a, b, c);
    RightKeys(a, b, c);
    MergedKeys(a, b);
    RegroupKeys(KeysIn(a), KeysIn(b), KeysIn(both), KeysIn(c));
  }

  // Values.

  ghost predicate MappingAt(n: Node, path: seq<KeyId>) {
    At(n, path).Some? && At(n, path).value.Mapping?
  }

  /**
   * At this path a mapping is replaced by something else and then becomes a mapping again, without all
   * it had before.
   */
  ghost predicate LostAt(a: Node, b: Node, c: Node, path: seq<KeyId>) {
    && MappingAt(a, path) && At(b, path).Some? && !MappingAt(b, path) && MappingAt(c, path)
    && !Contains(At(c, path).value, At(a, path).value)
  }

  ghost predicate Loses(a: Node, b: Node, c: Node) {
    exists path :: LostAt(a, b, c, path)
  }

  lemma LosesBelow(a: Node, b: Node, c: Node, key: KeyId)
    requires a.Mapping? && b.Mapping? && c.Mapping?
    requires Get(a.entries, key).Some? && Get(b.entries, key).Some? && Get(c.entries, key).Some?
    requires Loses(Get(a.entries, key).value, Get(b.entries, key).value, Get(c.entries, key).value)
    ensures Loses(a, b, c)
  {
    var x, y, z := Get(a.entries, key).value, Get(b.entries, key).value, Get(c.entries, key).value;
    var path :| LostAt(x, y, z, path);
    assert ([key] + path)[1..] == path;
    assert LostAt(a, b, c, [key] + path);
  }

  lemma LosesAtSomeKey(a: Node, b: Node, c: Node) returns (key: KeyId)
    requires a.Mapping? && b.Mapping? && c.Mapping? && Loses(a, b, c)
    ensures Get(a.entries, key).Some? && Get(b.entries, key).Some? && Get(c.entries, key).Some?
    ensures Loses(Get(a.entries, key).value, Get(b.entries, key).value, Get(c.entries, key).value)
  {
    var path :| LostAt(a, b, c, path);
    key := path[0];
    assert LostAt(Get(a.entries, key).value, Get(b.entries, key).value, Get(c.entries, key).value, path[1..]);
  }

  lemma LosesAtTop(a: Node, b: Node, c: Node)
    requires !(a.Mapping? && b.Mapping? && c.Mapping?)
    ensures Loses(a, b, c) <==> a.Mapping? && !b.Mapping? && c.Mapping? && !Contains(c, a)
  {
    assert LostAt(a, b, c, []) <==> a.Mapping? && !b.Mapping? && c.Mapping? && !Contains(c, a);
  }

  ghost predicate Regroups(a: Node, b: Node, c: Node) {
    Merge(Merge(a, b), c) == Merge(a, Merge(b, c))
  }

  /** The two groupings give a key different values exactly when three values of it do. */
  lemma GroupsAtKey(a: seq<Entry>, b: seq<Entry>, c: seq<Entry>, key: KeyId)
    requires NoRepeats(KeysIn(a)) && NoRepeats(KeysIn(b)) && NoRepeats(KeysIn(c))
    ensures Get(MergeEntries(MergeEntries(a, b), c), key) == Get(MergeEntries(a, MergeEntries(b, c)), key)
            <==> (Get(a, key).Some? && Get(b, key).Some? && Get(c, key).Some?
                  ==> Regroups(Get(a, key).value, Get(b, key).value, Get(c, key).value))
  {
    MergedKeys(b, c);
    MergeLookup(a, b, key);
    MergeLookup(b, c, key);
    MergeLookup(MergeEntries(a, b), c, key);
    MergeLookup(a, MergeEntries(b, c), key);
  }

  /** At keys all three mappings have, the groupings agree. */
  ghost predicate RegroupsBelow(a: seq<Entry>, b: seq<Entry>, c: seq<Entry>) {
    forall key :: Get(a, key).Some? && Get(b, key).Some? && Get(c, key).Some?
      ==> Regroups(Get(a, key).value, Get(b, key).value, Get(c, key).value)
  }

  lemma RegroupsByKey(a: Node, b: Node, c: Node)
    requires a.Mapping? && b.Mapping? && c.Mapping? && Unique(a) && Unique(b) && Unique(c)
    ensures Regroups(a, b, c) <==> RegroupsBelow(a.entries, b.entries, c.entries)
  {
    var left := MergeEntries(MergeEntries(a.entries, b.entries), c.entries);
    var right := MergeEntries(a.entries, MergeEntries(b.entries, c.entries));
    SameKeyOrder(a.entries, b.entries, c.entries);
    MergedKeys(a.entries, b.entries);
    MergedKeys(MergeEntries(a.entries, b.entries), c.entries);
    forall key
      ensures Get(left, key) == Get(right, key)
              <==> (Get(a.entries, key).Some? && Get(b.entries, key).Some? && Get(c.entries, key).Some?
                    ==> Regroups(Get(a.entries, key).value, Get(b.entries, key).value, Get(c.entries, key).value))
    {
      GroupsAtKey(a.entries, b.entries, c.entries, key);
    }
    if RegroupsBelow(a.entries, b.entries, c.entries) {
      EntriesAgree(left, right);
    }
  }

  /**
   * Merging three documents gives the same result in either grouping, key order included, if and
   * only if nowhere a mapping is replaced by something else and then becomes a mapping that lacks
   * part of what it had.
   */
  lemma {:induction false} MergeAssociates(a: Node, b: Node, c: Node)
    requires Unique(a) && Unique(b) && Unique(c)
    ensures Merge(Merge(a, b), c) == Merge(a, Merge(b, c)) <==> !Loses(a, b, c)
    decreases a
  {
    if a.Mapping? && b.Mapping? && c.Mapping? {
      RegroupsByKey(a, b, c);
      forall key | Get(a.entries, key).Some? && Get(b.entries, key).Some? && Get(c.entries, key).Some?
        ensures Regroups(Get(a.entries, key).value, Get(b.entries, key).value, Get(c.entries, key).value)
                <==> !Loses(Get(a.entries, key).value, Get(b.entries, key).value, Get(c.entries, key).value)
      {
        ValuesAssociate(a.entries[Find(a.entries, key)], b.entries[Find(b.entries, key)].value,
                        c.entries[Find(c.entries, key)].value);
      }
      if Loses(a, b, c) {
        var key := LosesAtSomeKey(a, b, c);
      } else {
        forall key | Get(a.entries, key).Some? && Get(b.entries, key).Some? && Get(c.entries, key).Some?
          ensures !Loses(Get(a.entries, key).value, Get(b.entries, key).value, Get(c.entries, key).value)
        {
          if Loses(Get(a.entries, key).value, Get(b.entries, key).value, Get(c.entries, key).value) {
            LosesBelow(a, b, c, key);
          }
        }
      }
    } else {
      LosesAtTop(a, b, c);
      ContainedMerge(a, c);
    }
  }

  lemma ValuesAssociate(a: Entry, b: Node, c: Node)
    requires Unique(a.value) && Unique(b) && Unique(c)
    ensures Merge(Merge(a.value, b), c) == Merge(a.value, Merge(b, c)) <==> !Loses(a.value, b, c)
    decreases a
  {
    MergeAssociates(a.value, b, c);
  }
}
