/** What the overlay merge promises: which keys, in which order, with which values, and how merges compose. */
module OverlayLaws {
  import opened Basics
  import opened Sorting
  import opened OverlayModel

  lemma FindMisses(es: seq<Entry>, key: KeyId)
    ensures Find(es, key) == |es| <==> key !in KeysIn(es)
  {
    if Find(es, key) < |es| {
      assert KeysIn(es)[Find(es, key)] == key;
    }
  }

  lemma MergeEntryGets(base: seq<Entry>, e: Entry, key: KeyId)
    ensures Get(MergeEntry(base, e), key)
            == if key == e.key then Combined(Get(base, key), Some(e.value)) else Get(base, key)
    ensures KeysIn(MergeEntry(base, e)) == if e.key in KeysIn(base) then KeysIn(base) else KeysIn(base) + [e.key]
  {
    FindMisses(base, e.key);
    var next := MergeEntry(base, e);
    assert forall i | 0 <= i < |base| :: next[i].key == base[i].key;
    var k, n := Find(base, key), Find(next, key);
    assert k < |base| ==> n == k;
  }

  /** The value a merge gives a key: both values merged, or the only one there is. */
  function Combined(base: Option<Node>, overlay: Option<Node>): Option<Node> {
    if base.Some? && overlay.Some? then Some(Merge(base.value, overlay.value))
    else if overlay.Some? then overlay else base
  }

  /** The keys of `added` that `keys` lacks, in order. */
  function NewKeys(keys: seq<KeyId>, added: seq<KeyId>): seq<KeyId> {
    if added == [] then []
    else if added[0] in keys then NewKeys(keys, added[1..])
    else [added[0]] + NewKeys(keys, added[1..])
  }

  lemma {:induction false} NewKeysIgnore(keys: seq<KeyId>, key: KeyId, added: seq<KeyId>)
    requires key !in added
    ensures NewKeys(keys + [key], added) == NewKeys(keys, added)
  {
    if added != [] {
      NewKeysIgnore(keys, key, added[1..]);
    }
  }

  lemma KeysTail(es: seq<Entry>)
    requires es != []
    ensures KeysIn(es) == [es[0].key] + KeysIn(es[1..])
    ensures NoRepeats(KeysIn(es)) ==> NoRepeats(KeysIn(es[1..])) && es[0].key !in KeysIn(es[1..])
  {
    var ks := KeysIn(es);
    assert ks == [es[0].key] + KeysIn(es[1..]);
    assert ks[1..] == KeysIn(es[1..]);
    forall i | NoRepeats(ks) && 0 <= i < |es| - 1 ensures ks[1..][i] != ks[0] {
      assert ks[1..][i] == ks[i + 1];
    }
  }

  /** Base keys keep their places; the overlay's new keys follow in the overlay's order. */
  lemma {:induction false} MergeKeepsOrder(base: seq<Entry>, overlay: seq<Entry>)
    requires NoRepeats(KeysIn(overlay))
    ensures KeysIn(MergeEntries(base, overlay)) == KeysIn(base) + NewKeys(KeysIn(base), KeysIn(overlay))
    decreases overlay
  {
    if overlay != [] {
      var next := MergeEntry(base, overlay[0]);
      KeysTail(overlay);
      MergeEntryGets(base, overlay[0], overlay[0].key);
      MergeKeepsOrder(next, overlay[1..]);
      if overlay[0].key !in KeysIn(base) {
        NewKeysIgnore(KeysIn(base), overlay[0].key, KeysIn(overlay[1..]));
      }
    }
  }

  lemma GetTail(es: seq<Entry>, key: KeyId)
    requires es != []
    ensures Get(es, key) == if es[0].key == key then Some(es[0].value) else Get(es[1..], key)
  {
  }

  /** The lookup law: a key's merged value depends on that key's two values alone. */
  lemma {:induction false} MergeLookup(base: seq<Entry>, overlay: seq<Entry>, key: KeyId)
    requires NoRepeats(KeysIn(overlay))
    ensures Get(MergeEntries(base, overlay), key) == Combined(Get(base, key), Get(overlay, key))
    decreases overlay
  {
    if overlay != [] {
      var next := MergeEntry(base, overlay[0]);
      KeysTail(overlay);
      GetTail(overlay, key);
      FindMisses(overlay[1..], overlay[0].key);
      MergeEntryGets(base, overlay[0], key);
      MergeLookup(next, overlay[1..], key);
    }
  }

  lemma {:induction false} NewKeysMembers(keys: seq<KeyId>, added: seq<KeyId>)
    requires NoRepeats(added)
    ensures NoRepeats(NewKeys(keys, added))
    ensures forall k :: k in NewKeys(keys, added) <==> k in added && k !in keys
  {
    if added != [] {
      NewKeysMembers(keys, added[1..]);
      assert added == [added[0]] + added[1..];
      assert added[0] !in added[1..];
    }
  }

  lemma NoRepeatsConcat<T>(xs: seq<T>, ys: seq<T>)
    requires NoRepeats(xs) && NoRepeats(ys) && forall x | x in ys :: x !in xs
    ensures NoRepeats(xs + ys)
  {
    forall i, j | 0 <= i < j < |xs + ys| ensures (xs + ys)[i] != (xs + ys)[j] {
      if i < |xs| <= j {
        assert ys[j - |xs|] in ys;
      }
    }
  }

  lemma MergedKeys(base: seq<Entry>, overlay: seq<Entry>)
    requires NoRepeats(KeysIn(base)) && NoRepeats(KeysIn(overlay))
    ensures NoRepeats(KeysIn(MergeEntries(base, overlay)))
    ensures forall k :: k in KeysIn(MergeEntries(base, overlay)) <==> k in KeysIn(base) || k in KeysIn(overlay)
  {
    MergeKeepsOrder(base, overlay);
    NewKeysMembers(KeysIn(base), KeysIn(overlay));
    NoRepeatsConcat(KeysIn(base), NewKeys(KeysIn(base), KeysIn(overlay)));
  }

  /** With unique keys, an entry is what its key gives. */
  lemma GetAt(es: seq<Entry>, i: nat)
    requires NoRepeats(KeysIn(es)) && i < |es|
    ensures Get(es, es[i].key) == Some(es[i].value)
  {
    var k := Find(es, es[i].key);
    assert KeysIn(es)[k] == KeysIn(es)[i];
  }

  lemma EntriesAgree(a: seq<Entry>, b: seq<Entry>)
    requires KeysIn(a) == KeysIn(b) && NoRepeats(KeysIn(a))
    requires forall key | key in KeysIn(a) :: Get(a, key) == Get(b, key)
    ensures a == b
  {
    assert |a| == |KeysIn(a)| == |b|;
    forall i | 0 <= i < |a| ensures a[i] == b[i] {
      assert KeysIn(a)[i] == KeysIn(b)[i];
      GetAt(a, i);
      GetAt(b, i);
    }
  }

  /** Merging documents without repeated keys gives one without repeated keys. */
  lemma {:induction false} MergeStaysUnique(a: Node, b: Node)
    requires Unique(a) && Unique(b)
    ensures Unique(Merge(a, b))
    decreases b
  {
    if a.Mapping? && b.Mapping? {
      var m := MergeEntries(a.entries, b.entries);
      MergedKeys(a.entries, b.entries);
      forall i: nat | i < |m| ensures Unique(m[i].value) {
        GetAt(m, i);
        MergeLookup(a.entries, b.entries, m[i].key);
        var ka, kb := Find(a.entries, m[i].key), Find(b.entries, m[i].key);
        if ka < |a.entries| && kb < |b.entries| {
          MergeStaysUnique(a.entries[ka].value, b.entries[kb].value);
        }
      }
    }
  }

  /** Merging a document into itself changes nothing. */
  lemma {:induction false} MergeIdempotent(a: Node)
    requires Unique(a)
    ensures Merge(a, a) == a
    decreases a
  {
    if a.Mapping? {
      SameKeysAdded(a.entries, a.entries);
      forall key | key in KeysIn(a.entries)
        ensures Get(MergeEntries(a.entries, a.entries), key) == Get(a.entries, key)
      {
        MergeLookup(a.entries, a.entries, key);
        FindMisses(a.entries, key);
        MergeIdempotent(a.entries[Find(a.entries, key)].value);
      }
      EntriesAgree(MergeEntries(a.entries, a.entries), a.entries);
    }
  }

  lemma {:induction false} NothingNew(keys: seq<KeyId>, added: seq<KeyId>)
    requires forall k | k in added :: k in keys
    ensures NewKeys(keys, added) == []
  {
    if added != [] {
      NothingNew(keys, added[1..]);
    }
  }

  /** An overlay whose keys are all present leaves the keys as they are. */
  lemma SameKeysAdded(base: seq<Entry>, overlay: seq<Entry>)
    requires NoRepeats(KeysIn(overlay))
    requires forall k | k in KeysIn(overlay) :: k in KeysIn(base)
    ensures KeysIn(MergeEntries(base, overlay)) == KeysIn(base)
  {
    MergeKeepsOrder(base, overlay);
    NothingNew(KeysIn(base), KeysIn(overlay));
  }

  /** Applying the same overlay twice is applying it once. */
  lemma {:induction false} ReapplyChangesNothing(a: Node, b: Node)
    requires Unique(a) && Unique(b)
    ensures Merge(Merge(a, b), b) == Merge(a, b)
    decreases b
  {
    if !a.Mapping? || !b.Mapping? {
      MergeIdempotent(b);
    } else {
      var m := MergeEntries(a.entries, b.entries);
      MergedKeys(a.entries, b.entries);
      SameKeysAdded(m, b.entries);
      forall key | key in KeysIn(m) ensures Get(MergeEntries(m, b.entries), key) == Get(m, key) {
        ReapplyAtKey(a.entries, b.entries, key);
      }
      EntriesAgree(MergeEntries(m, b.entries), m);
    }
  }

  lemma {:induction false} ReapplyAtKey(a: seq<Entry>, b: seq<Entry>, key: KeyId)
    requires Unique(Mapping("", a)) && Unique(Mapping("", b))
    ensures Get(MergeEntries(MergeEntries(a, b), b), key) == Get(MergeEntries(a, b), key)
    decreases b, 0
  {
    MergeLookup(a, b, key);
    MergeLookup(MergeEntries(a, b), b, key);
    var ka, kb := Find(a, key), Find(b, key);
    if kb < |b| {
      if ka < |a| {
        ReapplyEntry(a[ka], b[kb]);
      } else {
        MergeIdempotent(b[kb].value);
      }
    }
  }

  lemma ReapplyEntry(a: Entry, b: Entry)
    requires Unique(a.value) && Unique(b.value)
    ensures Merge(Merge(a.value, b.value), b.value) == Merge(a.value, b.value)
    decreases b
  {
    ReapplyChangesNothing(a.value, b.value);
  }

  // Paths.

  /** The node a path of keys leads to. */
  function At(n: Node, path: seq<KeyId>): Option<Node>
    decreases |path|
  {
    if path == [] then Some(n)
    else if !n.Mapping? then None
    else match Get(n.entries, path[0])
      case None => None
      case Some(v) => At(v, path[1..])
  }

  /** Along the path the overlay puts something that is not a mapping. */
  ghost predicate Blocks(overlay: Node, path: seq<KeyId>) {
    exists i | 0 <= i < |path| :: At(overlay, path[..i]).Some? && !At(overlay, path[..i]).value.Mapping?
  }

  lemma BlocksStep(overlay: Node, path: seq<KeyId>)
    requires path != [] && overlay.Mapping?
    ensures Blocks(overlay, path) <==>
              Get(overlay.entries, path[0]).Some? && Blocks(Get(overlay.entries, path[0]).value, path[1..])
  {
    if Get(overlay.entries, path[0]).Some? {
      var v := Get(overlay.entries, path[0]).value;
      forall i | 0 < i < |path| ensures At(overlay, path[..i]) == At(v, path[1..][..i - 1]) {
        assert path[..i][1..] == path[1..][..i - 1];
      }
      if Blocks(v, path[1..]) {
        var i :| 0 <= i < |path[1..]| && At(v, path[1..][..i]).Some? && !At(v, path[1..][..i]).value.Mapping?;
        assert At(overlay, path[..i + 1]) == At(v, path[1..][..i + 1 - 1]);
      }
    }
  }

  /**
   * What a merge holds at a path, whatever the path: both values merged where both documents have
   * one, the overlay's where only it has one, and otherwise the base's unless the overlay has put
   * something other than a mapping on the way there.
   */
  lemma {:induction false} MergeAtPath(a: Node, b: Node, path: seq<KeyId>)
    requires Unique(a) && Unique(b)
    ensures At(Merge(a, b), path)
            == if At(b, path).Some? then Combined(At(a, path), At(b, path))
               else if Blocks(b, path) then None
               else At(a, path)
    decreases |path|
  {
    if path != [] {
      if a.Mapping? && b.Mapping? {
        var key := path[0];
        MergeLookup(a.entries, b.entries, key);
        BlocksStep(b, path);
        var ka, kb := Find(a.entries, key), Find(b.entries, key);
        if ka < |a.entries| && kb < |b.entries| {
          MergeAtPath(a.entries[ka].value, b.entries[kb].value, path[1..]);
        }
      } else if !b.Mapping? {
        assert At(b, path[..0]) == Some(b);
      }
    }
  }

  lemma {:induction false} MergeAllStaysUnique(trees: seq<Node>)
    requires trees != [] && forall t | t in trees :: Unique(t)
    ensures Unique(MergeAll(trees))
  {
    if |trees| > 1 {
      MergeAllStaysUnique(trees[..|trees| - 1]);
      MergeStaysUnique(MergeAll(trees[..|trees| - 1]), trees[|trees| - 1]);
    }
  }

  /** A setting that is not a mapping comes from the last file that says anything about its path. */
  lemma {:induction false} LastFileWins(trees: seq<Node>, path: seq<KeyId>, k: nat)
    requires forall t | t in trees :: Unique(t)
    requires k < |trees| && At(trees[k], path).Some? && !At(trees[k], path).value.Mapping?
    requires forall j | k < j < |trees| :: At(trees[j], path).None? && !Blocks(trees[j], path)
    ensures At(MergeAll(trees), path) == At(trees[k], path)
  {
    var last := trees[|trees| - 1];
    if |trees| > 1 {
      var front := trees[..|trees| - 1];
      MergeAllStaysUnique(front);
      MergeAtPath(MergeAll(front), last, path);
      if k < |front| {
        LastFileWins(front, path, k);
      }
    }
  }
}
