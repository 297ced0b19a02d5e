/** Configuration documents and the overlay merge (internal/config/load.go:123-169). */
module OverlayModel {
  import opened Basics
  import opened Sorting

  /** What decides whether two mapping keys are the same: tag and value. */
  datatype KeyId = KeyId(tag: string, value: string)

  datatype Entry = Entry(key: KeyId, value: Node)

  datatype Node =
    | Scalar(tag: string, value: string)
    | Sequence(tag: string, items: seq<Node>)
    | Mapping(tag: string, entries: seq<Entry>)

  function KeysIn(es: seq<Entry>): seq<KeyId> {
    seq(|es|, i requires 0 <= i < |es| => es[i].key)
  }

  /** The position of a key's first entry, or the number of entries. */
  function Find(es: seq<Entry>, key: KeyId): (k: nat)
    ensures k <= |es|
    ensures k < |es| ==> es[k].key == key
    ensures forall i | 0 <= i < k :: es[i].key != key
  {
    if es == [] || es[0].key == key then 0 else 1 + Find(es[1..], key)
  }

  function Get(es: seq<Entry>, key: KeyId): Option<Node> {
    if Find(es, key) < |es| then Some(es[Find(es, key)].value) else None
  }

  function Merge(base: Node, overlay: Node): Node
    decreases overlay
  {
    if base.Mapping? && overlay.Mapping? then Mapping(base.tag, MergeEntries(base.entries, overlay.entries))
    else overlay
  }

  function MergeEntries(base: seq<Entry>, overlay: seq<Entry>): seq<Entry>
    decreases overlay
  {
    if overlay == [] then base else MergeEntries(MergeEntry(base, overlay[0]), overlay[1..])
  }

  function MergeEntry(base: seq<Entry>, e: Entry): seq<Entry>
    decreases e
  {
    var k := Find(base, e.key);
    if k == |base| then base + [e] else base[k := Entry(base[k].key, Merge(base[k].value, e.value))]
  }

  /** The documents of several files, merged in order into the first. */
  function MergeAll(trees: seq<Node>): Node
    requires trees != []
  {
    if |trees| == 1 then trees[0] else Merge(MergeAll(trees[..|trees| - 1]), trees[|trees| - 1])
  }

  /** No mapping at any depth repeats a key. */
  predicate Unique(n: Node) {
    match n
    case Scalar(_, _) => true
    case Sequence(_, items) => forall i | 0 <= i < |items| :: Unique(items[i])
    case Mapping(_, entries) => NoRepeats(KeysIn(entries)) && forall i | 0 <= i < |entries| :: Unique(entries[i].value)
  }
}
