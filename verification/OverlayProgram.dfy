/** The overlay merge in place, on document nodes that share structure (internal/config/load.go:23-42, 123-169). */
module OverlayProgram {
  import opened Sorting
  import opened OverlayModel
  import opened OverlayLaws

  datatype Kind = ScalarNode | SequenceNode | MappingNode

  lemma StillApart<T>(a: set<T>, b: set<T>, grown: set<T>, all: set<T>, more: set<T>)
    requires a <= all && a !! b && grown <= b + more && more !! all
    ensures a !! grown
  {
  }

  /** A document node. A mapping's content alternates keys and values. */
  class YamlNode {
    var kind: Kind
    var tag: string
    var value: string
    var content: seq<YamlNode>
    /** This node and all nodes below it. */
    ghost var repr: set<YamlNode>
    /** The document this node stands for. */
    ghost var tree: Node

    /** Nodes below are shared neither with each other nor with this one, and `tree` is what they spell. */
    ghost predicate Valid()
      reads this, repr
      decreases repr
    {
      && this in repr
      && (forall i | 0 <= i < |content| ::
            content[i] in repr && content[i].repr <= repr && this !in content[i].repr && content[i].Valid())
      && (forall i, j | 0 <= i < j < |content| :: content[i].repr !! content[j].repr)
      && Spells()
    }

    /** The entry children 2i and 2i+1 spell. */
    ghost function Pair(i: nat): Entry
      requires 2 * i + 1 < |content|
      reads this, content
    {
      Entry(KeyId(content[2 * i].tag, content[2 * i].value), content[2 * i + 1].tree)
    }

    ghost predicate Spells()
      reads this, content
    {
      match kind
      case ScalarNode => tree == Scalar(tag, value)
      case SequenceNode =>
        && tree.Sequence? && tree.tag == tag && |tree.items| == |content|
        && forall i | 0 <= i < |content| :: tree.items[i] == content[i].tree
      case MappingNode =>
        && tree.Mapping? && tree.tag == tag && 2 * |tree.entries| == |content|
        && forall i | 0 <= i < |tree.entries| :: tree.entries[i] == Pair(i)
    }
  }

  /** The value under the first key with the same tag and value; the number of entries if there is none. */
  method MappingValue(mapping: YamlNode, key: YamlNode) returns (k: nat)
    requires mapping.Valid() && mapping.kind == MappingNode
    ensures k == Find(mapping.tree.entries, KeyId(key.tag, key.value))
  {
    k := 0;
    var id := KeyId(key.tag, key.value);
    while 2 * k < |mapping.content|
      invariant 2 * k <= |mapping.content|
      invariant forall i | 0 <= i < k :: mapping.tree.entries[i].key != id
    {
      var candidate := mapping.content[2 * k];
      assert mapping.tree.entries[k].key == KeyId(candidate.tag, candidate.value);
      if candidate.tag == key.tag && candidate.value == key.value {
        return;
      }
      k := k + 1;
    }
  }

  method AppendEntry(base: YamlNode, key: YamlNode, value: YamlNode)
    requires base.Valid() && key.Valid() && value.Valid() && base.kind == MappingNode
    requires base.repr !! key.repr && base.repr !! value.repr && key.repr !! value.repr
    modifies base
    ensures base.Valid() && base.kind == MappingNode
    ensures base.content == old(base.content) + [key, value] && base.repr == old(base.repr) + key.repr + value.repr
    ensures base.tree
            == Mapping(old(base.tree).tag, old(base.tree).entries + [Entry(KeyId(key.tag, key.value), value.tree)])
  {
    base.content := base.content + [key, value];
    base.repr := base.repr + key.repr + value.repr;
    base.tree := Mapping(base.tree.tag, base.tree.entries + [Entry(KeyId(key.tag, key.value), value.tree)]);
  }

  /** Anything that is not two mappings: the base becomes a copy of the overlay, sharing its children. */
  method Replace(base: YamlNode, overlay: YamlNode)
    requires base.Valid() && overlay.Valid() && base.repr !! overlay.repr
    modifies base
    ensures base.Valid() && base.tree == overlay.tree && base.repr <= old(base.repr) + overlay.repr
  {
    base.kind, base.tag, base.value, base.content := overlay.kind, overlay.tag, overlay.value, overlay.content;
    base.repr := {base} + (overlay.repr - {overlay});
    base.tree := overlay.tree;
  }

  /** Merging below one value leaves every other child as it was. */
  method MergeChild(base: YamlNode, k: nat, value: YamlNode, ghost start: seq<Entry>, ghost was: seq<set<YamlNode>>)
    requires base.Valid() && value.Valid() && base.kind == MappingNode && base.tree.entries == start && k < |start|
    requires base.repr !! value.repr && Unique(value.tree)
    requires |was| == |base.content| && forall i | 0 <= i < |was| :: was[i] == base.content[i].repr
    modifies base.content[2 * k + 1].repr
    ensures forall i | 0 <= i < |was| :: base.content[i].Valid() && (i != 2 * k + 1 ==> base.content[i].repr == was[i])
    ensures base.content[2 * k + 1].repr <= was[2 * k + 1] + value.repr
    ensures forall i | 0 <= i < |start| && i != k :: start[i] == base.Pair(i)
    ensures base.Pair(k) == Merged(start[k], old(value.tree))
    decreases value.repr, 3
  {
    var child := base.content[2 * k + 1];
    assert forall i | 0 <= i < |start| :: start[i] == base.Pair(i);
    MergeNode(child, value);
    forall i | 0 <= i < |was| && i != 2 * k + 1 ensures base.content[i].Valid() && unchanged(base.content[i]) {
      assert old(base.content[i].Valid()) && old(base.content[i].repr) !! old(child.repr);
    }
  }

  /** Merges `value` into the value of entry `k`, which nothing else in `base` shares. */
  method MergeInto(base: YamlNode, k: nat, value: YamlNode)
    requires base.Valid() && value.Valid() && base.kind == MappingNode && k < |base.tree.entries|
    requires base.repr !! value.repr && Unique(value.tree)
    modifies base, base.content[2 * k + 1].repr
    ensures base.Valid() && base.kind == MappingNode && base.content == old(base.content)
    ensures base.repr == old(base.repr) + value.repr
    ensures base.tree
            == Mapping(old(base.tree).tag, old(base.tree).entries[k := Merged(old(base.tree).entries[k], value.tree)])
    ensures forall i | 0 <= i < |base.content| && i != 2 * k + 1 :: base.content[i].repr == old(base.content[i].repr)
    decreases value.repr, 4
  {
    var nodes := base.content;
    ghost var start, all := base.tree.entries, base.repr;
    ghost var was := seq(|nodes|, i requires 0 <= i < |nodes| reads nodes => nodes[i].repr);
    MergeChild(base, k, value, start, was);
    Graft(base, k, start, was, all, value.repr);
  }

  /** The base takes over the nodes that came in below one of its values, and spells what it then holds. */
  ghost method Graft(base: YamlNode, k: nat, start: seq<Entry>, was: seq<set<YamlNode>>, all: set<YamlNode>,
          more: set<YamlNode>)
    requires base.kind == MappingNode && base.repr == all && base.tree == Mapping(base.tag, start)
    requires more !! all && base in all && k < |start| && 2 * |start| == |base.content| == |was|
    requires forall i | 0 <= i < |was| :: base.content[i] in all && base !in was[i] && was[i] <= all
    requires forall i, j | 0 <= i < j < |was| :: was[i] !! was[j]
    requires forall i | 0 <= i < |was| :: base.content[i].Valid() && (i != 2 * k + 1 ==> base.content[i].repr == was[i])
    requires base.content[2 * k + 1].repr <= was[2 * k + 1] + more
    requires forall i | 0 <= i < |start| && i != k :: start[i] == base.Pair(i)
    requires start[k].key == base.Pair(k).key
    modifies base`repr, base`tree
    ensures base.Valid() && base.repr == all + more
    ensures base.tree == Mapping(base.tag, start[k := base.Pair(k)])
  {
    assert forall i | 0 <= i < |was| :: base !in base.content[i].repr;
    base.repr := all + more;
    base.tree := Mapping(base.tag, start[k := base.Pair(k)]);
    Reassembled(base, 2 * k + 1, was, all, more);
  }

  lemma Reassembled(base: YamlNode, c: nat, was: seq<set<YamlNode>>, all: set<YamlNode>, more: set<YamlNode>)
    requires base.repr == all + more && more !! all && base in all && c < |base.content| == |was|
    requires forall i | 0 <= i < |was| :: base.content[i] in all && base !in was[i] && was[i] <= all
    requires forall i, j | 0 <= i < j < |was| :: was[i] !! was[j]
    requires forall i | 0 <= i < |was| :: base.content[i].Valid() && (i != c ==> base.content[i].repr == was[i])
    requires base.content[c].repr <= was[c] + more
    requires base.Spells()
    ensures base.Valid()
  {
    forall i | 0 <= i < |was| && i != c ensures base.content[i].repr !! base.content[c].repr {
      assert was[i] !! was[c];
      StillApart(was[i], was[c], base.content[c].repr, all, more);
    }
  }

  function Merged(e: Entry, overlay: Node): Entry {
    Entry(e.key, Merge(e.value, overlay))
  }

  /** Base entries whose key is still to come have not been merged yet. */
  ghost predicate Untouched(base: YamlNode, coming: seq<KeyId>, footprint: set<YamlNode>)
    reads base, base.content
    requires base.tree.Mapping? && |base.content| == 2 * |base.tree.entries|
  {
    forall i | 0 <= i < |base.tree.entries| && base.tree.entries[i].key in coming ::
      base.content[2 * i + 1].repr <= footprint
  }

  /** Brings one entry of an overlay into the base: below its key if the base has it, else at the end. */
  method MergeStep(base: YamlNode, key: YamlNode, value: YamlNode, ghost coming: seq<KeyId>,
          ghost footprint: set<YamlNode>)
    requires base.Valid() && base.kind == MappingNode && base in footprint
    requires key.Valid() && value.Valid() && Unique(value.tree)
    requires base.repr !! key.repr && base.repr !! value.repr && key.repr !! value.repr
    requires footprint !! key.repr && footprint !! value.repr
    requires Untouched(base, [KeyId(key.tag, key.value)] + coming, footprint) && KeyId(key.tag, key.value) !in coming
    modifies footprint
    ensures base.Valid() && base.kind == MappingNode
    ensures base.tree
            == Mapping(old(base.tree).tag,
                       MergeEntry(old(base.tree).entries, Entry(KeyId(key.tag, key.value), value.tree)))
    ensures base.repr <= old(base.repr) + key.repr + value.repr
    ensures Untouched(base, coming, footprint)
    decreases value.repr, 5
  {
    var k := MappingValue(base, key);
    if 2 * k == |base.content| {
      AppendEntry(base, key, value);
    } else {
      assert base.content[2 * k + 1].repr <= footprint;
      MergeInto(base, k, value);
    }
  }

  /** The overlay's children from `from` on are not shared with `nodes`. */
  ghost predicate Ahead(nodes: set<YamlNode>, overlay: YamlNode, from: nat)
    reads overlay, overlay.content
  {
    forall j | from <= j < |overlay.content| :: nodes !! overlay.content[j].repr
  }

  lemma StaysAhead(before: set<YamlNode>, after: set<YamlNode>, overlay: YamlNode, c: nat)
    requires overlay.Valid() && c + 1 < |overlay.content| && Ahead(before, overlay, c)
    requires after <= before + overlay.content[c].repr + overlay.content[c + 1].repr
    ensures Ahead(after, overlay, c + 2)
  {
    forall j | c + 2 <= j < |overlay.content| ensures after !! overlay.content[j].repr {
      assert overlay.content[c].repr !! overlay.content[j].repr
             && overlay.content[c + 1].repr !! overlay.content[j].repr;
    }
  }

  /** Where the loop stands before the overlay's entry `index`. */
  ghost predicate Merging(base: YamlNode, overlay: YamlNode, index: nat, goal: Node, footprint: set<YamlNode>)
    reads base, base.repr, overlay, overlay.repr
  {
    && base.Valid() && overlay.Valid() && base.kind == overlay.kind == MappingNode && 2 * index <= |overlay.content|
    && Unique(overlay.tree) && base in footprint && footprint !! overlay.repr && base.repr <= footprint + overlay.repr
    && Ahead(base.repr, overlay, 2 * index) && Untouched(base, KeysIn(overlay.tree.entries[index..]), footprint)
    && goal == Mapping(base.tree.tag, MergeEntries(base.tree.entries, overlay.tree.entries[index..]))
  }

  /** One pass of the loop over the overlay's entries. */
  method MergeNext(base: YamlNode, overlay: YamlNode, index: nat, ghost goal: Node, ghost footprint: set<YamlNode>)
    requires Merging(base, overlay, index, goal, footprint) && 2 * index < |overlay.content|
    modifies footprint
    ensures Merging(base, overlay, index + 1, goal, footprint)
    ensures unchanged(overlay)
    decreases overlay.repr, 0
  {
    var key, value := overlay.content[2 * index], overlay.content[2 * index + 1];
    ghost var entries, before := overlay.tree.entries, base.repr;
    KeysTail(entries[index..]);
    assert entries[index..][1..] == entries[index + 1..];
    TailUnique(entries, index);
    assert key.repr !! value.repr;
    assert entries[index] == overlay.Pair(index);
    MergeStep(base, key, value, KeysIn(entries[index + 1..]), footprint);
    assert overlay.Valid();
    StaysAhead(before, base.repr, overlay, 2 * index);
  }

  lemma TailUnique(es: seq<Entry>, k: nat)
    requires NoRepeats(KeysIn(es)) && k <= |es|
    ensures NoRepeats(KeysIn(es[k..]))
  {
    assert KeysIn(es[k..]) == KeysIn(es)[k..];
  }

  /** Merges the overlay into the base in place; the overlay's own nodes are left as they are. */
  method MergeNode(base: YamlNode, overlay: YamlNode)
    requires base.Valid() && overlay.Valid() && base.repr !! overlay.repr && Unique(overlay.tree)
    modifies base.repr
    ensures base.Valid() && base.tree == Merge(old(base.tree), old(overlay.tree))
    ensures base.repr <= old(base.repr) + overlay.repr
    decreases overlay.repr, 2
  {
    if base.kind != MappingNode || overlay.kind != MappingNode {
      Replace(base, overlay);
      return;
    }
    MergeMappings(base, overlay);
  }

  method MergeMappings(base: YamlNode, overlay: YamlNode)
    requires base.Valid() && overlay.Valid() && base.repr !! overlay.repr && Unique(overlay.tree)
    requires base.kind == overlay.kind == MappingNode
    modifies base.repr
    ensures base.Valid() && base.tree == Merge(old(base.tree), old(overlay.tree))
    ensures base.repr <= old(base.repr) + overlay.repr
    decreases overlay.repr, 1
  {
    ghost var footprint, goal := base.repr, Merge(base.tree, overlay.tree);
    assert overlay.tree.entries[0..] == overlay.tree.entries;
    var index := 0;
    while 2 * index < |overlay.content|
      invariant Merging(base, overlay, index, goal, footprint) && unchanged(overlay)
      decreases |overlay.content| - 2 * index
    {
      MergeNext(base, overlay, index, goal, footprint);
      index := index + 1;
    }
  }

  // Reading documents.

  function Identity(tag: string, value: string): string {
    tag + "\0" + value
  }

  /** A mapping at or below the node has two keys of the same identity. */
  ghost predicate Duplicated(node: YamlNode)
    requires node.Valid()
    reads node, node.repr
    decreases node.repr
  {
    || (node.kind == MappingNode && RepeatsKey(node))
    || exists i :: 0 <= i < |node.content| && Duplicated(node.content[i])
  }

  function KeyIdentity(node: YamlNode, i: nat): string
    requires 2 * i < |node.content|
    reads node, node.content
  {
    Identity(node.content[2 * i].tag, node.content[2 * i].value)
  }

  ghost predicate RepeatsKey(node: YamlNode)
    reads node, node.content
  {
    exists i, j :: 0 <= i < j && 2 * j < |node.content| && KeyIdentity(node, i) == KeyIdentity(node, j)
  }

  method KeysRepeat(node: YamlNode) returns (repeated: bool)
    requires node.Valid() && node.kind == MappingNode
    ensures repeated <==> RepeatsKey(node)
  {
    var seen: set<string> := {};
    var index := 0;
    while 2 * index < |node.content|
      invariant 2 * index <= |node.content|
      invariant seen == set i | 0 <= i < index :: KeyIdentity(node, i)
      invariant forall i, j | 0 <= i < j < index :: KeyIdentity(node, i) != KeyIdentity(node, j)
    {
      var identity := KeyIdentity(node, index);
      if identity in seen {
        return true;
      }
      seen := seen + {identity};
      index := index + 1;
    }
    repeated := false;
  }

  method RejectDuplicateKeys(node: YamlNode) returns (ok: bool)
    requires node.Valid()
    ensures ok <==> !Duplicated(node)
    decreases node.repr, 1
  {
    if node.kind == MappingNode {
      var repeated := KeysRepeat(node);
      if repeated {
        return false;
      }
    }
    ok := RejectBelow(node);
  }

  method RejectBelow(node: YamlNode) returns (ok: bool)
    requires node.Valid()
    ensures ok <==> forall i | 0 <= i < |node.content| :: !Duplicated(node.content[i])
    decreases node.repr, 0
  {
    ok := true;
    for index := 0 to |node.content|
      invariant ok && forall i | 0 <= i < index :: !Duplicated(node.content[i])
    {
      ok := RejectDuplicateKeys(node.content[index]);
      if !ok {
        return;
      }
    }
  }

  /** A document that was not rejected repeats no key at any depth. */
  lemma {:induction false} AcceptedIsUnique(node: YamlNode)
    requires node.Valid() && !Duplicated(node)
    ensures Unique(node.tree)
    decreases node.repr
  {
    match node.kind
    case ScalarNode =>
    case SequenceNode =>
      forall i | 0 <= i < |node.content| ensures Unique(node.tree.items[i]) {
        AcceptedIsUnique(node.content[i]);
      }
    case MappingNode =>
      var entries := node.tree.entries;
      forall i | 0 <= i < |entries| ensures Unique(entries[i].value) {
        AcceptedIsUnique(node.content[2 * i + 1]);
        assert entries[i] == node.Pair(i);
      }
      forall i, j | 0 <= i < j < |entries| ensures KeysIn(entries)[i] != KeysIn(entries)[j] {
        assert entries[i] == node.Pair(i) && entries[j] == node.Pair(j);
        assert KeyIdentity(node, i) != KeyIdentity(node, j);
      }
  }

  lemma SeparatorAt(tag: string, value: string)
    requires '\0' !in tag
    ensures |tag| < |Identity(tag, value)| && Identity(tag, value)[|tag|] == '\0'
    ensures forall i | 0 <= i < |tag| :: Identity(tag, value)[i] != '\0'
    ensures Identity(tag, value)[..|tag|] == tag && Identity(tag, value)[|tag| + 1..] == value
  {
  }

  /** Identities tell keys apart as long as no tag holds the separator. */
  lemma IdentityTells(tag: string, value: string, otherTag: string, otherValue: string)
    requires '\0' !in tag && '\0' !in otherTag && Identity(tag, value) == Identity(otherTag, otherValue)
    ensures tag == otherTag && value == otherValue
  {
    SeparatorAt(tag, value);
    SeparatorAt(otherTag, otherValue);
  }

  ghost predicate Readable(node: YamlNode)
    requires node.Valid()
    reads node, node.repr
  {
    node.kind == MappingNode && !Duplicated(node)
  }

  /** The files from `from` on are as they were read, and share no node with each other or with `taken`. */
  ghost predicate Waiting(files: seq<YamlNode>, trees: seq<Node>, readable: seq<bool>, from: nat, taken: set<YamlNode>)
    requires |files| == |trees| == |readable|
    reads files, set i, n | 0 <= i < |files| && n in files[i].repr :: n
  {
    && (forall j | from <= j < |files| :: AsRead(files[j], trees[j], readable[j]) && taken !! files[j].repr)
    && (forall i, j | from <= i < j < |files| :: files[i].repr !! files[j].repr)
  }

  ghost predicate AsRead(file: YamlNode, tree: Node, readable: bool)
    reads file, file.repr
  {
    file.Valid() && file.tree == tree && Readable(file) == readable
  }

  method MergeFile(document: YamlNode, files: seq<YamlNode>, ghost trees: seq<Node>, ghost readable: seq<bool>,
          index: nat)
    requires |files| == |trees| == |readable| && index < |files| && readable[index]
    requires document.Valid() && Waiting(files, trees, readable, index, document.repr)
    modifies document.repr
    ensures document.Valid() && document.tree == Merge(old(document.tree), trees[index])
    ensures document.repr <= old(document.repr) + old(files[index].repr)
    ensures Waiting(files, trees, readable, index + 1, document.repr)
  {
    AcceptedIsUnique(files[index]);
    MergeNode(document, files[index]);
    forall j | index < j < |files| ensures AsRead(files[j], trees[j], readable[j]) && unchanged(files[j]) {
      assert old(AsRead(files[j], trees[j], readable[j])) && old(document.repr) !! old(files[j].repr);
    }
  }

  lemma MergeOneMore(trees: seq<Node>, index: nat)
    requires 0 < index < |trees|
    ensures MergeAll(trees[..index + 1]) == Merge(MergeAll(trees[..index]), trees[index])
  {
    assert trees[..index + 1][..index] == trees[..index];
  }

  /** Merges the documents of all files into the first, in order; null stands for a file that is refused. */
  method LoadDocuments(files: seq<YamlNode>, ghost trees: seq<Node>, ghost readable: seq<bool>,
          ghost all: set<YamlNode>)
    returns (document: YamlNode?)
    requires |files| == |trees| == |readable| && Waiting(files, trees, readable, 0, {})
    requires forall i | 0 <= i < |files| :: files[i].repr <= all
    modifies all
    ensures document != null <==> files != [] && false !in readable
    ensures document != null ==> document.Valid() && document.tree == MergeAll(trees)
  {
    if |files| == 0 {
      return null;
    }
    var first := ReadFile(files[0], trees[0], readable[0]);
    if !first {
      return null;
    }
    document := files[0];
    assert trees[..1] == [trees[0]];
    for index := 1 to |files|
      invariant false !in readable[..index]
      invariant document != null && document.Valid() && document.tree == MergeAll(trees[..index])
      invariant document.repr <= all
      invariant Waiting(files, trees, readable, index, document.repr)
      invariant forall j | index <= j < |files| :: files[j].repr <= all
    {
      var ok := ReadFile(files[index], trees[index], readable[index]);
      if !ok {
        return null;
      }
      MergeOneMore(trees, index);
      MergeFile(document, files, trees, readable, index);
    }
    assert trees[..|files|] == trees && readable[..|files|] == readable;
  }

  method ReadFile(file: YamlNode, ghost tree: Node, ghost readable: bool) returns (ok: bool)
    requires AsRead(file, tree, readable)
    ensures ok == readable
  {
    ok := RejectDuplicateKeys(file);
    ok := ok && file.kind == MappingNode;
  }
}
