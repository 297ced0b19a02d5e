/** Group aliases and user lookup in the directory (internal/provider/microsoft/entra.go). */
module AliasModel {
  import opened Basics
  import opened Sorting

  const LIMIT := 20

  /** Repeats allowed, never descending. */
  ghost predicate Sorted(xs: seq<string>) {
    forall i, j | 0 <= i < j < |xs| :: !Below(xs[j], xs[i])
  }

  lemma BelowSteps(a: string, b: string, c: string)
    requires !Below(b, a) && !Below(c, b)
    ensures !Below(c, a)
  {
    CompareFlips(a, b);
    CompareFlips(b, c);
    CompareFlips(a, c);
    if Below(c, a) && Below(a, b) {
      CompareTransitive(c, a, b);
    }
  }

  lemma SortedPrepend(x: string, xs: seq<string>)
    requires Sorted(xs) && forall y | y in xs :: !Below(y, x)
    ensures Sorted([x] + xs)
  {
  }

  lemma {:induction false} InsertStaysSorted(x: string, xs: seq<string>)
    requires Sorted(xs)
    ensures Sorted(Insert(x, xs, Below))
  {
    if xs == [] {
    } else if !Below(xs[0], x) {
      forall y | y in xs ensures !Below(y, x) {
        var j :| 0 <= j < |xs| && xs[j] == y;
        if j > 0 {
          BelowSteps(x, xs[0], y);
        }
      }
      SortedPrepend(x, xs);
    } else {
      InsertStaysSorted(x, xs[1..]);
      InsertMembers(x, xs[1..], Below);
      CompareFlips(xs[0], x);
      SortedPrepend(xs[0], Insert(x, xs[1..], Below));
    }
  }

  lemma {:induction false} SortIsSorted(xs: seq<string>)
    ensures Sorted(Sort(xs, Below))
  {
    if xs != [] {
      SortIsSorted(xs[1..]);
      InsertStaysSorted(xs[0], Sort(xs[1..], Below));
    }
  }

  /** slices.Compact: of adjacent equal strings only the first stays. */
  function Compact(xs: seq<string>): seq<string>
    decreases |xs|
  {
    if |xs| <= 1 then xs
    else if xs[0] == xs[1] then Compact([xs[0]] + xs[2..])
    else [xs[0]] + Compact(xs[1..])
  }

  lemma {:induction false} CompactKeeps(xs: seq<string>)
    ensures forall x :: x in Compact(xs) <==> x in xs
    ensures xs != [] ==> Compact(xs) != [] && Compact(xs)[0] == xs[0]
    decreases |xs|
  {
    if |xs| > 1 {
      if xs[0] == xs[1] {
        CompactKeeps([xs[0]] + xs[2..]);
        assert xs == [xs[0], xs[1]] + xs[2..];
      } else {
        CompactKeeps(xs[1..]);
        assert xs == [xs[0]] + xs[1..];
      }
    }
  }

  lemma {:induction false} CompactAscends(xs: seq<string>)
    requires Sorted(xs)
    ensures Ascending(Compact(xs), Below)
    decreases |xs|
  {
    if |xs| > 1 {
      if xs[0] == xs[1] {
        CompactAscends([xs[0]] + xs[2..]);
      } else {
        CompactAscends(xs[1..]);
        CompactKeeps(xs[1..]);
        forall y | y in xs[1..] ensures Below(xs[0], y) {
          var j :| 1 <= j < |xs| && xs[j] == y;
          CompareFlips(xs[0], xs[1]);
          if j > 1 {
            CompareFlips(y, xs[0]);
            BelowSteps(xs[0], xs[1], y);
            NotEqualAcross(xs[0], xs[1], y);
          }
        }
        AscendingPrepend(xs[0], Compact(xs[1..]), Below);
      }
    }
  }

  lemma NotEqualAcross(a: string, b: string, c: string)
    requires Below(a, b) && !Below(c, b)
    ensures a != c
  {
  }

  /** Sorting and compacting any arrangement of the same strings gives their ascending listing. */
  lemma CompactedSort(xs: seq<string>)
    ensures Compact(Sort(xs, Below)) == SortSet(Elements(xs), Below)
  {
    SortIsSorted(xs);
    CompactAscends(Sort(xs, Below));
    CompactKeeps(Sort(xs, Below));
    SortKeeps(xs, Below);
    MembersOf(Sort(xs, Below), xs);
    BelowLinear(Elements(xs));
    SortSetAscends(Elements(xs), Below);
    SortSetMembers(Elements(xs), Below);
    assert Elements(Compact(Sort(xs, Below))) == Elements(xs);
    forall a, b | Below(a, b) ensures !Below(b, a) {
      CompareFlips(a, b);
    }
    AscendingUnique(Compact(Sort(xs, Below)), SortSet(Elements(xs), Below), Below);
  }

  // The configured aliases: each names the groups that give it.

  type Aliases = map<string, seq<string>>

  function GroupIDsOf(config: Aliases): set<string> {
    set alias, id | alias in config && id in config[alias] :: id
  }

  function AliasesOf(config: Aliases, id: string): set<string> {
    set alias | alias in config && id in config[alias]
  }

  ghost function SortedGroups(config: Aliases): seq<string> {
    SortSet(GroupIDsOf(config), Below)
  }

  /** For every configured group, its aliases in order. */
  ghost function AliasIndex(config: Aliases): map<string, seq<string>> {
    map id | id in GroupIDsOf(config) :: SortSet(AliasesOf(config, id), Below)
  }

  ghost predicate Indexes(config: Aliases, groupIDs: seq<string>, aliasesByID: map<string, seq<string>>) {
    groupIDs == SortedGroups(config) && aliasesByID == AliasIndex(config)
  }

  lemma IndexesExactly(config: Aliases, groupIDs: seq<string>, aliasesByID: map<string, seq<string>>)
    requires groupIDs == SortedGroups(config) && aliasesByID.Keys == GroupIDsOf(config)
    requires forall id | id in aliasesByID :: aliasesByID[id] == SortSet(AliasesOf(config, id), Below)
    ensures Indexes(config, groupIDs, aliasesByID)
  {
  }

  // Requests.

  function Chunks(ids: seq<string>): seq<seq<string>>
    decreases |ids|
  {
    if ids == [] then []
    else if |ids| <= LIMIT then [ids]
    else [ids[..LIMIT]] + Chunks(ids[LIMIT..])
  }

  function Joined(chunks: seq<seq<string>>): seq<string> {
    if chunks == [] then [] else chunks[0] + Joined(chunks[1..])
  }

  /** The requests are non-empty, at most twenty groups each, and together list every group once, in order. */
  lemma {:induction false} ChunksPartition(ids: seq<string>)
    ensures Joined(Chunks(ids)) == ids
    ensures forall c | c in Chunks(ids) :: 0 < |c| <= 20
    ensures (|Chunks(ids)| - 1) * 20 < |ids| || ids == []
    decreases |ids|
  {
    if |ids| > LIMIT {
      ChunksPartition(ids[LIMIT..]);
      assert ids == ids[..LIMIT] + ids[LIMIT..];
      var rest := Chunks(ids[LIMIT..]);
      assert ([ids[..LIMIT]] + rest)[1..] == rest;
    } else if ids != [] {
      assert Joined([ids][1..]) == [];
    }
  }

  datatype GraphError = GraphError(status: Option<int>, text: string)

  /** What the directory sends back: what was asked for, nothing at all, or an error. */
  datatype Reply<+T> = Answered(value: T) | NoResponse | Refused(error: GraphError)

  /** Why a user could not be resolved. */
  datatype LookupFault = NoUser | MissingUserID | NoMemberships | Refusal(error: GraphError)

  /** The groups the directory reports when asked about some of them. */
  type Directory = seq<string> -> Reply<seq<string>>

  /** The aliases of the groups reported over the given requests. */
  function Reported(directory: Directory, chunks: seq<seq<string>>,
          aliasesByID: map<string, seq<string>>): set<string> {
    set c, id, alias | c in chunks && directory(c).Answered? && id in directory(c).value && id in aliasesByID
                       && alias in aliasesByID[id] :: alias
  }

  /** The fault of the first request that is not answered. */
  function FirstFault(directory: Directory, chunks: seq<seq<string>>): Option<LookupFault> {
    if chunks == [] then None
    else match directory(chunks[0])
      case Refused(error) => Some(Refusal(error))
      case NoResponse => Some(NoMemberships)
      case Answered(_) => FirstFault(directory, chunks[1..])
  }

  lemma {:induction false} FirstFaultExactly(directory: Directory, chunks: seq<seq<string>>)
    ensures FirstFault(directory, chunks) == None <==> forall c | c in chunks :: directory(c).Answered?
  {
    if chunks != [] {
      FirstFaultExactly(directory, chunks[1..]);
      assert chunks == [chunks[0]] + chunks[1..];
    }
  }

  lemma {:induction false} FirstFaultAfter(directory: Directory, before: seq<seq<string>>, rest: seq<seq<string>>)
    requires forall c | c in before :: directory(c).Answered?
    ensures FirstFault(directory, before + rest) == FirstFault(directory, rest)
  {
    if before == [] {
      assert before + rest == rest;
    } else {
      FirstFaultAfter(directory, before[1..], rest);
      assert (before + rest)[1..] == before[1..] + rest;
    }
  }

  /** The aliases a user has, as far as the directory tells. */
  ghost function AliasesFound(directory: Directory, userID: string, groupIDs: seq<string>,
          aliasesByID: map<string, seq<string>>): Result<seq<string>, LookupFault> {
    if groupIDs == [] then Ok([])
    else if userID == "" then Err(MissingUserID)
    else match FirstFault(directory, Chunks(groupIDs))
      case Some(fault) => Err(fault)
      case None => Ok(SortSet(Reported(directory, Chunks(groupIDs), aliasesByID), Below))
  }

  /** The directory reports exactly the user's groups among those asked about. */
  ghost predicate Honest(directory: Directory, ids: seq<string>, member: string -> bool) {
    forall c | c in Chunks(ids) ::
      directory(c).Answered? && forall id :: id in directory(c).value <==> id in c && member(id)
  }

  /** The aliases with at least one configured group the user belongs to. */
  function Held(config: Aliases, member: string -> bool): set<string> {
    set alias, id | alias in config && id in config[alias] && member(id) :: alias
  }

  lemma {:induction false} InSomeChunk(chunks: seq<seq<string>>, id: string)
    ensures id in Joined(chunks) <==> exists c :: c in chunks && id in c
  {
    if chunks != [] {
      InSomeChunk(chunks[1..], id);
      assert chunks == [chunks[0]] + chunks[1..];
    }
  }

  /** However the groups are cut into requests, an honest directory gives exactly the held aliases. */
  lemma ReportedIsHeld(config: Aliases, directory: Directory, groupIDs: seq<string>,
          aliasesByID: map<string, seq<string>>, member: string -> bool)
    requires Indexes(config, groupIDs, aliasesByID) && Honest(directory, groupIDs, member)
    ensures Reported(directory, Chunks(groupIDs), aliasesByID) == Held(config, member)
  {
    SortSetMembers(GroupIDsOf(config), Below);
    forall alias
      ensures alias in Reported(directory, Chunks(groupIDs), aliasesByID) <==> alias in Held(config, member)
    {
      if alias in Held(config, member) {
        var id :| alias in config && id in config[alias] && member(id);
        HeldIsReported(config, directory, groupIDs, aliasesByID, member, alias, id);
      }
      if alias in Reported(directory, Chunks(groupIDs), aliasesByID) {
        var c, id :| c in Chunks(groupIDs) && id in directory(c).value && id in aliasesByID && alias in aliasesByID[id];
        SortSetMembers(AliasesOf(config, id), Below);
        assert alias in Elements(aliasesByID[id]);
      }
    }
  }

  lemma HeldIsReported(config: Aliases, directory: Directory, groupIDs: seq<string>,
          aliasesByID: map<string, seq<string>>,
                       member: string -> bool, alias: string, id: string)
    requires Indexes(config, groupIDs, aliasesByID) && Honest(directory, groupIDs, member)
    requires alias in config && id in config[alias] && member(id)
    ensures alias in Reported(directory, Chunks(groupIDs), aliasesByID)
  {
    SortSetMembers(GroupIDsOf(config), Below);
    assert id in Elements(groupIDs);
    ChunksPartition(groupIDs);
    InSomeChunk(Chunks(groupIDs), id);
    var c :| c in Chunks(groupIDs) && id in c;
    SortSetMembers(AliasesOf(config, id), Below);
    assert alias in Elements(aliasesByID[id]);
  }

  /** Asked of an honest directory, what is found are the aliases held, in order and without repeats. */
  lemma FoundIsHeld(config: Aliases, directory: Directory, userID: string, member: string -> bool)
    requires userID != "" || GroupIDsOf(config) == {}
    requires Honest(directory, SortedGroups(config), member)
    ensures AliasesFound(directory, userID, SortedGroups(config), AliasIndex(config))
            == Ok(SortSet(Held(config, member), Below))
  {
    var groupIDs := SortedGroups(config);
    SortSetMembers(GroupIDsOf(config), Below);
    FirstFaultExactly(directory, Chunks(groupIDs));
    ReportedIsHeld(config, directory, groupIDs, AliasIndex(config), member);
    if groupIDs == [] {
      assert Reported(directory, [], AliasIndex(config)) == {};
      assert SortSet<string>({}, Below) == [];
    }
  }
}
