/** Group aliases: the loops of entra.go. */
module AliasProgram {
  import opened Basics
  import opened Sorting
  import opened AliasModel

  /** `more` is `index` with `alias` added to the entries of the groups in `ids`. */
  ghost predicate Added(alias: string, ids: seq<string>, index: map<string, seq<string>>,
          more: map<string, seq<string>>) {
    && more.Keys == index.Keys + Elements(ids)
    && forall id | id in more ::
         Elements(more[id]) == (if id in index then Elements(index[id]) else {}) + (if id in ids then {alias} else {})
  }

  lemma AddedMore(alias: string, ids: seq<string>, index: map<string, seq<string>>, more: map<string, seq<string>>,
          id: string)
    requires Added(alias, ids, index, more)
    ensures Added(alias, ids + [id], index, more[id := (if id in more then more[id] else []) + [alias]])
  {
    var listed := if id in more then more[id] else [];
    ElementsAppend(listed, alias);
    ElementsAppend(ids, id);
  }

  /** Appends `alias` to the entry of each of its groups, once for each time it names the group. */
  method AddAlias(alias: string, ids: seq<string>, index: map<string, seq<string>>)
      returns (more: map<string, seq<string>>)
    ensures more.Keys == index.Keys + Elements(ids)
    ensures forall id | id in more ::
              Elements(more[id])
              == (if id in index then Elements(index[id]) else {}) + (if id in ids then {alias} else {})
  {
    more := index;
    for k := 0 to |ids|
      invariant Added(alias, ids[..k], index, more)
    {
      var id := ids[k];
      assert ids[..k + 1] == ids[..k] + [id];
      AddedMore(alias, ids[..k], index, more, id);
      more := more[id := (if id in more then more[id] else []) + [alias]];
    }
    assert ids[..|ids|] == ids;
  }

  /** The aliases in `done` that name the group. */
  function Naming(config: Aliases, done: set<string>, id: string): set<string> {
    set alias | alias in done && alias in config && id in config[alias]
  }

  lemma NamingMore(config: Aliases, done: set<string>, alias: string, id: string)
    requires alias in config
    ensures Naming(config, done + {alias}, id) == Naming(config, done, id) + if id in config[alias] then {alias} else {}
  {
  }

  /** The groups named by the aliases in `done`, each with those aliases in any order. */
  ghost predicate Collected(config: Aliases, done: set<string>, index: map<string, seq<string>>) {
    && (forall id :: id in index <==> Naming(config, done, id) != {})
    && (forall id | id in index :: Elements(index[id]) == Naming(config, done, id))
  }

  lemma CollectedMore(config: Aliases, done: set<string>, index: map<string, seq<string>>, alias: string,
          more: map<string, seq<string>>)
    requires Collected(config, done, index) && alias in config
    requires more.Keys == index.Keys + Elements(config[alias])
    requires forall id | id in more ::
               Elements(more[id])
                 == (if id in index then Elements(index[id]) else {}) + (if id in config[alias] then {alias} else {})
    ensures Collected(config, done + {alias}, more)
  {
    forall id
      ensures id in more <==> Naming(config, done + {alias}, id) != {}
      ensures id in more ==> Elements(more[id]) == Naming(config, done + {alias}, id)
    {
      NamingMore(config, done, alias, id);
      assert id in more <==> id in index || id in config[alias];
    }
  }

  lemma CollectedAll(config: Aliases, index: map<string, seq<string>>)
    requires Collected(config, config.Keys, index)
    ensures index.Keys == GroupIDsOf(config)
    ensures forall id | id in index :: Elements(index[id]) == AliasesOf(config, id)
  {
    forall id
      ensures Naming(config, config.Keys, id) == AliasesOf(config, id)
      ensures id in GroupIDsOf(config) <==> AliasesOf(config, id) != {}
    {
      if id in GroupIDsOf(config) {
        var alias :| alias in config && id in config[alias];
        assert alias in AliasesOf(config, id);
      }
    }
  }

  method PrepareGroupAliases(config: Aliases) returns (groupIDs: seq<string>, aliasesByID: map<string, seq<string>>)
    ensures Indexes(config, groupIDs, aliasesByID)
  {
    var index: map<string, seq<string>> := map[];
    var pending := config.Keys;
    while pending != {}
      invariant pending <= config.Keys
      invariant Collected(config, config.Keys - pending, index)
      decreases |pending|
    {
      var alias :| alias in pending;
      var more := AddAlias(alias, config[alias], index);
      CollectedMore(config, config.Keys - pending, index, alias, more);
      assert config.Keys - (pending - {alias}) == config.Keys - pending + {alias};
      index := more;
      pending := pending - {alias};
    }
    assert config.Keys - {} == config.Keys;
    CollectedAll(config, index);
    aliasesByID := SortAliases(index);
    groupIDs := ListSet(index.Keys);
    SortedListing(groupIDs);
    groupIDs := Sort(groupIDs, Below);
    IndexesExactly(config, groupIDs, aliasesByID);
  }

  /** `listed` holds the members of `s`, once each. */
  ghost predicate Lists(listed: seq<string>, s: set<string>) {
    NoRepeats(listed) && Elements(listed) == s
  }

  lemma ListsMore(listed: seq<string>, s: set<string>, x: string)
    requires Lists(listed, s) && x !in s
    ensures Lists(listed + [x], s + {x})
  {
    assert x !in Elements(listed);
  }

  lemma ElementsAppend(xs: seq<string>, x: string)
    ensures Elements(xs + [x]) == Elements(xs) + {x}
  {
  }

  /** Groups no longer pending have their aliases in order. */
  ghost predicate SortedOutside(index: map<string, seq<string>>, sorted: map<string, seq<string>>,
          pending: set<string>) {
    && sorted.Keys == index.Keys
    && forall id | id in index :: sorted[id] == if id in pending then index[id] else SortSet(Elements(index[id]), Below)
  }

  lemma SortOne(index: map<string, seq<string>>, sorted: map<string, seq<string>>, pending: set<string>, id: string)
    requires SortedOutside(index, sorted, pending) && id in pending && id in index
    ensures SortedOutside(index, sorted[id := Compact(Sort(index[id], Below))], pending - {id})
  {
    CompactedSort(index[id]);
  }

  /** Sorts and compacts every group's aliases, in any order. */
  method SortAliases(index: map<string, seq<string>>) returns (sorted: map<string, seq<string>>)
    ensures sorted.Keys == index.Keys
    ensures forall id | id in index :: sorted[id] == SortSet(Elements(index[id]), Below)
  {
    sorted := index;
    var pending := index.Keys;
    while pending != {}
      invariant pending <= index.Keys && SortedOutside(index, sorted, pending)
      decreases |pending|
    {
      var id :| id in pending;
      SortOne(index, sorted, pending, id);
      sorted := sorted[id := Compact(Sort(sorted[id], Below))];
      pending := pending - {id};
    }
  }

  /** Listing a set in any order and sorting it gives its ascending listing. */
  lemma SortedListing(listed: seq<string>)
    requires NoRepeats(listed)
    ensures Sort(listed, Below) == SortSet(Elements(listed), Below)
  {
    BelowLinear(Elements(listed));
    SortAscends(listed, Below);
    MembersOf(Sort(listed, Below), listed);
    SortSetAscends(Elements(listed), Below);
    SortSetMembers(Elements(listed), Below);
    forall a, b | Below(a, b) ensures !Below(b, a) {
      CompareFlips(a, b);
    }
    AscendingUnique(Sort(listed, Below), SortSet(Elements(listed), Below), Below);
  }

  method UniqueSorted(values: seq<string>) returns (result: seq<string>)
    ensures result == SortSet(Elements(values) - {""}, Below)
  {
    var kept: seq<string> := [];
    for k := 0 to |values|
      invariant Elements(kept) == Elements(values[..k]) - {""}
    {
      assert values[..k + 1] == values[..k] + [values[k]];
      ElementsAppend(values[..k], values[k]);
      if values[k] != "" {
        ElementsAppend(kept, values[k]);
        kept := kept + [values[k]];
      }
    }
    assert values[..|values|] == values;
    CompactedSort(kept);
    result := Compact(Sort(kept, Below));
  }

  /** The loop over requests; `requests` are those made. */
  method CheckGroupAliases(directory: Directory, userID: string, groupIDs: seq<string>,
          aliasesByID: map<string, seq<string>>)
    returns (result: Result<seq<string>, LookupFault>, ghost requests: seq<seq<string>>)
    ensures result == AliasesFound(directory, userID, groupIDs, aliasesByID)
    ensures requests <= Chunks(groupIDs) && (userID == "" ==> requests == [])
    ensures result.Ok? ==> requests == Chunks(groupIDs)
  {
    requests := [];
    if |groupIDs| == 0 {
      return Ok([]), requests;
    }
    if userID == "" {
      return Err(MissingUserID), requests;
    }
    var checked;
    checked, requests := CheckChunks(directory, groupIDs, aliasesByID);
    if checked.Err? {
      return Err(checked.error), requests;
    }
    var listed := ListSet(checked.value);
    SortedListing(listed);
    result := Ok(Sort(listed, Below));
  }

  /** Asks about one chunk after the other; the first fault ends the loop. */
  method CheckChunks(directory: Directory, groupIDs: seq<string>, aliasesByID: map<string, seq<string>>)
    returns (aliases: Result<set<string>, LookupFault>, ghost requests: seq<seq<string>>)
    ensures requests <= Chunks(groupIDs)
    ensures aliases.Ok? ==> requests == Chunks(groupIDs)
    ensures match FirstFault(directory, Chunks(groupIDs))
            case Some(fault) => aliases == Err(fault)
            case None => aliases == Ok(Reported(directory, Chunks(groupIDs), aliasesByID))
  {
    requests := [];
    var found: set<string> := {};
    var start := 0;
    assert groupIDs[0..] == groupIDs;
    while start < |groupIDs|
      invariant 0 <= start && (start <= |groupIDs| || requests == Chunks(groupIDs))
      invariant start <= |groupIDs| ==> requests + Chunks(groupIDs[start..]) == Chunks(groupIDs)
      invariant forall c | c in requests :: directory(c).Answered?
      invariant found == Reported(directory, requests, aliasesByID)
    {
      var end := if start + LIMIT <= |groupIDs| then start + LIMIT else |groupIDs|;
      var chunk := groupIDs[start..end];
      NextChunk(groupIDs, start, end);
      var response := directory(chunk);
      FirstFaultAfter(directory, requests, Chunks(groupIDs[start..]));
      if response.Refused? {
        return Err(Refusal(response.error)), requests + [chunk];
      }
      if response.NoResponse? {
        return Err(NoMemberships), requests + [chunk];
      }
      var more := AliasesFor(response.value, aliasesByID);
      ReportedMore(directory, requests, chunk, aliasesByID, more);
      found := found + more;
      requests := requests + [chunk];
      start := start + LIMIT;
    }
    FirstFaultExactly(directory, requests);
    aliases := Ok(found);
  }

  lemma NextChunk(ids: seq<string>, start: nat, end: nat)
    requires start < |ids| && end == if start + LIMIT <= |ids| then start + LIMIT else |ids|
    ensures Chunks(ids[start..]) == [ids[start..end]] + Chunks(ids[end..])
  {
    var rest := ids[start..];
    if |rest| > LIMIT {
      assert rest[..LIMIT] == ids[start..end];
      assert rest[LIMIT..] == ids[end..];
    } else {
      assert rest == ids[start..end];
    }
  }

  lemma ReportedMore(directory: Directory, requests: seq<seq<string>>, chunk: seq<string>,
          aliasesByID: map<string, seq<string>>, found: set<string>)
    requires directory(chunk).Answered?
    requires found == set id, alias | id in directory(chunk).value && id in aliasesByID && alias in aliasesByID[id] ::
                        alias
    ensures Reported(directory, requests + [chunk], aliasesByID) == Reported(directory, requests, aliasesByID) + found
  {
  }

  /** The aliases of the reported groups; a group nobody configured has none. */
  method AliasesFor(ids: seq<string>, aliasesByID: map<string, seq<string>>) returns (found: set<string>)
    ensures found == set id, alias | id in ids && id in aliasesByID && alias in aliasesByID[id] :: alias
  {
    found := {};
    for k := 0 to |ids|
      invariant found == set id, alias | id in ids[..k] && id in aliasesByID && alias in aliasesByID[id] :: alias
    {
      assert ids[..k + 1] == ids[..k] + [ids[k]];
      if ids[k] in aliasesByID {
        found := found + set alias | alias in aliasesByID[ids[k]];
      }
    }
    assert ids[..|ids|] == ids;
  }

  method ListSet(s: set<string>) returns (listed: seq<string>)
    ensures Lists(listed, s)
  {
    listed := [];
    var pending := s;
    while pending != {}
      invariant pending <= s && Lists(listed, s - pending)
      decreases |pending|
    {
      var x :| x in pending;
      ListsMore(listed, s - pending, x);
      listed := listed + [x];
      pending := pending - {x};
      assert s - pending == s - (pending + {x}) + {x};
    }
    assert s - {} == s;
  }
}
