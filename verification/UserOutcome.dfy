/** What one lookup in the directory comes to, told from its replies (entra.go, resolveUser and checkGroupAliases). */
module UserOutcome {
  import opened Basics
  import opened Sorting
  import opened PlannerModel
  import opened AliasModel
  import opened UserProgram

  /** A field that is missing reads as empty. */
  predicate Reads(field: Option<string>, text: string) {
    match field
    case None => text == ""
    case Some(value) => text == value
  }

  /** The user as the directory describes the person; a person without an ID has the empty one. */
  predicate Describes(person: GraphUser, user: User) {
    && user.present && user.attributes == map[]
    && Reads(person.id, user.id) && Reads(person.mailNickname, user.mailNickname)
    && Reads(person.userPrincipalName, user.userPrincipalName)
    && Reads(person.displayName, user.displayName) && Reads(person.department, user.department)
  }

  /** The alias is configured for the group. */
  predicate Gives(config: Aliases, alias: string, group: string) {
    alias in config && group in config[alias]
  }

  /** One of the requests reports a group the alias is configured for. */
  ghost predicate ReportedFor(config: Aliases, directory: Directory, alias: string) {
    exists c, group ::
      c in Chunks(SortedGroups(config)) && directory(c).Answered? && group in directory(c).value
      && Gives(config, alias, group)
  }

  /** Request `k` is the first the directory does not answer. */
  ghost predicate FirstUnanswered(directory: Directory, chunks: seq<seq<string>>, k: nat) {
    && k < |chunks| && !directory(chunks[k]).Answered?
    && forall j | 0 <= j < k :: directory(chunks[j]).Answered?
  }

  /** How the reply to an unanswered request reads as a fault. */
  predicate FaultOf<T>(reply: Reply<T>, missing: LookupFault, fault: LookupFault) {
    match reply
    case Answered(_) => false
    case NoResponse => fault == missing
    case Refused(error) => fault == Refusal(error)
  }

  /**
   * The whole lookup: a person the directory does not give is a fault; so is one without an ID if any
   * group is configured, and the first request about groups it does not answer. Otherwise the user is
   * as the directory describes the person, with the aliases of the groups it reports, in order.
   */
  ghost predicate LooksUp(graph: Graph, config: Aliases, identifier: string, result: Result<User, LookupFault>) {
    match graph.people(identifier)
    case Answered(person) =>
      var id, chunks := Dereference(person.id), Chunks(SortedGroups(config));
      var directory := graph.memberships(id);
      if forall alias, group :: !Gives(config, alias, group) then
        result.Ok? && Describes(person, result.value) && result.value.groups == []
      else if Reads(person.id, "") then result == Err(MissingUserID)
      else if exists k: nat :: FirstUnanswered(directory, chunks, k) then
        result.Err? && exists k: nat ::
          FirstUnanswered(directory, chunks, k) && FaultOf(directory(chunks[k]), NoMemberships, result.error)
      else
        && result.Ok? && Describes(person, result.value) && Ascending(result.value.groups, Below)
        && forall alias :: alias in result.value.groups <==> ReportedFor(config, directory, alias)
    case _ => result.Err? && FaultOf(graph.people(identifier), NoUser, result.error)
  }

  lemma {:induction false} FaultIsFirst(directory: Directory, chunks: seq<seq<string>>)
    ensures match FirstFault(directory, chunks)
            case None => forall k: nat :: !FirstUnanswered(directory, chunks, k)
            case Some(fault) =>
              exists k: nat ::
                FirstUnanswered(directory, chunks, k) && FaultOf(directory(chunks[k]), NoMemberships, fault)
  {
    if chunks != [] {
      FaultIsFirst(directory, chunks[1..]);
      if directory(chunks[0]).Answered? {
        FaultsShift(directory, chunks);
      } else {
        assert FirstUnanswered(directory, chunks, 0);
      }
    }
  }

  lemma FaultsShift(directory: Directory, chunks: seq<seq<string>>)
    requires chunks != [] && directory(chunks[0]).Answered?
    ensures forall k: nat | FirstUnanswered(directory, chunks, k) ::
              k > 0 && FirstUnanswered(directory, chunks[1..], k - 1)
    ensures forall k: nat | FirstUnanswered(directory, chunks[1..], k) :: ShiftedTo(directory, chunks, k, k + 1)
  {
    var rest := chunks[1..];
    forall k: nat | FirstUnanswered(directory, chunks, k) ensures k > 0 && FirstUnanswered(directory, rest, k - 1) {
      assert rest[k - 1] == chunks[k];
      forall j | 0 <= j < k - 1 ensures directory(rest[j]).Answered? {
        assert rest[j] == chunks[j + 1];
      }
    }
    forall k: nat | FirstUnanswered(directory, rest, k) ensures ShiftedTo(directory, chunks, k, k + 1) {
      forall j | 0 <= j < k + 1 ensures directory(chunks[j]).Answered? {
        assert j > 0 ==> rest[j - 1] == chunks[j];
      }
    }
  }

  ghost predicate ShiftedTo(directory: Directory, chunks: seq<seq<string>>, k: nat, n: nat) {
    FirstUnanswered(directory, chunks, n) && k < |chunks[1..]| && chunks[n] == chunks[1..][k]
  }

  lemma GroupsConfigured(config: Aliases)
    ensures SortedGroups(config) == [] <==> forall alias, group :: !Gives(config, alias, group)
    ensures forall group :: group in SortedGroups(config) <==> exists alias :: Gives(config, alias, group)
  {
    SortSetMembers(GroupIDsOf(config), Below);
    forall group ensures group in SortedGroups(config) <==> exists alias :: Gives(config, alias, group) {
      assert group in SortedGroups(config) <==> group in Elements(SortedGroups(config));
      if group in GroupIDsOf(config) {
        var alias :| alias in config && group in config[alias];
        assert Gives(config, alias, group);
      }
    }
    if alias, group :| Gives(config, alias, group) {
      assert group in SortedGroups(config);
    }
    if SortedGroups(config) != [] {
      assert SortedGroups(config)[0] in SortedGroups(config);
    }
  }

  lemma ReportedExactly(config: Aliases, directory: Directory, alias: string)
    ensures alias in Reported(directory, Chunks(SortedGroups(config)), AliasIndex(config))
            <==> ReportedFor(config, directory, alias)
  {
    forall id | id in AliasIndex(config) ensures alias in AliasIndex(config)[id] <==> Gives(config, alias, id) {
      SortSetMembers(AliasesOf(config, id), Below);
      assert alias in AliasIndex(config)[id] <==> alias in Elements(AliasIndex(config)[id]);
    }
  }

  lemma ReportedListing(config: Aliases, directory: Directory, groups: seq<string>)
    requires groups == SortSet(Reported(directory, Chunks(SortedGroups(config)), AliasIndex(config)), Below)
    ensures Ascending(groups, Below) && forall alias :: alias in groups <==> ReportedFor(config, directory, alias)
  {
    var reported := Reported(directory, Chunks(SortedGroups(config)), AliasIndex(config));
    BelowLinear(reported);
    SortSetAscends(reported, Below);
    SortSetMembers(reported, Below);
    forall alias ensures alias in groups <==> ReportedFor(config, directory, alias) {
      ReportedExactly(config, directory, alias);
      assert alias in groups <==> alias in Elements(groups);
    }
  }

  lemma LookupExactly(graph: Graph, config: Aliases, identifier: string)
    ensures LooksUp(graph, config, identifier, LookupIn(graph, config)(identifier))
  {
    if graph.people(identifier).Answered? {
      var id := Dereference(graph.people(identifier).value.id);
      var directory := graph.memberships(id);
      GroupsConfigured(config);
      FaultIsFirst(directory, Chunks(SortedGroups(config)));
      ReportedListing(config, directory,
                      SortSet(Reported(directory, Chunks(SortedGroups(config)), AliasIndex(config)), Below));
    }
  }
}
