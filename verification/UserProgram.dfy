/** Users in the directory (internal/provider/microsoft/entra.go). */
module UserProgram {
  import opened Basics
  import opened Ordering
  import opened Sorting
  import opened PlannerModel
  import opened AliasModel
  import opened AliasProgram

  /** A user as the directory sends it; any field may be missing. */
  datatype GraphUser = GraphUser(
    id: Option<string>, userPrincipalName: Option<string>, mailNickname: Option<string>,
    displayName: Option<string>, department: Option<string>)

  /** The directory, whenever it is asked: users by identifier, memberships by user ID. */
  datatype Graph = Graph(people: string -> Reply<GraphUser>, memberships: string -> Directory)

  function Dereference(value: Option<string>): string {
    if value.Some? then value.value else ""
  }

  function UserWith(person: GraphUser, groups: seq<string>): User {
    User(true, Dereference(person.id), Dereference(person.mailNickname), Dereference(person.userPrincipalName),
         Dereference(person.displayName), Dereference(person.department), groups, map[])
  }

  /** How the lookup of one identifier ends. */
  type Lookup = string -> Result<User, LookupFault>

  /** The user with its aliases, or the first fault met on the way. */
  ghost function Resolved(graph: Graph, config: Aliases, identifier: string): Result<User, LookupFault> {
    match graph.people(identifier)
    case Refused(error) => Err(Refusal(error))
    case NoResponse => Err(NoUser)
    case Answered(person) =>
      var id := Dereference(person.id);
      match AliasesFound(graph.memberships(id), id, SortedGroups(config), AliasIndex(config))
      case Err(fault) => Err(fault)
      case Ok(groups) => Ok(UserWith(person, groups))
  }

  ghost function LookupIn(graph: Graph, config: Aliases): Lookup {
    identifier => Resolved(graph, config, identifier)
  }

  /** A user the directory answers honestly about has exactly the aliases held, in order and without repeats. */
  lemma GroupsAreHeld(graph: Graph, config: Aliases, identifier: string, member: string -> bool)
    requires graph.people(identifier).Answered?
    requires var id := Dereference(graph.people(identifier).value.id);
             (id != "" || GroupIDsOf(config) == {}) && Honest(graph.memberships(id), SortedGroups(config), member)
    ensures var reply := LookupIn(graph, config)(identifier);
            reply.Ok? && reply.value.present && reply.value.groups == SortSet(Held(config, member), Below)
  {
    var id := Dereference(graph.people(identifier).value.id);
    FoundIsHeld(config, graph.memberships(id), id, member);
  }

  /** Without a user ID there are no memberships to ask for: the user is refused if any group is configured. */
  lemma MissingIDRefused(graph: Graph, config: Aliases, identifier: string)
    requires graph.people(identifier).Answered? && Dereference(graph.people(identifier).value.id) == ""
    ensures LookupIn(graph, config)(identifier) ==
            if GroupIDsOf(config) == {} then Ok(UserWith(graph.people(identifier).value, [])) else Err(MissingUserID)
  {
    SortSetMembers(GroupIDsOf(config), Below);
    if GroupIDsOf(config) != {} {
      var id :| id in GroupIDsOf(config);
      assert id in Elements(SortedGroups(config));
    } else {
      assert SortedGroups(config) == [];
    }
  }

  method ResolveUser(graph: Graph, identifier: string, groupIDs: seq<string>, aliasesByID: map<string, seq<string>>,
          ghost config: Aliases)
      returns (result: Result<User, LookupFault>)
    requires Indexes(config, groupIDs, aliasesByID)
    ensures result == LookupIn(graph, config)(identifier)
  {
    var response := graph.people(identifier);
    if response.Refused? {
      return Err(Refusal(response.error));
    }
    if response.NoResponse? {
      return Err(NoUser);
    }
    var id := Dereference(response.value.id);
    var groups, requests := CheckGroupAliases(graph.memberships(id), id, groupIDs, aliasesByID);
    if groups.Err? {
      return Err(groups.error);
    }
    result := Ok(UserWith(response.value, groups.value));
  }

  /** A 404, whether for the user or for its memberships, is an absent user and no error. */
  predicate Absent(reply: Result<User, LookupFault>) {
    reply.Err? && reply.error.Refusal? && reply.error.error.status == Some(404)
  }

  predicate Breaks(reply: Result<User, LookupFault>) {
    reply.Err? && !Absent(reply)
  }

  const NOBODY := User(false, "", "", "", "", "", [], map[])

  /** A user who does not exist reads as the zero user. */
  function Found(reply: Result<User, LookupFault>): User {
    if reply.Ok? then reply.value else NOBODY
  }

  datatype ResolveError = InvalidConcurrency | LookupFailed(fault: LookupFault)

  function UsersOf(ids: set<string>, lookup: Lookup): map<string, User> {
    map id | id in ids && !Breaks(lookup(id)) :: Found(lookup(id))
  }

  function ErrorsOf(ids: set<string>, lookup: Lookup): map<string, LookupFault> {
    map id | id in ids && Breaks(lookup(id)) :: lookup(id).error
  }

  lemma OneMoreReply(ids: set<string>, lookup: Lookup, id: string)
    ensures UsersOf(ids + {id}, lookup) ==
            if Breaks(lookup(id)) then UsersOf(ids, lookup) else UsersOf(ids, lookup)[id := Found(lookup(id))]
    ensures ErrorsOf(ids + {id}, lookup) ==
            if Breaks(lookup(id)) then ErrorsOf(ids, lookup)[id := lookup(id).error] else ErrorsOf(ids, lookup)
  {
  }

  lemma NoErrors(ids: set<string>, lookup: Lookup)
    ensures ErrorsOf(ids, lookup) == map[] <==> forall id | id in ids :: !Breaks(lookup(id))
  {
    forall id | id in ids && Breaks(lookup(id)) ensures ErrorsOf(ids, lookup) != map[] {
      assert id in ErrorsOf(ids, lookup);
    }
  }

  /** The lookup fails with this, which is not a 404. */
  predicate FailsWith(lookup: Lookup, id: string, fault: LookupFault) {
    lookup(id) == Err(fault) && !(fault.Refusal? && fault.error.status == Some(404))
  }

  predicate Failing(lookup: Lookup, id: string) {
    lookup(id).Err? && FailsWith(lookup, id, lookup(id).error)
  }

  /**
   * All users are known if no lookup fails but with a 404, which leaves the zero user; otherwise the
   * fault reported is that of the least identifier whose lookup fails.
   */
  ghost predicate Resolves(asked: set<string>, lookup: Lookup, result: Result<map<string, User>, ResolveError>) {
    if forall id | id in asked :: !Failing(lookup, id) then
      && result.Ok? && result.value.Keys == asked
      && forall id | id in asked ::
           result.value[id] == if lookup(id).Ok? then lookup(id).value
                               else User(false, "", "", "", "", "", [], map[])
    else
      && result.Err? && result.error.LookupFailed?
      && exists id :: id in asked && FailsWith(lookup, id, result.error.fault)
                      && forall other | other in asked && other != id && Failing(lookup, other) :: Smaller(id, other)
  }

  /** The replies of all lookups, taken as they come. */
  method CollectReplies(ids: set<string>, graph: Graph, groupIDs: seq<string>, aliasesByID: map<string, seq<string>>,
          ghost config: Aliases)
      returns (users: map<string, User>, errors: map<string, LookupFault>)
    requires Indexes(config, groupIDs, aliasesByID)
    ensures users == UsersOf(ids, LookupIn(graph, config)) && errors == ErrorsOf(ids, LookupIn(graph, config))
  {
    users, errors := map[], map[];
    var pending := ids;
    while pending != {}
      invariant pending <= ids
      invariant users == UsersOf(ids - pending, LookupIn(graph, config))
      invariant errors == ErrorsOf(ids - pending, LookupIn(graph, config))
      decreases |pending|
    {
      var id :| id in pending;
      OneMoreReply(ids - pending, LookupIn(graph, config), id);
      assert ids - (pending - {id}) == ids - pending + {id};
      var reply := ResolveUser(graph, id, groupIDs, aliasesByID, config);
      if reply.Err? {
        if reply.error.Refusal? && reply.error.error.status == Some(404) {
          users := users[id := NOBODY];
        } else {
          errors := errors[id := reply.error];
        }
      } else {
        users := users[id := reply.value];
      }
      pending := pending - {id};
    }
    assert ids - {} == ids;
  }

  /** The first identifier with an error, in order. */
  method FirstIn(ids: seq<string>, errors: map<string, LookupFault>, ghost broken: string) returns (k: nat)
    requires broken in errors && broken in ids
    ensures k < |ids| && ids[k] in errors
    ensures forall i | 0 <= i < k :: ids[i] !in errors
  {
    k := 0;
    while ids[k] !in errors
      invariant k < |ids| && forall i | 0 <= i < k :: ids[i] !in errors
      invariant broken in ids[k..]
      decreases |ids| - k
    {
      assert ids[k..] == [ids[k]] + ids[k + 1..];
      k := k + 1;
    }
  }

  lemma AllKnown(asked: set<string>, lookup: Lookup)
    requires forall id | id in asked :: !Breaks(lookup(id))
    ensures Resolves(asked, lookup, Ok(UsersOf(asked, lookup)))
  {
    forall id | id in asked ensures !Failing(lookup, id) {
      assert !Breaks(lookup(id));
    }
  }

  lemma LeastIsFirst(asked: set<string>, lookup: Lookup, ids: seq<string>, first: nat)
    requires Ascending(ids, Below) && first < |ids| && Breaks(lookup(ids[first]))
    requires forall id :: id in ids <==> id in asked
    requires forall i | 0 <= i < first :: !Breaks(lookup(ids[i]))
    ensures Resolves(asked, lookup, Err(LookupFailed(lookup(ids[first]).error)))
  {
    var id := ids[first];
    assert id in asked && FailsWith(lookup, id, lookup(id).error);
    forall other | other in asked && other != id && Failing(lookup, other) ensures Smaller(id, other) {
      assert Breaks(lookup(other));
      var k :| 0 <= k < |ids| && ids[k] == other;
      BelowExactly(id, other);
    }
  }

  /**
   * Resolves the distinct identifiers, whose replies arrive in any order. One broken lookup fails
   * the whole call, and the error reported does not depend on that order.
   */
  method ResolveUsers(graph: Graph, config: Aliases, identifiers: seq<string>, concurrency: int)
      returns (result: Result<map<string, User>, ResolveError>)
    ensures concurrency <= 0 ==> result == Err(InvalidConcurrency)
    ensures concurrency > 0 ==>
              Resolves((set id | id in identifiers && id != ""), LookupIn(graph, config), result)
  {
    if concurrency <= 0 {
      return Err(InvalidConcurrency);
    }
    ghost var asked, lookup := Elements(identifiers) - {""}, LookupIn(graph, config);
    assert asked == set id | id in identifiers && id != "";
    var ids := UniqueSorted(identifiers);
    SortSetMembers(asked, Below);
    forall id ensures id in ids <==> id in asked {
      assert id in ids <==> id in Elements(ids);
    }
    if |ids| == 0 {
      AllKnown(asked, lookup);
      assert UsersOf(asked, lookup) == map[];
      return Ok(map[]);
    }
    var groupIDs, aliasesByID := PrepareGroupAliases(config);
    var users, errors := CollectReplies(Elements(ids), graph, groupIDs, aliasesByID, config);
    NoErrors(asked, lookup);
    if errors != map[] {
      var broken: string :| broken in errors;
      var first := FirstIn(ids, errors, broken);
      BelowLinear(asked);
      SortSetAscends(asked, Below);
      LeastIsFirst(asked, lookup, ids, first);
      return Err(LookupFailed(errors[ids[first]]));
    }
    AllKnown(asked, lookup);
    result := Ok(users);
  }
}
