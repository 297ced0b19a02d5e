/** Collision resolution as a function of the ranked work (planner.go, resolveCollisions). */
module PlannerCollisions {
  import opened Basics
  import opened Sorting
  import opened PlannerModel
  import opened PlannerRanking
  import opened PlannerSuffix

  /** What collision resolution decides about one item; `Open` while undecided. */
  datatype Outcome = Open | Won | Numbered(sequence: nat, name: string) | Rejected(reason: Reason)

  /** The decisions so far and the folded names already taken. */
  datatype Stage = Stage(out: seq<Outcome>, taken: set<string>)

  function KeyOf(p: Policy, w: Work): string {
    p.fold(w.plan.desiredName)
  }

  predicate InGroup(p: Policy, work: seq<Work>, key: string, i: nat) {
    i < |work| && work[i].candidate && KeyOf(p, work[i]) == key
  }

  predicate Within(n: nat, group: seq<nat>) {
    forall k | 0 <= k < |group| :: group[k] < n
  }

  function GroupFrom(p: Policy, work: seq<Work>, key: string, i: nat): (group: seq<nat>)
    ensures Within(|work|, group)
    decreases |work| - i
  {
    if i >= |work| then []
    else if InGroup(p, work, key, i) then [i] + GroupFrom(p, work, key, i + 1)
    else GroupFrom(p, work, key, i + 1)
  }

  function Group(p: Policy, work: seq<Work>, key: string): (group: seq<nat>)
    ensures Within(|work|, group)
  {
    GroupFrom(p, work, key, 0)
  }

  ghost function GroupKeySet(p: Policy, work: seq<Work>): set<string> {
    set i | 0 <= i < |work| && work[i].candidate :: KeyOf(p, work[i])
  }

  ghost function GroupKeys(p: Policy, work: seq<Work>): seq<string> {
    SortSet(GroupKeySet(p, work), Below)
  }

  /** Current names of items that were no candidates to begin with. */
  function ReservedFrom(p: Policy, work: seq<Work>, i: nat, names: set<string>): set<string>
    decreases |work| - i
  {
    if i >= |work| then names
    else ReservedFrom(p, work, i + 1, if work[i].candidate then names else Reserve(p, names, work[i].plan.currentName))
  }

  /** The fixed-name items among `group`. */
  function Authoritative(work: seq<Work>, group: seq<nat>): (fixed: seq<nat>)
    requires Within(|work|, group)
    ensures Within(|work|, fixed)
  {
    if group == [] then []
    else if work[group[0]].authoritative then [group[0]] + Authoritative(work, group[1..])
    else Authoritative(work, group[1..])
  }

  /** Invalidates item `i`; its device keeps the name it has. */
  function Reject(p: Policy, work: seq<Work>, st: Stage, i: nat, reason: Reason): Stage
    requires i < |work| == |st.out|
  {
    Stage(st.out[i := Rejected(reason)], Reserve(p, st.taken, work[i].plan.currentName))
  }

  function RejectFrom(p: Policy, work: seq<Work>, st: Stage, group: seq<nat>, k: nat, reason: Reason): (r: Stage)
    requires |work| == |st.out|
    requires Within(|work|, group)
    ensures |r.out| == |work|
    decreases |group| - k
  {
    if k >= |group| then st
    else RejectFrom(p, work, Reject(p, work, st, group[k], reason), group, k + 1, reason)
  }

  lemma {:induction false} GroupFromMembers(p: Policy, work: seq<Work>, key: string, i: nat)
    ensures forall j :: j in GroupFrom(p, work, key, i) <==> i <= j && InGroup(p, work, key, j)
    ensures NoRepeats(GroupFrom(p, work, key, i))
    decreases |work| - i
  {
    if i < |work| {
      GroupFromMembers(p, work, key, i + 1);
    }
  }

  lemma GroupMembers(p: Policy, work: seq<Work>, key: string)
    ensures forall j :: j in Group(p, work, key) <==> InGroup(p, work, key, j)
    ensures NoRepeats(Group(p, work, key))
  {
    GroupFromMembers(p, work, key, 0);
  }

  lemma {:induction false} AuthoritativeMembers(work: seq<Work>, group: seq<nat>)
    requires Within(|work|, group)
    ensures forall i :: i in Authoritative(work, group) <==> i in group && work[i].authoritative
  {
    if group != [] {
      AuthoritativeMembers(work, group[1..]);
    }
  }

  /** The members of a group in the order of the comparator. */
  function Order(p: Policy, work: seq<Work>, key: string): (order: seq<nat>)
    ensures forall i :: i in order <==> InGroup(p, work, key, i)
    ensures |order| == |Group(p, work, key)|
    ensures Within(|work|, order)
  {
    GroupMembers(p, work, key);
    SortKeeps(Group(p, work, key), PositionBeats(p, work));
    var order := RankGroup(p, work, Group(p, work, key));
    MembersOf(order, Group(p, work, key));
    assert forall k | 0 <= k < |order| :: order[k] in order;
    order
  }

  /** First pass over one group: settle fixed names, and pick a winner where the name is free. */
  function DecideGroup(p: Policy, work: seq<Work>, key: string, st: Stage): (r: Stage)
    requires |work| == |st.out|
    ensures |r.out| == |work|
  {
    GroupMembers(p, work, key);
    var group := Group(p, work, key);
    AuthoritativeMembers(work, group);
    var fixed := Authoritative(work, group);
    if |fixed| > 1 then RejectFrom(p, work, st, group, 0, AuthoritativeConflict)
    else if |fixed| == 1 && key in st.taken then
      assert fixed[0] in fixed;
      Reject(p, work, st, fixed[0], AuthoritativeTaken)
    else if |fixed| == 1 then
      assert fixed[0] in fixed;
      st.(out := st.out[fixed[0] := Won])
    else if key !in st.taken && group != [] then
      assert Order(p, work, key)[0] in Order(p, work, key);
      st.(out := st.out[Order(p, work, key)[0] := Won])
    else st
  }

  function DecideFrom(p: Policy, work: seq<Work>, keys: seq<string>, k: nat, st: Stage): (r: Stage)
    requires |work| == |st.out|
    ensures |r.out| == |work|
    decreases |keys| - k
  {
    if k >= |keys| then st else DecideFrom(p, work, keys, k + 1, DecideGroup(p, work, keys[k], st))
  }

  ghost function WinnerNames(p: Policy, work: seq<Work>, out: seq<Outcome>): set<string>
    requires |work| == |out|
  {
    set i | 0 <= i < |work| && out[i] == Won :: KeyOf(p, work[i])
  }

  /** Second pass, one item: undecided items look for a suffix. */
  function NumberItem(p: Policy, work: seq<Work>, i: nat, st: Stage): (r: Stage)
    requires i < |work| == |st.out|
    ensures |r.out| == |work|
  {
    if st.out[i] != Open then st
    else if work[i].authoritative then Reject(p, work, st, i, AuthoritativeSuffix)
    else match NextSequenceName(p, work[i].plan.desiredName, work[i].record.device.platform, st.taken)
      case Found(n, name) => Stage(st.out[i := Numbered(n, name)], st.taken + {p.fold(name)})
      case NotFound(reason) => Reject(p, work, st, i, reason)
  }

  function NumberItems(p: Policy, work: seq<Work>, order: seq<nat>, k: nat, st: Stage): (r: Stage)
    requires |work| == |st.out|
    requires Within(|work|, order)
    ensures |r.out| == |work|
    decreases |order| - k
  {
    if k >= |order| then st else NumberItems(p, work, order, k + 1, NumberItem(p, work, order[k], st))
  }

  function NumberFrom(p: Policy, work: seq<Work>, keys: seq<string>, k: nat, st: Stage): (r: Stage)
    requires |work| == |st.out|
    ensures |r.out| == |work|
    decreases |keys| - k
  {
    if k >= |keys| then st
    else NumberFrom(p, work, keys, k + 1, NumberItems(p, work, Order(p, work, keys[k]), 0, st))
  }

  ghost function Start(p: Policy, work: seq<Work>): Stage {
    Stage(seq(|work|, _ => Open), ReservedFrom(p, work, 0, {}))
  }

  /** After the first pass. */
  ghost function Decided(p: Policy, work: seq<Work>): (st: Stage)
    ensures |st.out| == |work|
  {
    DecideFrom(p, work, GroupKeys(p, work), 0, Start(p, work))
  }

  /** Between the passes: names of winners become taken as well. */
  ghost function Occupied(p: Policy, work: seq<Work>): (st: Stage)
    ensures |st.out| == |work|
  {
    var st := Decided(p, work);
    st.(taken := st.taken + WinnerNames(p, work, st.out))
  }

  ghost function Resolved(p: Policy, work: seq<Work>): (st: Stage)
    ensures |st.out| == |work|
  {
    NumberFrom(p, work, GroupKeys(p, work), 0, Occupied(p, work))
  }

  /** The work item after its outcome is recorded in it. */
  function Settle(w: Work, o: Outcome): Work {
    match o
    case Open => w
    case Won => Finish(w)
    case Numbered(_, name) => Finish(w.(plan := w.plan.(desiredName := name)))
    case Rejected(reason) => Invalidate(w, reason)
  }

  ghost function Resolve(p: Policy, work: seq<Work>): (r: seq<Work>)
    ensures |r| == |work|
  {
    seq(|work|, i requires 0 <= i < |work| => Settle(work[i], Resolved(p, work).out[i]))
  }
}
