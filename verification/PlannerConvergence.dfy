/** Applying a plan and resolving collisions again: which decisions stay. */
module PlannerConvergence {
  import opened Sorting
  import opened PlannerModel
  import opened PlannerRanking
  import opened PlannerCollisions
  import opened PlannerSafety
  import opened PlannerNames

  function RenamedRecord(r: Record, name: string): Record {
    r.(device := r.device.(currentName := name))
  }

  function WithName(w: Work, name: string): Work {
    w.(record := RenamedRecord(w.record, name), plan := w.plan.(currentName := name))
  }

  /** The name a device carries once the plan has been applied. */
  function NameAfter(w: Work, o: Outcome): string {
    if Settled(o) then FinalName(w, o) else w.plan.currentName
  }

  /** The same inventory after every planned rename has taken effect. */
  ghost function Renamed(p: Policy, work: seq<Work>): (r: seq<Work>)
    ensures |r| == |work|
  {
    seq(|work|, i requires 0 <= i < |work| => WithName(work[i], NameAfter(work[i], Resolved(p, work).out[i])))
  }

  /** `other` is `work` with different current names. */
  ghost predicate Twins(work: seq<Work>, other: seq<Work>) {
    && |work| == |other|
    && forall i | 0 <= i < |work| :: other[i] == WithName(work[i], other[i].plan.currentName)
  }

  ghost predicate SameName(work: seq<Work>, other: seq<Work>, i: nat)
    requires i < |work| == |other|
  {
    work[i].plan.currentName == other[i].plan.currentName
  }

  lemma {:induction false} TwinsGroupFrom(p: Policy, work: seq<Work>, other: seq<Work>, key: string, i: nat)
    requires Twins(work, other)
    ensures GroupFrom(p, other, key, i) == GroupFrom(p, work, key, i)
    decreases |work| - i
  {
    if i < |work| {
      TwinsGroupFrom(p, work, other, key, i + 1);
    }
  }

  lemma {:induction false} TwinsAuthoritative(work: seq<Work>, other: seq<Work>, group: seq<nat>)
    requires Twins(work, other) && Within(|work|, group)
    ensures Authoritative(other, group) == Authoritative(work, group)
  {
    if group != [] {
      TwinsAuthoritative(work, other, group[1..]);
    }
  }

  lemma TwinsKeys(p: Policy, work: seq<Work>, other: seq<Work>)
    requires Twins(work, other)
    ensures GroupKeySet(p, other) == GroupKeySet(p, work)
    ensures GroupKeys(p, other) == GroupKeys(p, work)
  {
    assert forall i | 0 <= i < |work| ::
             KeyOf(p, other[i]) == KeyOf(p, work[i]) && other[i].candidate == work[i].candidate;
    assert GroupKeySet(p, other) == GroupKeySet(p, work);
  }

  lemma TwinsReady(p: Policy, work: seq<Work>, other: seq<Work>)
    requires Twins(work, other) && Ready(p, work)
    ensures Ready(p, other)
  {
    assert forall i | 0 <= i < |work| ::
             Identity(other[i].record) == Identity(work[i].record) && other[i].ranks == work[i].ranks;
  }

  lemma {:induction false} TwinsReserved(p: Policy, work: seq<Work>, other: seq<Work>, i: nat, names: set<string>)
    requires Twins(work, other)
    requires forall j: nat | j < |work| && !work[j].candidate :: SameName(work, other, j)
    ensures ReservedFrom(p, other, i, names) == ReservedFrom(p, work, i, names)
    decreases |work| - i
  {
    if i < |work| {
      assert !work[i].candidate ==> SameName(work, other, i);
      TwinsReserved(p, work, other, i + 1,
                    if work[i].candidate then names else Reserve(p, names, work[i].plan.currentName));
    }
  }

  lemma {:induction false} TwinsReject(p: Policy, work: seq<Work>, other: seq<Work>, st: Stage, group: seq<nat>,
          k: nat, reason: Reason)
    requires Twins(work, other) && |work| == |st.out| && Within(|work|, group)
    requires forall j | 0 <= j < |group| :: SameName(work, other, group[j])
    ensures RejectFrom(p, other, st, group, k, reason) == RejectFrom(p, work, st, group, k, reason)
    decreases |group| - k
  {
    if k < |group| {
      TwinsReject(p, work, other, Reject(p, work, st, group[k], reason), group, k + 1, reason);
    }
  }

  // First pass.

  /** Where the first pass picks a winner by rank, `other` ranks the same item first. */
  ghost predicate SameFirst(p: Policy, work: seq<Work>, other: seq<Work>, key: string) {
    Order(p, work, key) != [] && Order(p, other, key) != [] && Order(p, other, key)[0] == Order(p, work, key)[0]
  }

  lemma DecideGroupSame(p: Policy, work: seq<Work>, other: seq<Work>, key: string, st: Stage)
    requires Twins(work, other) && |work| == |st.out| && GroupOpen(p, work, key, st)
    requires forall i: nat | InGroup(p, work, key, i) && DecideGroup(p, work, key, st).out[i].Rejected? ::
               SameName(work, other, i)
    requires Order(p, work, key) != [] && DecideGroup(p, work, key, st).out[Order(p, work, key)[0]] == Won
             && !work[Order(p, work, key)[0]].authoritative
             ==> SameFirst(p, work, other, key)
    ensures DecideGroup(p, other, key, st) == DecideGroup(p, work, key, st)
  {
    var group := Group(p, work, key);
    TwinsGroupFrom(p, work, other, key, 0);
    TwinsAuthoritative(work, other, group);
    GroupMembers(p, work, key);
    AuthoritativeMembers(work, group);
    var fixed := Authoritative(work, group);
    if |fixed| > 1 {
      RejectFromEffect(p, work, st, group, 0, AuthoritativeConflict);
      forall j | 0 <= j < |group| ensures SameName(work, other, group[j]) {
        assert group[j] in group && InGroup(p, work, key, group[j]);
      }
      TwinsReject(p, work, other, st, group, 0, AuthoritativeConflict);
    } else if |fixed| == 1 {
      assert fixed[0] in fixed && InGroup(p, work, key, fixed[0]);
    } else if key !in st.taken && group != [] {
      var w := Order(p, work, key)[0];
      assert w in Order(p, work, key) && InGroup(p, work, key, w);
      assert work[w].authoritative ==> w in fixed;
    }
  }

  /** Every name that some run from `st` rejects is kept, and every rank winner stays first. */
  ghost predicate FirstPassAgrees(p: Policy, work: seq<Work>, other: seq<Work>, out: seq<Outcome>)
    requires |work| == |other| == |out|
  {
    && (forall i: nat | i < |work| && out[i].Rejected? :: SameName(work, other, i))
    && (forall i: nat | i < |work| && work[i].candidate && !work[i].authoritative && out[i] == Won ::
          SameFirst(p, work, other, KeyOf(p, work[i])))
  }

  lemma {:induction false} DecideFromSame(p: Policy, work: seq<Work>, other: seq<Work>, keys: seq<string>, k: nat,
          st: Stage)
    requires Twins(work, other) && |work| == |st.out| && NoRepeats(keys)
    requires forall j | k <= j < |keys| :: GroupOpen(p, work, keys[j], st)
    requires FirstPassAgrees(p, work, other, DecideFrom(p, work, keys, k, st).out)
    ensures DecideFrom(p, other, keys, k, st) == DecideFrom(p, work, keys, k, st)
    decreases |keys| - k
  {
    if k < |keys| {
      var next := DecideGroup(p, work, keys[k], st);
      DecideGroupFrame(p, work, keys[k], st);
      DecideFromDecides(p, work, keys, k + 1, next);
      forall i: nat | InGroup(p, work, keys[k], i)
        ensures DecideFrom(p, work, keys, k, st).out[i] == next.out[i]
      {
        assert forall j | k + 1 <= j < |keys| :: !InGroup(p, work, keys[j], i);
      }
      if Order(p, work, keys[k]) != [] {
        assert Order(p, work, keys[k])[0] in Order(p, work, keys[k]);
      }
      DecideGroupSame(p, work, other, keys[k], st);
      DecideFromSame(p, work, other, keys, k + 1, next);
    }
  }

  lemma DecidedSame(p: Policy, work: seq<Work>, other: seq<Work>)
    requires Twins(work, other)
    requires forall i: nat | i < |work| && !work[i].candidate :: SameName(work, other, i)
    requires FirstPassAgrees(p, work, other, Decided(p, work).out)
    ensures Decided(p, other) == Decided(p, work)
    ensures Occupied(p, other) == Occupied(p, work)
  {
    TwinsKeys(p, work, other);
    TwinsReserved(p, work, other, 0, {});
    assert Start(p, other) == Start(p, work);
    GroupKeysMembers(p, work);
    DecideFromSame(p, work, other, GroupKeys(p, work), 0, Start(p, work));
    assert forall i | 0 <= i < |work| :: KeyOf(p, other[i]) == KeyOf(p, work[i]);
    assert WinnerNames(p, other, Decided(p, work).out) == WinnerNames(p, work, Decided(p, work).out);
  }

  // Second pass: only the undecided members of a group matter, in their relative order.

  function Undecided(order: seq<nat>, k: nat, out: seq<Outcome>): (open: seq<nat>)
    requires Within(|out|, order)
    ensures Within(|out|, open)
    decreases |order| - k
  {
    if k >= |order| then []
    else if out[order[k]] == Open then [order[k]] + Undecided(order, k + 1, out)
    else Undecided(order, k + 1, out)
  }

  lemma {:induction false} UndecidedMembers(order: seq<nat>, k: nat, out: seq<Outcome>)
    requires Within(|out|, order)
    ensures forall i ::
              i in Undecided(order, k, out) ==> out[i] == Open && exists j :: k <= j < |order| && order[j] == i
    ensures forall j | k <= j < |order| && out[order[j]] == Open :: order[j] in Undecided(order, k, out)
    decreases |order| - k
  {
    if k < |order| {
      UndecidedMembers(order, k + 1, out);
    }
  }

  lemma {:induction false} UndecidedAscends(order: seq<nat>, k: nat, out: seq<Outcome>, less: (nat, nat) -> bool)
    requires Within(|out|, order) && Ascending(order, less)
    ensures Ascending(Undecided(order, k, out), less)
    decreases |order| - k
  {
    if k < |order| {
      UndecidedAscends(order, k + 1, out, less);
      UndecidedMembers(order, k + 1, out);
      if out[order[k]] == Open {
        AscendingPrepend(order[k], Undecided(order, k + 1, out), less);
      }
    }
  }

  lemma NumberItemsCons(p: Policy, work: seq<Work>, i: nat, rest: seq<nat>, st: Stage)
    requires i < |work| == |st.out| && Within(|work|, rest)
    ensures Within(|work|, [i] + rest)
    ensures NumberItems(p, work, [i] + rest, 0, st) == NumberItems(p, work, rest, 0, NumberItem(p, work, i, st))
  {
    NumberItemsSplit(p, work, [i], rest, 0, st);
    assert NumberItems(p, work, [i], 0, st) == NumberItems(p, work, [i], 1, NumberItem(p, work, i, st));
  }

  lemma {:induction false} NumberUndecided(p: Policy, work: seq<Work>, order: seq<nat>, k: nat, st: Stage,
          out: seq<Outcome>)
    requires |work| == |st.out| == |out| && Within(|work|, order) && NoRepeats(order)
    requires forall j | k <= j < |order| :: st.out[order[j]] == out[order[j]]
    ensures NumberItems(p, work, order, k, st) == NumberItems(p, work, Undecided(order, k, out), 0, st)
    decreases |order| - k
  {
    if k < |order| {
      NumberItemEffect(p, work, order[k], st);
      var next := NumberItem(p, work, order[k], st);
      NumberUndecided(p, work, order, k + 1, next, out);
      if out[order[k]] == Open {
        NumberItemsCons(p, work, order[k], Undecided(order, k + 1, out), st);
      }
    }
  }

  lemma {:induction false} NumberItemsSame(p: Policy, work: seq<Work>, other: seq<Work>, order: seq<nat>, k: nat,
          st: Stage)
    requires Twins(work, other) && |work| == |st.out| && Within(|work|, order)
    requires forall i: nat | i < |work| && NumberItems(p, work, order, k, st).out[i].Rejected? ::
               SameName(work, other, i)
    ensures NumberItems(p, other, order, k, st) == NumberItems(p, work, order, k, st)
    decreases |order| - k
  {
    if k < |order| {
      var next := NumberItem(p, work, order[k], st);
      NumberItemEffect(p, work, order[k], st);
      NumberItemsProgress(p, work, order, k + 1, next);
      assert next.out[order[k]].Rejected? ==> SameName(work, other, order[k]);
      NumberItemsSame(p, work, other, order, k + 1, next);
    }
  }

  /** The undecided members of each group are ranked alike in both inventories. */
  ghost predicate SecondPassAgrees(p: Policy, work: seq<Work>, other: seq<Work>, out: seq<Outcome>)
    requires |work| == |other| == |out|
  {
    forall i: nat, j: nat | Rivals(p, work, out, i, j) :: PositionBeats(p, other)(i, j) == PositionBeats(p, work)(i, j)
  }

  /** Two undecided candidates of one group. */
  ghost predicate Rivals(p: Policy, work: seq<Work>, out: seq<Outcome>, i: nat, j: nat)
    requires |work| == |out|
  {
    && i < |work| && j < |work| && work[i].candidate && work[j].candidate
    && KeyOf(p, work[i]) == KeyOf(p, work[j]) && out[i] == Open && out[j] == Open
  }

  lemma SameBeats(p: Policy, work: seq<Work>, other: seq<Work>, i: nat, j: nat)
    requires Twins(work, other) && i < |work| && j < |work|
    requires p.preserveExisting ==>
               Existing(p, other[i]) == Existing(p, work[i]) && Existing(p, other[j]) == Existing(p, work[j])
    ensures PositionBeats(p, other)(i, j) == PositionBeats(p, work)(i, j)
  {
    assert other[i] == WithName(work[i], other[i].plan.currentName);
    assert other[j] == WithName(work[j], other[j].plan.currentName);
  }

  lemma UndecidedRankedAlike(p: Policy, work: seq<Work>, other: seq<Work>, key: string, out: seq<Outcome>)
    requires Twins(work, other) && Ready(p, work) && |work| == |out|
    requires SecondPassAgrees(p, work, other, out)
    ensures Ascending(Undecided(Order(p, other, key), 0, out), PositionBeats(p, work))
  {
    var theirs := Undecided(Order(p, other, key), 0, out);
    TwinsReady(p, work, other);
    OrderNoRepeats(p, other, key);
    UndecidedAscends(Order(p, other, key), 0, out, PositionBeats(p, other));
    UndecidedShared(p, work, other, key, out);
    forall a, b | 0 <= a < b < |theirs| ensures PositionBeats(p, work)(theirs[a], theirs[b]) {
      assert theirs[a] in theirs && theirs[b] in theirs;
      assert PositionBeats(p, other)(theirs[a], theirs[b]);
      assert Rivals(p, work, out, theirs[a], theirs[b]);
    }
  }

  lemma UndecidedSame(p: Policy, work: seq<Work>, other: seq<Work>, key: string, out: seq<Outcome>)
    requires Twins(work, other) && Ready(p, work) && |work| == |out|
    requires SecondPassAgrees(p, work, other, out)
    ensures Undecided(Order(p, other, key), 0, out) == Undecided(Order(p, work, key), 0, out)
  {
    var mine := Undecided(Order(p, work, key), 0, out);
    OrderNoRepeats(p, work, key);
    UndecidedAscends(Order(p, work, key), 0, out, PositionBeats(p, work));
    UndecidedRankedAlike(p, work, other, key, out);
    UndecidedShared(p, work, other, key, out);
    PositionsLinear(p, work, Elements(mine));
    AscendingUnique(mine, Undecided(Order(p, other, key), 0, out), PositionBeats(p, work));
  }

  lemma UndecidedShared(p: Policy, work: seq<Work>, other: seq<Work>, key: string, out: seq<Outcome>)
    requires Twins(work, other) && |work| == |out|
    ensures forall i: nat :: i in Undecided(Order(p, work, key), 0, out) <==> InGroup(p, work, key, i) && out[i] == Open
    ensures forall i: nat ::
              i in Undecided(Order(p, other, key), 0, out) <==> InGroup(p, work, key, i) && out[i] == Open
    ensures Elements(Undecided(Order(p, work, key), 0, out)) == Elements(Undecided(Order(p, other, key), 0, out))
  {
    UndecidedOfOrder(p, work, key, out);
    UndecidedOfOrder(p, other, key, out);
    forall i: nat ensures InGroup(p, other, key, i) == InGroup(p, work, key, i) {
      assert i < |work| ==> other[i] == WithName(work[i], other[i].plan.currentName);
    }
  }

  lemma UndecidedOfOrder(p: Policy, work: seq<Work>, key: string, out: seq<Outcome>)
    requires |work| == |out|
    ensures forall i: nat :: i in Undecided(Order(p, work, key), 0, out) <==> InGroup(p, work, key, i) && out[i] == Open
  {
    var order := Order(p, work, key);
    UndecidedMembers(order, 0, out);
    forall i: nat ensures i in Undecided(order, 0, out) <==> InGroup(p, work, key, i) && out[i] == Open {
      if InGroup(p, work, key, i) && out[i] == Open {
        assert i in order;
        var j :| 0 <= j < |order| && order[j] == i;
      }
      if i in Undecided(order, 0, out) {
        var j :| 0 <= j < |order| && order[j] == i;
        assert order[j] in order;
      }
    }
  }

  lemma NumberGroupSame(p: Policy, work: seq<Work>, other: seq<Work>, key: string, st: Stage, out: seq<Outcome>)
    requires Twins(work, other) && Ready(p, work) && |work| == |st.out| == |out|
    requires SecondPassAgrees(p, work, other, out)
    requires forall i: nat | InGroup(p, work, key, i) :: st.out[i] == out[i]
    requires forall i: nat | i < |work| && NumberItems(p, work, Order(p, work, key), 0, st).out[i].Rejected? ::
               SameName(work, other, i)
    ensures NumberItems(p, other, Order(p, other, key), 0, st) == NumberItems(p, work, Order(p, work, key), 0, st)
  {
    TwinsReady(p, work, other);
    OrderNoRepeats(p, work, key);
    OrderNoRepeats(p, other, key);
    assert forall k | 0 <= k < |Order(p, work, key)| :: Order(p, work, key)[k] in Order(p, work, key);
    assert forall k | 0 <= k < |Order(p, other, key)| :: Order(p, other, key)[k] in Order(p, other, key);
    assert forall i: nat :: InGroup(p, other, key, i) ==> InGroup(p, work, key, i);
    NumberUndecided(p, work, Order(p, work, key), 0, st, out);
    NumberUndecided(p, other, Order(p, other, key), 0, st, out);
    UndecidedSame(p, work, other, key, out);
    NumberItemsSame(p, work, other, Undecided(Order(p, work, key), 0, out), 0, st);
  }

  lemma {:induction false} NumberFromSame(p: Policy, work: seq<Work>, other: seq<Work>, keys: seq<string>, k: nat,
          st: Stage, out: seq<Outcome>)
    requires Twins(work, other) && Ready(p, work) && |work| == |st.out| == |out| && NoRepeats(keys)
    requires SecondPassAgrees(p, work, other, out)
    requires forall j, i: nat | k <= j < |keys| && InGroup(p, work, keys[j], i) :: st.out[i] == out[i]
    requires forall i: nat | i < |work| && NumberFrom(p, work, keys, k, st).out[i].Rejected? :: SameName(work, other, i)
    ensures NumberFrom(p, other, keys, k, st) == NumberFrom(p, work, keys, k, st)
    decreases |keys| - k
  {
    if k < |keys| {
      var order := Order(p, work, keys[k]);
      var next := NumberItems(p, work, order, 0, st);
      NumberFromFlat(p, work, keys, k + 1, next);
      NumberItemsProgress(p, work, TraversalFrom(p, work, keys, k + 1), 0, next);
      NumberGroupSame(p, work, other, keys[k], st, out);
      forall j, i: nat | k + 1 <= j < |keys| && InGroup(p, work, keys[j], i) ensures next.out[i] == out[i] {
        assert forall a | 0 <= a < |order| :: order[a] in order;
        NumberItemsFrame(p, work, order, 0, st, i);
      }
      NumberFromSame(p, work, other, keys, k + 1, next, out);
    }
  }

  lemma ResolvedSame(p: Policy, work: seq<Work>, other: seq<Work>)
    requires Twins(work, other) && Ready(p, work)
    requires Occupied(p, other) == Occupied(p, work)
    requires SecondPassAgrees(p, work, other, Decided(p, work).out)
    requires forall i: nat | i < |work| && Resolved(p, work).out[i].Rejected? :: SameName(work, other, i)
    ensures Resolved(p, other) == Resolved(p, work)
  {
    TwinsKeys(p, work, other);
    GroupKeysMembers(p, work);
    NumberFromSame(p, work, other, GroupKeys(p, work), 0, Occupied(p, work), Decided(p, work).out);
  }
}
