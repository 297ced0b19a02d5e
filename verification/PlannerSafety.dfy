/** What both passes of collision resolution guarantee about every outcome. */
module PlannerSafety {
  import opened Basics
  import opened Sorting
  import opened PlannerModel
  import opened PlannerRanking
  import opened PlannerCollisions

  // First pass.

  lemma {:induction false} RejectFromEffect(p: Policy, work: seq<Work>, st: Stage, group: seq<nat>, k: nat,
          reason: Reason)
    requires |work| == |st.out| && Within(|work|, group)
    ensures st.taken <= RejectFrom(p, work, st, group, k, reason).taken
    ensures forall i | 0 <= i < |work| ::
              RejectFrom(p, work, st, group, k, reason).out[i] == st.out[i]
              || (i in group && RejectFrom(p, work, st, group, k, reason).out[i] == Rejected(reason))
    ensures forall j | k <= j < |group| :: RejectFrom(p, work, st, group, k, reason).out[group[j]] == Rejected(reason)
    ensures forall j | k <= j < |group| && work[group[j]].plan.currentName != "" ::
              p.fold(work[group[j]].plan.currentName) in RejectFrom(p, work, st, group, k, reason).taken
    decreases |group| - k
  {
    if k < |group| {
      RejectFromEffect(p, work, Reject(p, work, st, group[k], reason), group, k + 1, reason);
    }
  }

  /** The state of one group after its turn in the first pass. */
  ghost predicate GroupDecided(p: Policy, work: seq<Work>, key: string, st: Stage)
    requires |work| == |st.out|
  {
    && (forall i: nat, j: nat | InGroup(p, work, key, i) && InGroup(p, work, key, j)
          && st.out[i] == Won && st.out[j] == Won :: i == j)
    && (forall i: nat, j: nat | InGroup(p, work, key, i) && InGroup(p, work, key, j) && st.out[i] == Won ::
          !st.out[j].Rejected?)
    && (forall i: nat | InGroup(p, work, key, i) :: !st.out[i].Numbered?)
    && (forall i: nat | InGroup(p, work, key, i) && st.out[i] == Open ::
          !work[i].authoritative && (key in st.taken || exists w: nat :: InGroup(p, work, key, w) && st.out[w] == Won))
    && (forall i: nat | InGroup(p, work, key, i) && st.out[i].Rejected? ::
          work[i].authoritative || st.out[i].reason == AuthoritativeConflict)
    && (forall i: nat | InGroup(p, work, key, i) && st.out[i].Rejected? && work[i].plan.currentName != "" ::
          p.fold(work[i].plan.currentName) in st.taken)
  }

  ghost predicate GroupOpen(p: Policy, work: seq<Work>, key: string, st: Stage)
    requires |work| == |st.out|
  {
    forall i: nat | InGroup(p, work, key, i) :: st.out[i] == Open
  }

  lemma DecideGroupFrame(p: Policy, work: seq<Work>, key: string, st: Stage)
    requires |work| == |st.out|
    ensures st.taken <= DecideGroup(p, work, key, st).taken
    ensures forall i | 0 <= i < |work| && !InGroup(p, work, key, i) :: DecideGroup(p, work, key, st).out[i] == st.out[i]
  {
    var group := Group(p, work, key);
    GroupMembers(p, work, key);
    AuthoritativeMembers(work, group);
    var fixed := Authoritative(work, group);
    if |fixed| > 1 {
      RejectFromEffect(p, work, st, group, 0, AuthoritativeConflict);
    } else if |fixed| == 1 {
      assert fixed[0] in fixed;
    }
  }

  lemma DecideGroupDecides(p: Policy, work: seq<Work>, key: string, st: Stage)
    requires |work| == |st.out| && GroupOpen(p, work, key, st)
    ensures GroupDecided(p, work, key, DecideGroup(p, work, key, st))
  {
    var r := DecideGroup(p, work, key, st);
    var group := Group(p, work, key);
    GroupMembers(p, work, key);
    AuthoritativeMembers(work, group);
    var fixed := Authoritative(work, group);
    if |fixed| > 1 {
      RejectFromEffect(p, work, st, group, 0, AuthoritativeConflict);
      forall i: nat | InGroup(p, work, key, i)
        ensures r.out[i] == Rejected(AuthoritativeConflict)
        ensures work[i].plan.currentName != "" ==> p.fold(work[i].plan.currentName) in r.taken
      {
        var j :| 0 <= j < |group| && group[j] == i;
      }
    } else if |fixed| == 1 {
      assert fixed[0] in fixed;
      forall i: nat | InGroup(p, work, key, i) && work[i].authoritative ensures i == fixed[0] {
        assert i in fixed;
      }
      assert r.out[fixed[0]] == Won || key in r.taken;
    } else {
      forall i: nat | InGroup(p, work, key, i) ensures !work[i].authoritative {
        assert work[i].authoritative ==> i in fixed;
      }
      if group != [] {
        assert Order(p, work, key)[0] in Order(p, work, key);
        assert key in r.taken || r.out[Order(p, work, key)[0]] == Won;
      }
    }
  }

  lemma GroupDecidedKept(p: Policy, work: seq<Work>, key: string, st: Stage, r: Stage)
    requires |work| == |st.out| == |r.out| && GroupDecided(p, work, key, st)
    requires st.taken <= r.taken
    requires forall i: nat | InGroup(p, work, key, i) :: r.out[i] == st.out[i]
    ensures GroupDecided(p, work, key, r)
  {
    if exists w: nat :: InGroup(p, work, key, w) && st.out[w] == Won {
      var w: nat :| InGroup(p, work, key, w) && st.out[w] == Won;
      assert r.out[w] == Won;
    }
  }

  /** Running the rest of the first pass leaves earlier groups alone and decides every later one. */
  lemma {:induction false} DecideFromDecides(p: Policy, work: seq<Work>, keys: seq<string>, k: nat, st: Stage)
    requires |work| == |st.out| && NoRepeats(keys)
    requires forall j | k <= j < |keys| :: GroupOpen(p, work, keys[j], st)
    ensures st.taken <= DecideFrom(p, work, keys, k, st).taken
    ensures forall i | 0 <= i < |work| && (forall j | k <= j < |keys| :: !InGroup(p, work, keys[j], i)) ::
              DecideFrom(p, work, keys, k, st).out[i] == st.out[i]
    ensures forall j | k <= j < |keys| :: GroupDecided(p, work, keys[j], DecideFrom(p, work, keys, k, st))
    decreases |keys| - k
  {
    if k < |keys| {
      var next := DecideGroup(p, work, keys[k], st);
      DecideGroupFrame(p, work, keys[k], st);
      DecideGroupDecides(p, work, keys[k], st);
      DecideFromDecides(p, work, keys, k + 1, next);
      GroupDecidedKept(p, work, keys[k], next, DecideFrom(p, work, keys, k, st));
    }
  }

  lemma GroupKeysMembers(p: Policy, work: seq<Work>)
    ensures NoRepeats(GroupKeys(p, work))
    ensures Ascending(GroupKeys(p, work), Below)
    ensures forall i | 0 <= i < |work| && work[i].candidate :: KeyOf(p, work[i]) in GroupKeys(p, work)
  {
    var s, keys := GroupKeySet(p, work), GroupKeys(p, work);
    BelowLinear(s);
    SortSetAscends(s, Below);
    SortSetMembers(s, Below);
    forall i, j | 0 <= i < j < |keys| ensures keys[i] != keys[j] {
      assert Below(keys[i], keys[j]);
    }
    forall i | 0 <= i < |work| && work[i].candidate ensures KeyOf(p, work[i]) in keys {
      assert KeyOf(p, work[i]) in Elements(keys);
    }
  }

  lemma AllGroupsDecided(p: Policy, work: seq<Work>)
    ensures ReservedFrom(p, work, 0, {}) <= Decided(p, work).taken
    ensures forall i | 0 <= i < |work|
                       && (forall k | 0 <= k < |GroupKeys(p, work)| :: !InGroup(p, work, GroupKeys(p, work)[k], i)) ::
              Decided(p, work).out[i] == Open
    ensures forall k | 0 <= k < |GroupKeys(p, work)| :: GroupDecided(p, work, GroupKeys(p, work)[k], Decided(p, work))
  {
    GroupKeysMembers(p, work);
    DecideFromDecides(p, work, GroupKeys(p, work), 0, Start(p, work));
  }

  lemma OwnGroupDecided(p: Policy, work: seq<Work>, i: nat)
    requires i < |work| && work[i].candidate
    requires forall k | 0 <= k < |GroupKeys(p, work)| :: GroupDecided(p, work, GroupKeys(p, work)[k], Decided(p, work))
    ensures GroupDecided(p, work, KeyOf(p, work[i]), Decided(p, work))
  {
    GroupKeysMembers(p, work);
    var k :| 0 <= k < |GroupKeys(p, work)| && GroupKeys(p, work)[k] == KeyOf(p, work[i]);
  }

  /** The first pass as a whole. */
  lemma DecidedGroups(p: Policy, work: seq<Work>)
    ensures ReservedFrom(p, work, 0, {}) <= Decided(p, work).taken
    ensures forall i | 0 <= i < |work| && !work[i].candidate :: Decided(p, work).out[i] == Open
    ensures forall i | 0 <= i < |work| && work[i].candidate ::
              GroupDecided(p, work, KeyOf(p, work[i]), Decided(p, work))
  {
    AllGroupsDecided(p, work);
    forall i: nat | i < |work| && work[i].candidate
      ensures GroupDecided(p, work, KeyOf(p, work[i]), Decided(p, work))
    {
      OwnGroupDecided(p, work, i);
    }
  }

  // Winners take names that were free of every device outside the contest.

  lemma DecideGroupWinner(p: Policy, work: seq<Work>, key: string, st: Stage, i: nat)
    requires |work| == |st.out| && InGroup(p, work, key, i)
    requires st.out[i] != Won && DecideGroup(p, work, key, st).out[i] == Won
    ensures key !in st.taken
    ensures work[i].authoritative || (Order(p, work, key) != [] && i == Order(p, work, key)[0])
  {
    var group := Group(p, work, key);
    GroupMembers(p, work, key);
    AuthoritativeMembers(work, group);
    var fixed := Authoritative(work, group);
    if |fixed| > 1 {
      RejectFromEffect(p, work, st, group, 0, AuthoritativeConflict);
    } else if |fixed| == 1 {
      assert fixed[0] in fixed;
    }
  }

  lemma {:induction false} DecideFromWinner(p: Policy, work: seq<Work>, keys: seq<string>, k: nat, st: Stage, i: nat)
    requires |work| == |st.out| && i < |work|
    requires st.out[i] != Won && DecideFrom(p, work, keys, k, st).out[i] == Won
    ensures KeyOf(p, work[i]) !in st.taken
    ensures work[i].authoritative
            || (Order(p, work, KeyOf(p, work[i])) != [] && i == Order(p, work, KeyOf(p, work[i]))[0])
    decreases |keys| - k
  {
    var next := DecideGroup(p, work, keys[k], st);
    DecideGroupFrame(p, work, keys[k], st);
    if next.out[i] == Won {
      DecideGroupWinner(p, work, keys[k], st, i);
    } else {
      DecideFromWinner(p, work, keys, k + 1, next, i);
    }
  }

  // Second pass.

  lemma {:induction false} NumberItemsSplit(p: Policy, work: seq<Work>, xs: seq<nat>, ys: seq<nat>, k: nat, st: Stage)
    requires |work| == |st.out| && Within(|work|, xs) && Within(|work|, ys) && k <= |xs|
    ensures Within(|work|, xs + ys)
    ensures NumberItems(p, work, xs + ys, k, st) == NumberItems(p, work, ys, 0, NumberItems(p, work, xs, k, st))
    decreases |xs| - k
  {
    if k < |xs| {
      NumberItemsSplit(p, work, xs, ys, k + 1, NumberItem(p, work, xs[k], st));
    } else {
      NumberItemsShift(p, work, xs, ys, 0, st);
    }
  }

  lemma {:induction false} NumberItemsShift(p: Policy, work: seq<Work>, xs: seq<nat>, ys: seq<nat>, k: nat, st: Stage)
    requires |work| == |st.out| && Within(|work|, xs) && Within(|work|, ys) && k <= |ys|
    ensures Within(|work|, xs + ys)
    ensures NumberItems(p, work, xs + ys, |xs| + k, st) == NumberItems(p, work, ys, k, st)
    decreases |ys| - k
  {
    if k < |ys| {
      NumberItemsShift(p, work, xs, ys, k + 1, NumberItem(p, work, ys[k], st));
    }
  }

  /** The order in which the second pass visits items, across all groups. */
  function TraversalFrom(p: Policy, work: seq<Work>, keys: seq<string>, k: nat): (t: seq<nat>)
    ensures Within(|work|, t)
    decreases |keys| - k
  {
    if k >= |keys| then [] else Order(p, work, keys[k]) + TraversalFrom(p, work, keys, k + 1)
  }

  ghost function Traversal(p: Policy, work: seq<Work>): (t: seq<nat>)
    ensures Within(|work|, t)
  {
    TraversalFrom(p, work, GroupKeys(p, work), 0)
  }

  lemma {:induction false} NumberFromFlat(p: Policy, work: seq<Work>, keys: seq<string>, k: nat, st: Stage)
    requires |work| == |st.out|
    ensures NumberFrom(p, work, keys, k, st) == NumberItems(p, work, TraversalFrom(p, work, keys, k), 0, st)
    decreases |keys| - k
  {
    if k < |keys| {
      NumberItemsSplit(p, work, Order(p, work, keys[k]), TraversalFrom(p, work, keys, k + 1), 0, st);
      NumberFromFlat(p, work, keys, k + 1, NumberItems(p, work, Order(p, work, keys[k]), 0, st));
    }
  }

  lemma OrderNoRepeats(p: Policy, work: seq<Work>, key: string)
    requires Ready(p, work)
    ensures NoRepeats(Order(p, work, key))
    ensures Ascending(Order(p, work, key), PositionBeats(p, work))
  {
    GroupMembers(p, work, key);
    RankGroupOrders(p, work, Group(p, work, key));
    var order := Order(p, work, key);
    forall i, j | 0 <= i < j < |order| ensures order[i] != order[j] {
      assert PositionBeats(p, work)(order[i], order[j]);
      if order[i] == order[j] {
        assert order[i] in order;
        BeatsConnected(p, work[order[i]], work[order[j]]);
      }
    }
  }

  lemma {:induction false} TraversalMembers(p: Policy, work: seq<Work>, keys: seq<string>, k: nat)
    requires Ready(p, work) && NoRepeats(keys)
    ensures NoRepeats(TraversalFrom(p, work, keys, k))
    ensures forall i ::
              i in TraversalFrom(p, work, keys, k) <==> exists j :: k <= j < |keys| && InGroup(p, work, keys[j], i)
    decreases |keys| - k
  {
    if k < |keys| {
      OrderNoRepeats(p, work, keys[k]);
      TraversalMembers(p, work, keys, k + 1);
      var here, rest := Order(p, work, keys[k]), TraversalFrom(p, work, keys, k + 1);
      forall i | i in here ensures i !in rest {
        assert InGroup(p, work, keys[k], i);
      }
      JoinNoRepeats(here, rest);
      forall i ensures i in here + rest <==> exists j :: k <= j < |keys| && InGroup(p, work, keys[j], i) {
        if i in here {
          assert InGroup(p, work, keys[k], i);
        }
      }
    }
  }

  lemma JoinNoRepeats(xs: seq<nat>, ys: seq<nat>)
    requires NoRepeats(xs) && NoRepeats(ys) && forall x | x in xs :: x !in ys
    ensures NoRepeats(xs + ys)
  {
    forall i, j | 0 <= i < j < |xs + ys| ensures (xs + ys)[i] != (xs + ys)[j] {
      if i < |xs| <= j {
        assert xs[i] in xs && ys[j - |xs|] in ys;
      }
    }
  }
}
