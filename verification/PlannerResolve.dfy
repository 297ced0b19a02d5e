/** Collision resolution in place, refining the function of the ranked work (planner.go, resolveCollisions). */
module PlannerResolve {
  import opened Basics
  import opened Sorting
  import opened PlannerModel
  import opened PlannerRanking
  import opened PlannerCollisions
  import opened PlannerSafety
  import opened PlannerNames
  import opened PlannerPlan
  import opened PlannerProgram

  /** `g` lists the group of `key`, in any order. */
  ghost predicate Lists(p: Policy, work: seq<Work>, key: string, g: seq<nat>) {
    NoRepeats(g) && Within(|work|, g) && forall i: nat :: i in g <==> InGroup(p, work, key, i)
  }

  /** The parts of a work item that the comparator looks at. */
  ghost predicate SameContest(a: Work, b: Work) {
    a.record == b.record && a.ranks == b.ranks
    && a.plan.currentName == b.plan.currentName && a.plan.desiredName == b.plan.desiredName
  }

  /** Both sorts of a group give the same order, although statuses change in between. */
  lemma SortedGroup(p: Policy, work: seq<Work>, now: seq<Work>, key: string, g: seq<nat>)
    requires Ready(p, work) && |now| == |work| && Lists(p, work, key, g)
    requires forall i: nat | InGroup(p, work, key, i) :: SameContest(work[i], now[i])
    ensures Sort(g, PositionBeats(p, now)) == Order(p, work, key)
    ensures Lists(p, work, key, Order(p, work, key))
  {
    var less, lessNow := PositionBeats(p, work), PositionBeats(p, now);
    PositionsLinear(p, work, Elements(g));
    forall a, b | a in g && b in g ensures lessNow(a, b) == less(a, b) {
      assert SameContest(work[a], now[a]) && SameContest(work[b], now[b]);
    }
    assert Linear(Elements(g), lessNow);
    SortAscends(g, lessNow);
    var sorted := Sort(g, lessNow);
    MembersOf(sorted, g);
    OrderNoRepeats(p, work, key);
    assert Elements(sorted) == Elements(Order(p, work, key));
    forall i, j | 0 <= i < j < |sorted| ensures less(sorted[i], sorted[j]) {
      assert sorted[i] in g && sorted[j] in g;
    }
    AscendingUnique(sorted, Order(p, work, key), less);
  }

  method GroupWork(p: Policy, work: array<Work>) returns (reserved: set<string>, groups: map<string, seq<nat>>)
    ensures reserved == ReservedFrom(p, work[..], 0, {})
    ensures groups.Keys == GroupKeySet(p, work[..])
    ensures forall key | key in groups :: groups[key] == Group(p, work[..], key)
  {
    reserved, groups := {}, map[];
    ghost var w := work[..];
    var i := 0;
    while i < work.Length
      invariant 0 <= i <= work.Length
      invariant ReservedFrom(p, w, i, reserved) == ReservedFrom(p, w, 0, {})
      invariant groups.Keys == set j | 0 <= j < i && w[j].candidate :: KeyOf(p, w[j])
      invariant forall key :: (if key in groups then groups[key] else []) + GroupFrom(p, w, key, i) == Group(p, w, key)
    {
      if !work[i].candidate {
        reserved := Reserve(p, reserved, work[i].plan.currentName);
      } else {
        var key := KeyOf(p, work[i]);
        GroupStep(p, w, groups, i);
        groups := groups[key := (if key in groups then groups[key] else []) + [i]];
      }
      i := i + 1;
    }
    forall key | key in groups ensures groups[key] == Group(p, w, key) {
      assert GroupFrom(p, w, key, i) == [];
    }
  }

  lemma GroupStep(p: Policy, w: seq<Work>, groups: map<string, seq<nat>>, i: nat)
    requires i < |w| && w[i].candidate
    requires forall key :: (if key in groups then groups[key] else []) + GroupFrom(p, w, key, i) == Group(p, w, key)
    ensures var here := KeyOf(p, w[i]);
            var next := groups[here := (if here in groups then groups[here] else []) + [i]];
            forall key :: (if key in next then next[key] else []) + GroupFrom(p, w, key, i + 1) == Group(p, w, key)
  {
    var here := KeyOf(p, w[i]);
    var next := groups[here := (if here in groups then groups[here] else []) + [i]];
    forall key ensures (if key in next then next[key] else []) + GroupFrom(p, w, key, i + 1) == Group(p, w, key) {
      if key == here {
        assert GroupFrom(p, w, key, i) == [i] + GroupFrom(p, w, key, i + 1);
      }
    }
  }

  method AuthoritativeItems(work: array<Work>, group: seq<nat>) returns (items: seq<nat>)
    requires Within(work.Length, group)
    ensures items == Authoritative(work[..], group)
  {
    items := [];
    var k := 0;
    while k < |group|
      invariant 0 <= k <= |group|
      invariant items + Authoritative(work[..], group[k..]) == Authoritative(work[..], group)
    {
      assert group[k..][1..] == group[k + 1..];
      if work[group[k]].authoritative {
        items := items + [group[k]];
      }
      k := k + 1;
    }
  }

  /** The array during the first pass: rejections are recorded at once, winners finish later. */
  ghost function Marked(w: seq<Work>, out: seq<Outcome>): (r: seq<Work>)
    requires |w| == |out|
    ensures |r| == |w|
  {
    seq(|w|, i requires 0 <= i < |w| => if out[i].Rejected? then Settle(w[i], out[i]) else w[i])
  }

  ghost function SettleAll(w: seq<Work>, out: seq<Outcome>): (r: seq<Work>)
    requires |w| == |out|
    ensures |r| == |w|
  {
    seq(|w|, i requires 0 <= i < |w| => Settle(w[i], out[i]))
  }

  /** Invalidates one open item and reserves the name its device keeps. */
  method InvalidateItem(p: Policy, work: array<Work>, i: nat, reserved: set<string>, reason: Reason,
                        ghost w: seq<Work>, ghost st: Stage)
    returns (names: set<string>)
    requires |w| == |st.out| == work.Length && i < work.Length
    requires work[..] == Marked(w, st.out) && st.taken == reserved && !st.out[i].Rejected?
    modifies work
    ensures work[..] == Marked(w, Reject(p, w, st, i, reason).out)
    ensures names == Reject(p, w, st, i, reason).taken
  {
    assert work[i] == work[..][i] == w[i];
    work[i] := Invalidate(work[i], reason);
    names := Reserve(p, reserved, work[i].plan.currentName);
    assert work[..] == Marked(w, st.out)[i := Invalidate(w[i], reason)];
    assert work[..] == Marked(w, Reject(p, w, st, i, reason).out);
  }

  method InvalidateGroup(p: Policy, work: array<Work>, group: seq<nat>, reserved: set<string>, reason: Reason,
                         ghost w: seq<Work>, ghost st: Stage)
    returns (names: set<string>)
    requires |w| == |st.out| == work.Length && Within(work.Length, group) && NoRepeats(group)
    requires work[..] == Marked(w, st.out) && st.taken == reserved
    requires forall k | 0 <= k < |group| :: !st.out[group[k]].Rejected?
    modifies work
    ensures work[..] == Marked(w, RejectFrom(p, w, st, group, 0, reason).out)
    ensures names == RejectFrom(p, w, st, group, 0, reason).taken
  {
    names := reserved;
    ghost var s := st;
    var k := 0;
    while k < |group|
      invariant 0 <= k <= |group|
      invariant |s.out| == work.Length && work[..] == Marked(w, s.out) && s.taken == names
      invariant forall j | k <= j < |group| :: !s.out[group[j]].Rejected?
      invariant RejectFrom(p, w, s, group, k, reason) == RejectFrom(p, w, st, group, 0, reason)
    {
      names := InvalidateItem(p, work, group[k], names, reason, w, s);
      s := Reject(p, w, s, group[k], reason);
      k := k + 1;
    }
  }

  /** `winners` records exactly the items that have won so far. */
  ghost predicate Winners(p: Policy, w: seq<Work>, out: seq<Outcome>, winners: map<string, nat>)
    requires |w| == |out|
  {
    && (forall key | key in winners ::
          winners[key] < |w| && out[winners[key]] == Won && KeyOf(p, w[winners[key]]) == key)
    && (forall i: nat | i < |w| && out[i] == Won :: KeyOf(p, w[i]) in winners && winners[KeyOf(p, w[i])] == i)
  }

  /** A group with fixed names: one of them wins, or fixed items are invalidated. */
  method SettleFixed(p: Policy, work: array<Work>, key: string, group: seq<nat>, authoritative: seq<nat>,
                     reserved: set<string>, winners: map<string, nat>, ghost w: seq<Work>, ghost st: Stage)
    returns (names: set<string>, won: map<string, nat>)
    requires |w| == |st.out| == work.Length && GroupOpen(p, w, key, st) && key !in winners
    requires work[..] == Marked(w, st.out) && st.taken == reserved && Winners(p, w, st.out, winners)
    requires group == Group(p, w, key) && authoritative == Authoritative(w, group) && authoritative != []
    modifies work
    ensures work[..] == Marked(w, DecideGroup(p, w, key, st).out)
    ensures names == DecideGroup(p, w, key, st).taken
    ensures Winners(p, w, DecideGroup(p, w, key, st).out, won)
    ensures won.Keys <= winners.Keys + {key}
  {
    names, won := reserved, winners;
    GroupMembers(p, w, key);
    GroupIsOpen(p, w, key, st);
    DecideKeepsWinners(p, w, key, st, winners);
    if |authoritative| > 1 {
      RejectFromEffect(p, w, st, group, 0, AuthoritativeConflict);
      names := InvalidateGroup(p, work, group, names, AuthoritativeConflict, w, st);
    } else {
      FirstFixed(p, w, key);
      if key in reserved {
        names := InvalidateItem(p, work, authoritative[0], names, AuthoritativeTaken, w, st);
      } else {
        won := won[key := authoritative[0]];
        MarkedWinner(w, st.out, authoritative[0]);
      }
    }
  }

  lemma FirstFixed(p: Policy, w: seq<Work>, key: string)
    requires Authoritative(w, Group(p, w, key)) != []
    ensures InGroup(p, w, key, Authoritative(w, Group(p, w, key))[0])
  {
    var fixed := Authoritative(w, Group(p, w, key));
    GroupMembers(p, w, key);
    AuthoritativeMembers(w, Group(p, w, key));
    assert fixed[0] in fixed;
  }

  /** Recording a winner does not touch the array yet. */
  lemma MarkedWinner(w: seq<Work>, out: seq<Outcome>, i: nat)
    requires |w| == |out| && i < |w| && out[i] == Open
    ensures Marked(w, out[i := Won]) == Marked(w, out)
  {
  }

  /** A group without fixed names whose name is free: sort it, and its first item wins. */
  method PickWinner(p: Policy, work: array<Work>, key: string, group: seq<nat>, winners: map<string, nat>,
                    ghost w: seq<Work>, ghost st: Stage)
    returns (sorted: seq<nat>, won: map<string, nat>)
    requires |w| == |st.out| == work.Length && Ready(p, w) && GroupOpen(p, w, key, st) && key !in winners
    requires work[..] == Marked(w, st.out) && Winners(p, w, st.out, winners)
    requires group == Group(p, w, key) && group != [] && Authoritative(w, group) == [] && key !in st.taken
    ensures Lists(p, w, key, sorted)
    ensures work[..] == Marked(w, DecideGroup(p, w, key, st).out)
    ensures DecideGroup(p, w, key, st).taken == st.taken
    ensures Winners(p, w, DecideGroup(p, w, key, st).out, won)
    ensures won.Keys <= winners.Keys + {key}
  {
    GroupMembers(p, w, key);
    MarkedSameContest(w, st.out);
    SortedGroup(p, w, work[..], key, group);
    sorted := Sort(group, PositionBeats(p, work[..]));
    assert sorted[0] in sorted && InGroup(p, w, key, sorted[0]);
    won := winners[key := sorted[0]];
    DecideKeepsWinners(p, w, key, st, winners);
    MarkedWinner(w, st.out, sorted[0]);
  }

  method DecideOne(p: Policy, work: array<Work>, key: string, group: seq<nat>, reserved: set<string>,
          winners: map<string, nat>,
                   ghost w: seq<Work>, ghost st: Stage)
    returns (sorted: seq<nat>, names: set<string>, won: map<string, nat>)
    requires |w| == |st.out| == work.Length && Ready(p, w) && GroupOpen(p, w, key, st) && key !in winners
    requires work[..] == Marked(w, st.out) && st.taken == reserved && Winners(p, w, st.out, winners)
    requires group == Group(p, w, key) && group != []
    modifies work
    ensures Lists(p, w, key, sorted)
    ensures work[..] == Marked(w, DecideGroup(p, w, key, st).out)
    ensures names == DecideGroup(p, w, key, st).taken
    ensures Winners(p, w, DecideGroup(p, w, key, st).out, won)
    ensures won.Keys <= winners.Keys + {key}
  {
    sorted, names, won := group, reserved, winners;
    GroupMembers(p, w, key);
    SameAuthoritative(work[..], w, group);
    var authoritative := AuthoritativeItems(work, group);
    if authoritative != [] {
      names, won := SettleFixed(p, work, key, group, authoritative, reserved, winners, w, st);
    } else if key !in reserved {
      sorted, won := PickWinner(p, work, key, group, winners, w, st);
    } else {
      GroupUndecided(p, w, key, st);
    }
  }

  lemma GroupUndecided(p: Policy, w: seq<Work>, key: string, st: Stage)
    requires |w| == |st.out| && Authoritative(w, Group(p, w, key)) == [] && key in st.taken
    ensures DecideGroup(p, w, key, st) == st
  {
  }

  lemma MarkedSameContest(w: seq<Work>, out: seq<Outcome>)
    requires |w| == |out|
    ensures forall i | 0 <= i < |w| :: SameContest(w[i], Marked(w, out)[i])
  {
  }

  lemma GroupIsOpen(p: Policy, w: seq<Work>, key: string, st: Stage)
    requires |w| == |st.out| && GroupOpen(p, w, key, st)
    ensures forall k | 0 <= k < |Group(p, w, key)| :: st.out[Group(p, w, key)[k]] == Open
  {
    GroupMembers(p, w, key);
    forall k | 0 <= k < |Group(p, w, key)| ensures st.out[Group(p, w, key)[k]] == Open {
      assert Group(p, w, key)[k] in Group(p, w, key);
    }
  }

  lemma {:induction false} SameAuthoritative(a: seq<Work>, b: seq<Work>, group: seq<nat>)
    requires |a| == |b| && Within(|a|, group)
    requires forall i: nat | i < |a| :: a[i].authoritative == b[i].authoritative
    ensures Authoritative(a, group) == Authoritative(b, group)
  {
    if group != [] {
      SameAuthoritative(a, b, group[1..]);
    }
  }

  /** Deciding one group only touches that group, so earlier winners stay recorded. */
  lemma DecideKeepsWinners(p: Policy, w: seq<Work>, key: string, st: Stage, winners: map<string, nat>)
    requires |w| == |st.out| && GroupOpen(p, w, key, st) && Winners(p, w, st.out, winners) && key !in winners
    ensures forall i: nat | InGroup(p, w, key, i) && DecideGroup(p, w, key, st).out[i] == Won ::
              Winners(p, w, DecideGroup(p, w, key, st).out, winners[key := i])
    ensures (forall i: nat | InGroup(p, w, key, i) :: DecideGroup(p, w, key, st).out[i] != Won) ==>
              Winners(p, w, DecideGroup(p, w, key, st).out, winners)
  {
    var r := DecideGroup(p, w, key, st);
    DecideGroupFrame(p, w, key, st);
    DecideGroupDecides(p, w, key, st);
    forall k | k in winners ensures winners[k] < |w| && r.out[winners[k]] == Won && KeyOf(p, w[winners[k]]) == k {
      assert !InGroup(p, w, key, winners[k]);
    }
  }

  // The two passes.

  /** Every remaining group is as it was built, every visited one at most reordered. */
  ghost predicate GroupsHeld(p: Policy, w: seq<Work>, keys: seq<string>, k: nat, groups: map<string, seq<nat>>) {
    && (forall key | key in keys :: key in groups && Lists(p, w, key, groups[key]))
    && (forall j | k <= j < |keys| ::
          keys[j] in groups && groups[keys[j]] == Group(p, w, keys[j]) && groups[keys[j]] != [])
  }

  method DecideWinners(p: Policy, work: array<Work>, keys: seq<string>, reserved: set<string>,
          groups: map<string, seq<nat>>,
                       ghost w: seq<Work>)
    returns (names: set<string>, sorted: map<string, seq<nat>>, winners: map<string, nat>)
    requires Ready(p, w) && work[..] == w && keys == GroupKeys(p, w)
    requires reserved == ReservedFrom(p, w, 0, {}) && GroupsHeld(p, w, keys, 0, groups)
    modifies work
    ensures work[..] == Marked(w, Decided(p, w).out) && names == Decided(p, w).taken
    ensures Winners(p, w, Decided(p, w).out, winners)
    ensures GroupsHeld(p, w, keys, |keys|, sorted)
  {
    names, sorted, winners := reserved, groups, map[];
    ghost var st := Start(p, w);
    GroupKeysMembers(p, w);
    assert Marked(w, st.out) == w;
    var k := 0;
    while k < |keys|
      invariant 0 <= k <= |keys|
      invariant |st.out| == |w| && DecideFrom(p, w, keys, k, st) == Decided(p, w)
      invariant work[..] == Marked(w, st.out) && names == st.taken && Winners(p, w, st.out, winners)
      invariant Waiting(p, w, keys, k, st, winners.Keys)
      invariant GroupsHeld(p, w, keys, k, sorted)
    {
      ghost var won := winners.Keys;
      var group;
      group, names, winners := DecideOne(p, work, keys[k], sorted[keys[k]], names, winners, w, st);
      GroupsHeldStep(p, w, keys, k, sorted, group);
      sorted := sorted[keys[k] := group];
      OthersStayOpen(p, w, keys, k, st, won, winners.Keys);
      st := DecideGroup(p, w, keys[k], st);
      k := k + 1;
    }
  }

  lemma GroupsHeldStep(p: Policy, w: seq<Work>, keys: seq<string>, k: nat, groups: map<string, seq<nat>>, g: seq<nat>)
    requires k < |keys| && NoRepeats(keys) && GroupsHeld(p, w, keys, k, groups) && Lists(p, w, keys[k], g)
    ensures GroupsHeld(p, w, keys, k + 1, groups[keys[k] := g])
  {
  }

  /** Groups from `k` on have not been visited. */
  ghost predicate Waiting(p: Policy, w: seq<Work>, keys: seq<string>, k: nat, st: Stage, won: set<string>)
    requires |w| == |st.out|
  {
    forall j | k <= j < |keys| :: GroupOpen(p, w, keys[j], st) && keys[j] !in won
  }

  lemma OthersStayOpen(p: Policy, w: seq<Work>, keys: seq<string>, k: nat, st: Stage, won: set<string>,
          now: set<string>)
    requires |w| == |st.out| && NoRepeats(keys) && k < |keys|
    requires Waiting(p, w, keys, k, st, won) && now <= won + {keys[k]}
    ensures Waiting(p, w, keys, k + 1, DecideGroup(p, w, keys[k], st), now)
  {
    DecideGroupFrame(p, w, keys[k], st);
    forall j, i: nat | k + 1 <= j < |keys| && InGroup(p, w, keys[j], i)
      ensures DecideGroup(p, w, keys[k], st).out[i] == Open
    {
      assert GroupOpen(p, w, keys[j], st) && !InGroup(p, w, keys[k], i);
    }
  }

  /** The array while winners are being finished: those of `pending` keys still wait. */
  ghost function Finishing(p: Policy, w: seq<Work>, out: seq<Outcome>, pending: set<string>): (r: seq<Work>)
    requires |w| == |out|
    ensures |r| == |w|
  {
    seq(|w|, i requires 0 <= i < |w| =>
      if out[i].Rejected? || (out[i] == Won && KeyOf(p, w[i]) !in pending) then Settle(w[i], out[i]) else w[i])
  }

  method FinishWinners(p: Policy, work: array<Work>, reserved: set<string>, winners: map<string, nat>,
          ghost w: seq<Work>)
    returns (occupied: set<string>)
    requires work[..] == Marked(w, Decided(p, w).out) && reserved == Decided(p, w).taken
    requires Winners(p, w, Decided(p, w).out, winners)
    requires forall i: nat | i < |w| && Decided(p, w).out[i] == Won :: w[i].candidate
    requires forall i: nat | i < |w| :: !Decided(p, w).out[i].Numbered?
    modifies work
    ensures work[..] == SettleAll(w, Occupied(p, w).out)
    ensures occupied == Occupied(p, w).taken
  {
    FinishingStarts(p, w, Decided(p, w).out, winners);
    occupied := FinishPending(p, work, reserved, winners, w, Decided(p, w).out);
    FinishingEnds(p, w, Decided(p, w).out, winners);
  }

  /** The loop over the winners, in any order. */
  method FinishPending(p: Policy, work: array<Work>, reserved: set<string>, winners: map<string, nat>,
          ghost w: seq<Work>, ghost out: seq<Outcome>)
    returns (occupied: set<string>)
    requires |w| == |out| && Winners(p, w, out, winners) && work[..] == Finishing(p, w, out, winners.Keys)
    requires forall i: nat | i < |w| && out[i] == Won :: w[i].candidate
    modifies work
    ensures work[..] == Finishing(p, w, out, {})
    ensures occupied == reserved + winners.Keys
  {
    occupied := reserved;
    var pending := winners.Keys;
    while pending != {}
      invariant pending <= winners.Keys
      invariant work[..] == Finishing(p, w, out, pending)
      invariant occupied == reserved + (winners.Keys - pending)
      decreases |pending|
    {
      var key :| key in pending;
      var winner := winners[key];
      assert work[winner] == work[..][winner] == w[winner];
      if work[winner].candidate {
        occupied := occupied + {key};
        work[winner] := Finish(work[winner]);
      }
      FinishOne(p, w, out, winners, pending, key);
      pending := pending - {key};
    }
  }

  lemma FinishingStarts(p: Policy, w: seq<Work>, out: seq<Outcome>, winners: map<string, nat>)
    requires |w| == |out| && Winners(p, w, out, winners)
    ensures Finishing(p, w, out, winners.Keys) == Marked(w, out)
  {
  }

  lemma FinishingEnds(p: Policy, w: seq<Work>, out: seq<Outcome>, winners: map<string, nat>)
    requires |w| == |out| && Winners(p, w, out, winners)
    requires forall i: nat | i < |w| && out[i] == Won :: w[i].candidate
    requires forall i: nat | i < |w| :: !out[i].Numbered?
    ensures Finishing(p, w, out, {}) == SettleAll(w, out)
    ensures winners.Keys == WinnerNames(p, w, out)
  {
  }

  lemma FinishOne(p: Policy, w: seq<Work>, out: seq<Outcome>, winners: map<string, nat>, pending: set<string>,
          key: string)
    requires |w| == |out| && Winners(p, w, out, winners) && key in pending && key in winners
    ensures Finishing(p, w, out, pending)[winners[key] := Finish(w[winners[key]])]
            == Finishing(p, w, out, pending - {key})
  {
  }

  /** Gives the losers of one group their numbers, in rank order. */
  method NumberGroup(p: Policy, work: array<Work>, key: string, order: seq<nat>, occupied: set<string>,
          winners: map<string, nat>,
                     ghost w: seq<Work>, ghost st: Stage)
    returns (names: set<string>)
    requires |w| == |st.out| == work.Length && Within(work.Length, order) && NoRepeats(order)
    requires work[..] == SettleAll(w, st.out) && occupied == st.taken
    requires forall k | 0 <= k < |order| :: LoserTest(w, st.out, key, winners, order[k])
    modifies work
    ensures work[..] == SettleAll(w, NumberItems(p, w, order, 0, st).out)
    ensures names == NumberItems(p, w, order, 0, st).taken
  {
    names := occupied;
    ghost var s := st;
    var k := 0;
    while k < |order|
      invariant 0 <= k <= |order|
      invariant |s.out| == |w| && NumberItems(p, w, order, k, s) == NumberItems(p, w, order, 0, st)
      invariant work[..] == SettleAll(w, s.out) && names == s.taken
      invariant forall j | k <= j < |order| :: LoserTest(w, s.out, key, winners, order[j])
    {
      NumberItemEffect(p, w, order[k], s);
      names := NumberOne(p, work, order[k], key, names, winners, w, s);
      s := NumberItem(p, w, order[k], s);
      k := k + 1;
    }
  }

  /** What the second pass knows of an item it has not visited. */
  ghost predicate LoserTest(w: seq<Work>, out: seq<Outcome>, key: string, winners: map<string, nat>, i: nat)
    requires |w| == |out|
  {
    && i < |w| && w[i].candidate && !out[i].Numbered?
    && (out[i] == Won <==> key in winners && winners[key] == i)
  }

  method NumberOne(p: Policy, work: array<Work>, i: nat, key: string, occupied: set<string>, winners: map<string, nat>,
                   ghost w: seq<Work>, ghost st: Stage)
    returns (names: set<string>)
    requires |w| == |st.out| == work.Length && LoserTest(w, st.out, key, winners, i)
    requires work[..] == SettleAll(w, st.out) && occupied == st.taken
    modifies work
    ensures work[..] == SettleAll(w, NumberItem(p, w, i, st).out)
    ensures names == NumberItem(p, w, i, st).taken
  {
    names := occupied;
    assert work[i] == work[..][i] == Settle(w[i], st.out[i]);
    if !work[i].candidate || (key in winners && winners[key] == i) {
      return;
    }
    if work[i].authoritative {
      work[i] := Invalidate(work[i], AuthoritativeSuffix);
      names := Reserve(p, names, work[i].plan.currentName);
    } else {
      var found := FindSequenceName(p, work[i].plan.desiredName, work[i].record.device.platform, occupied);
      if found.NotFound? {
        work[i] := Invalidate(work[i], found.reason);
        names := Reserve(p, names, work[i].plan.currentName);
      } else {
        work[i] := Finish(work[i].(plan := work[i].plan.(desiredName := found.name)));
        names := names + {p.fold(found.name)};
      }
    }
    assert work[..] == SettleAll(w, st.out)[i := Settle(w[i], NumberItem(p, w, i, st).out[i])];
    assert work[..] == SettleAll(w, NumberItem(p, w, i, st).out);
  }

  lemma UnvisitedSameContest(p: Policy, w: seq<Work>, key: string, out: seq<Outcome>)
    requires |w| == |out|
    requires forall i: nat | InGroup(p, w, key, i) :: !out[i].Numbered?
    ensures forall i: nat | InGroup(p, w, key, i) :: SameContest(w[i], SettleAll(w, out)[i])
  {
  }

  /** Groups from `k` on are as the first pass left them. */
  ghost predicate Unvisited(p: Policy, w: seq<Work>, keys: seq<string>, k: nat, out: seq<Outcome>)
    requires |w| == |out|
  {
    forall j, i: nat | k <= j < |keys| && InGroup(p, w, keys[j], i) :: out[i] == Decided(p, w).out[i]
  }

  /** One turn of the second pass: sorts the group of `keys[k]` in place and numbers its losers. */
  method NumberTurn(p: Policy, work: array<Work>, keys: seq<string>, k: nat, occupied: set<string>,
          groups: map<string, seq<nat>>,
                    winners: map<string, nat>, ghost w: seq<Work>, ghost st: Stage)
    returns (names: set<string>, sorted: map<string, seq<nat>>)
    requires Ready(p, w) && k < |keys| && NoRepeats(keys) && GroupsHeld(p, w, keys, |keys|, groups)
    requires |st.out| == |w| && work[..] == SettleAll(w, st.out) && occupied == st.taken
    requires Winners(p, w, Decided(p, w).out, winners) && Unvisited(p, w, keys, k, st.out)
    modifies work
    ensures var next := NumberItems(p, w, Order(p, w, keys[k]), 0, st);
            work[..] == SettleAll(w, next.out) && names == next.taken && Unvisited(p, w, keys, k + 1, next.out)
    ensures GroupsHeld(p, w, keys, |keys|, sorted)
  {
    var key := keys[k];
    GroupNotNumbered(p, w, key, st.out);
    UnvisitedSameContest(p, w, key, st.out);
    SortedGroup(p, w, work[..], key, groups[key]);
    sorted := groups[key := Sort(groups[key], PositionBeats(p, work[..]))];
    LoserTests(p, w, key, st.out, winners);
    names := NumberGroup(p, work, key, sorted[key], occupied, winners, w, st);
    LaterUntouched(p, w, keys, k, st);
  }

  method NumberLosers(p: Policy, work: array<Work>, keys: seq<string>, occupied: set<string>,
          groups: map<string, seq<nat>>,
                      winners: map<string, nat>, ghost w: seq<Work>)
    requires Ready(p, w) && keys == GroupKeys(p, w) && GroupsHeld(p, w, keys, |keys|, groups)
    requires work[..] == SettleAll(w, Occupied(p, w).out) && occupied == Occupied(p, w).taken
    requires Winners(p, w, Decided(p, w).out, winners)
    modifies work
    ensures work[..] == SettleAll(w, Resolved(p, w).out)
  {
    GroupKeysMembers(p, w);
    var names, sorted := occupied, groups;
    ghost var st := Occupied(p, w);
    var k := 0;
    while k < |keys|
      invariant 0 <= k <= |keys|
      invariant |st.out| == |w| && NumberFrom(p, w, keys, k, st) == Resolved(p, w)
      invariant work[..] == SettleAll(w, st.out) && names == st.taken && Unvisited(p, w, keys, k, st.out)
      invariant GroupsHeld(p, w, keys, |keys|, sorted)
    {
      names, sorted := NumberTurn(p, work, keys, k, names, sorted, winners, w, st);
      st := NumberItems(p, w, Order(p, w, keys[k]), 0, st);
      k := k + 1;
    }
  }

  lemma GroupNotNumbered(p: Policy, w: seq<Work>, key: string, out: seq<Outcome>)
    requires |w| == |out|
    requires forall i: nat | InGroup(p, w, key, i) :: out[i] == Decided(p, w).out[i]
    ensures forall i: nat | InGroup(p, w, key, i) :: !out[i].Numbered?
  {
    DecidedGroups(p, w);
    forall i: nat | InGroup(p, w, key, i) ensures !out[i].Numbered? {
      assert GroupDecided(p, w, KeyOf(p, w[i]), Decided(p, w));
    }
  }

  lemma LoserTests(p: Policy, w: seq<Work>, key: string, out: seq<Outcome>, winners: map<string, nat>)
    requires |w| == |out| && Winners(p, w, Decided(p, w).out, winners)
    requires forall i: nat | InGroup(p, w, key, i) :: out[i] == Decided(p, w).out[i]
    ensures forall k | 0 <= k < |Order(p, w, key)| :: LoserTest(w, out, key, winners, Order(p, w, key)[k])
  {
    GroupNotNumbered(p, w, key, out);
    forall k | 0 <= k < |Order(p, w, key)| ensures LoserTest(w, out, key, winners, Order(p, w, key)[k]) {
      var i := Order(p, w, key)[k];
      assert i in Order(p, w, key) && InGroup(p, w, key, i);
    }
  }

  lemma LaterUntouched(p: Policy, w: seq<Work>, keys: seq<string>, k: nat, st: Stage)
    requires |w| == |st.out| && NoRepeats(keys) && k < |keys|
    requires forall j, i: nat | k <= j < |keys| && InGroup(p, w, keys[j], i) :: st.out[i] == Decided(p, w).out[i]
    ensures forall j, i: nat | k + 1 <= j < |keys| && InGroup(p, w, keys[j], i) ::
              NumberItems(p, w, Order(p, w, keys[k]), 0, st).out[i] == Decided(p, w).out[i]
  {
    var order := Order(p, w, keys[k]);
    forall j, i: nat | k + 1 <= j < |keys| && InGroup(p, w, keys[j], i)
      ensures NumberItems(p, w, order, 0, st).out[i] == Decided(p, w).out[i]
    {
      assert forall a | 0 <= a < |order| :: order[a] in order;
      NumberItemsFrame(p, w, order, 0, st, i);
    }
  }

  /** Collision resolution over the whole inventory. */
  method ResolveCollisions(p: Policy, work: array<Work>)
    requires Ready(p, work[..])
    modifies work
    ensures work[..] == Resolve(p, old(work[..]))
  {
    ghost var w := work[..];
    var reserved, groups := GroupWork(p, work);
    var keys := SortedKeys(groups.Keys);
    GroupsStartHeld(p, w, keys, groups);
    var winners;
    reserved, groups, winners := DecideWinners(p, work, keys, reserved, groups, w);
    NobodyNumberedYet(p, w);
    var occupied := FinishWinners(p, work, reserved, winners, w);
    NumberLosers(p, work, keys, occupied, groups, winners, w);
    assert SettleAll(w, Resolved(p, w).out) == Resolve(p, w);
  }

  lemma NobodyNumberedYet(p: Policy, w: seq<Work>)
    ensures forall i: nat | i < |w| && Decided(p, w).out[i] == Won :: w[i].candidate
    ensures forall i: nat | i < |w| :: !Decided(p, w).out[i].Numbered?
  {
    DecidedGroups(p, w);
    forall i: nat | i < |w| ensures !Decided(p, w).out[i].Numbered? {
      OccupiedHasNoNumbers(p, w, i);
    }
  }

  lemma GroupsStartHeld(p: Policy, w: seq<Work>, keys: seq<string>, groups: map<string, seq<nat>>)
    requires groups.Keys == GroupKeySet(p, w) && keys == GroupKeys(p, w)
    requires forall key | key in groups :: groups[key] == Group(p, w, key)
    ensures GroupsHeld(p, w, keys, 0, groups)
  {
    SortSetMembers(GroupKeySet(p, w), Below);
    forall key | key in keys ensures key in groups && Lists(p, w, key, groups[key]) && groups[key] != [] {
      assert key in Elements(keys);
      GroupMembers(p, w, key);
      var i :| 0 <= i < |w| && w[i].candidate && KeyOf(p, w[i]) == key;
      assert InGroup(p, w, key, i);
    }
  }

  // The plan as a whole.

  predicate WorkBelow(a: Work, b: Work) {
    RecordBelow(a.record, b.record)
  }

  ghost function EvaluateAll(p: Policy, records: seq<Record>): (r: seq<Work>)
    ensures |r| == |records|
    ensures forall i | 0 <= i < |records| :: r[i] == Evaluate(p, records[i])
  {
    if records == [] then [] else [Evaluate(p, records[0])] + EvaluateAll(p, records[1..])
  }

  lemma {:induction false} InsertEvaluated(p: Policy, r: Record, rs: seq<Record>)
    ensures Insert(Evaluate(p, r), EvaluateAll(p, rs), WorkBelow) == EvaluateAll(p, Insert(r, rs, RecordBelow))
  {
    EvaluateIsWell(p, r);
    if rs != [] {
      EvaluateIsWell(p, rs[0]);
      if RecordBelow(rs[0], r) {
        InsertEvaluated(p, r, rs[1..]);
      }
    }
  }

  /** Sorting work items by identity is sorting their records. */
  lemma {:induction false} SortEvaluated(p: Policy, rs: seq<Record>)
    ensures Sort(EvaluateAll(p, rs), WorkBelow) == EvaluateAll(p, SortRecords(rs))
  {
    if rs != [] {
      SortEvaluated(p, rs[1..]);
      InsertEvaluated(p, rs[0], SortRecords(rs[1..]));
    }
  }

  method SortWork(work: array<Work>)
    modifies work
    ensures work[..] == Sort(old(work[..]), WorkBelow)
  {
    var sorted := Sort(work[..], WorkBelow);
    SortKeeps(work[..], WorkBelow);
    var i := 0;
    while i < work.Length
      invariant 0 <= i <= work.Length == |sorted|
      invariant work[..i] == sorted[..i]
    {
      work[i] := sorted[i];
      i := i + 1;
    }
    assert work[..] == work[..i] && sorted == sorted[..i];
  }

  /** The identities of the first `k` records, which differ. */
  ghost predicate SeenUpTo(records: seq<Record>, k: nat, seen: set<Key>)
    requires k <= |records|
  {
    && seen == (set i | 0 <= i < k :: Identity(records[i]))
    && forall i, j | 0 <= i < j < k :: Identity(records[i]) != Identity(records[j])
  }

  lemma SeenOneMore(records: seq<Record>, k: nat, seen: set<Key>)
    requires k < |records| && SeenUpTo(records, k, seen)
    ensures if Identity(records[k]) in seen then !DistinctIdentities(records)
            else SeenUpTo(records, k + 1, seen + {Identity(records[k])})
  {
  }

  /** Evaluates every record, in inventory order, and stops at a repeated identity. */
  method EvaluateInventory(p: Policy, records: seq<Record>) returns (work: array<Work>, distinct: bool)
    ensures fresh(work)
    ensures distinct <==> DistinctIdentities(records)
    ensures distinct ==> work[..] == EvaluateAll(p, records)
  {
    work := new Work[|records|](i requires 0 <= i < |records| => NewWork(records[i]));
    var seen: set<Key> := {};
    var index := 0;
    while index < |records|
      invariant 0 <= index <= |records|
      invariant SeenUpTo(records, index, seen)
      invariant forall i | 0 <= i < index :: work[i] == Evaluate(p, records[i])
    {
      SeenOneMore(records, index, seen);
      if Identity(records[index]) in seen {
        return work, false;
      }
      seen := seen + {Identity(records[index])};
      work[index] := EvaluateRecord(p, records[index]);
      index := index + 1;
    }
    distinct := true;
    assert work[..] == EvaluateAll(p, records);
  }

  /** One plan item for every record, or a refusal exactly when two records share an identity. */
  method PlanRecords(p: Policy, records: seq<Record>) returns (result: PlanResult)
    ensures result == Plan(p, records)
    ensures result == Duplicated <==>
            exists i, j :: 0 <= i < j < |records| && Identity(records[i]) == Identity(records[j])
  {
    var work, distinct := EvaluateInventory(p, records);
    if !distinct {
      return Duplicated;
    }
    SortWork(work);
    SortEvaluated(p, records);
    EvaluateRanks(p, work);
    PreparedFromEvaluated(p, records, work[..]);
    PreparedIsReady(p, records);
    ResolveCollisions(p, work);
    var items := CollectItems(work);
    assert items == PlanItems(p, records);
    return Planned(items);
  }

  lemma PreparedFromEvaluated(p: Policy, records: seq<Record>, work: seq<Work>)
    requires |work| == |records|
    requires forall i | 0 <= i < |work| ::
               && |EvaluateAll(p, SortRecords(records))| == |work|
               && work[i] == WithRanks(p, EvaluateAll(p, SortRecords(records))[i])
    ensures work == Prepared(p, records)
  {
    SortKeeps(records, RecordBelow);
  }

  method CollectItems(work: array<Work>) returns (items: seq<Item>)
    ensures |items| == work.Length
    ensures forall i | 0 <= i < work.Length :: items[i] == work[i].plan
  {
    items := [];
    var index := 0;
    while index < work.Length
      invariant 0 <= index <= work.Length == |work[..]|
      invariant |items| == index && forall i | 0 <= i < index :: items[i] == work[i].plan
    {
      items := items + [work[index].plan];
      index := index + 1;
    }
  }
}
