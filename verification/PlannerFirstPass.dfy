/** Who wins, loses or is turned away, told from the prepared items alone (planner.go:231-278). */
module PlannerFirstPass {
  import opened Basics
  import opened Sorting
  import opened PlannerModel
  import opened PlannerRanking
  import opened PlannerSuffix
  import opened PlannerCollisions
  import opened PlannerSafety

  /** The device is called `name`, up to folding. */
  predicate Shadows(p: Policy, w: Work, name: string) {
    w.plan.currentName != "" && p.fold(w.plan.currentName) == name
  }

  /** Two items fix the same name. */
  ghost predicate Clash(p: Policy, work: seq<Work>, key: string) {
    exists i: nat, j: nat :: i != j && FixedIn(p, work, key, i) && FixedIn(p, work, key, j)
  }

  predicate FixedIn(p: Policy, work: seq<Work>, key: string, i: nat) {
    InGroup(p, work, key, i) && work[i].authoritative
  }

  ghost function KeysBelow(p: Policy, work: seq<Work>, name: string): set<string> {
    set key | key in GroupKeySet(p, work) && Below(key, name)
  }

  lemma KeysBelowShrink(p: Policy, work: seq<Work>, m: nat, name: string)
    requires m < |work| && work[m].candidate && Below(KeyOf(p, work[m]), name)
    ensures |KeysBelow(p, work, KeyOf(p, work[m]))| < |KeysBelow(p, work, name)|
  {
    var key := KeyOf(p, work[m]);
    var small, large := KeysBelow(p, work, key), KeysBelow(p, work, name);
    forall k | k in small ensures k in large {
      CompareTransitive(k, key, name);
    }
    assert key in large && key !in small;
    SubsetSmaller(small, large);
  }

  /** A device outside the contest is called `name`, or one that a group below `name` turns away. */
  ghost predicate Held(p: Policy, work: seq<Work>, name: string)
    decreases |KeysBelow(p, work, name)|, 0
  {
    || (exists m: nat :: m < |work| && !work[m].candidate && Shadows(p, work[m], name))
    || (exists m: nat :: m < |work| && work[m].candidate && Shadows(p, work[m], name) && Below(KeyOf(p, work[m]), name)
                         && (KeysBelowShrink(p, work, m, name); TurnedAway(p, work, m)))
  }

  /** A fixed name that is held, or anything whose name two items fix. */
  ghost predicate TurnedAway(p: Policy, work: seq<Work>, i: nat)
    requires i < |work|
    decreases |KeysBelow(p, work, KeyOf(p, work[i]))|, 1
  {
    && work[i].candidate
    && (Clash(p, work, KeyOf(p, work[i])) || (work[i].authoritative && Held(p, work, KeyOf(p, work[i]))))
  }

  ghost predicate FixedElsewhere(p: Policy, work: seq<Work>, key: string) {
    exists j: nat :: FixedIn(p, work, key, j)
  }

  ghost predicate Outranked(p: Policy, work: seq<Work>, i: nat)
    requires i < |work|
  {
    exists j: nat :: InGroup(p, work, KeyOf(p, work[i]), j) && Beats(p, work[j], work[i])
  }

  /** The name is free, and nobody in the group has a better claim to it. */
  ghost predicate Wins(p: Policy, work: seq<Work>, i: nat)
    requires i < |work|
  {
    var key := KeyOf(p, work[i]);
    && work[i].candidate && !Held(p, work, key) && !Clash(p, work, key)
    && (work[i].authoritative || (!FixedElsewhere(p, work, key) && !Outranked(p, work, i)))
  }

  /** The name is held, fixed for somebody else, or somebody ranks better. */
  ghost predicate Loses(p: Policy, work: seq<Work>, i: nat)
    requires i < |work|
  {
    var key := KeyOf(p, work[i]);
    && work[i].candidate && !work[i].authoritative && !Clash(p, work, key)
    && (Held(p, work, key) || FixedElsewhere(p, work, key) || Outranked(p, work, i))
  }

  /** Two items fix the name, or the one that does finds it held. */
  ghost function WhyTurnedAway(p: Policy, work: seq<Work>, i: nat): Reason
    requires i < |work|
  {
    if Clash(p, work, KeyOf(p, work[i])) then AuthoritativeConflict else AuthoritativeTaken
  }

  ghost predicate Verdict(p: Policy, work: seq<Work>, i: nat, o: Outcome)
    requires i < |work|
  {
    && (o.Rejected? <==> TurnedAway(p, work, i)) && (o.Rejected? ==> o.reason == WhyTurnedAway(p, work, i))
    && (o == Won <==> Wins(p, work, i))
    && (o == Open <==> Loses(p, work, i))
  }

  // One group.

  lemma {:induction false} RejectFromTaken(p: Policy, work: seq<Work>, st: Stage, group: seq<nat>, k: nat,
          reason: Reason, name: string)
    requires |work| == |st.out| && Within(|work|, group)
    ensures name in RejectFrom(p, work, st, group, k, reason).taken
            <==> name in st.taken || exists j :: k <= j < |group| && Shadows(p, work[group[j]], name)
    decreases |group| - k
  {
    if k < |group| {
      RejectFromTaken(p, work, Reject(p, work, st, group[k], reason), group, k + 1, reason, name);
    }
  }

  /** The fixed items of a group: none, one, or a clash. */
  lemma FixedCount(p: Policy, work: seq<Work>, key: string)
    ensures var fixed := Authoritative(work, Group(p, work, key));
            && (forall i: nat :: i in fixed <==> FixedIn(p, work, key, i))
            && (|fixed| > 1 <==> Clash(p, work, key))
            && (|fixed| == 0 <==> !FixedElsewhere(p, work, key))
  {
    var group := Group(p, work, key);
    GroupMembers(p, work, key);
    AuthoritativeMembers(work, group);
    AuthoritativeOnce(work, group);
    var fixed := Authoritative(work, group);
    if |fixed| > 1 {
      assert fixed[0] in fixed && fixed[1] in fixed;
    }
    if |fixed| > 0 {
      assert fixed[0] in fixed;
    }
  }

  lemma {:induction false} AuthoritativeOnce(work: seq<Work>, group: seq<nat>)
    requires Within(|work|, group) && NoRepeats(group)
    ensures NoRepeats(Authoritative(work, group))
  {
    if group != [] {
      AuthoritativeOnce(work, group[1..]);
      AuthoritativeMembers(work, group[1..]);
    }
  }

  /** Names kept by bystanders and by the items turned away in the first `k` groups. */
  ghost predicate Kept(p: Policy, work: seq<Work>, keys: seq<string>, k: nat, name: string)
    requires k <= |keys|
  {
    || (exists m: nat :: m < |work| && !work[m].candidate && Shadows(p, work[m], name))
    || (exists m: nat ::
          m < |work| && KeyOf(p, work[m]) in keys[..k] && TurnedAway(p, work, m) && Shadows(p, work[m], name))
  }

  /** In front of its own group, what is kept is what is held. */
  lemma KeptIsHeld(p: Policy, work: seq<Work>, k: nat)
    requires k < |GroupKeys(p, work)|
    ensures Kept(p, work, GroupKeys(p, work), k, GroupKeys(p, work)[k]) <==> Held(p, work, GroupKeys(p, work)[k])
  {
    var keys := GroupKeys(p, work);
    var name := keys[k];
    forall m: nat | m < |work| && work[m].candidate
      ensures KeyOf(p, work[m]) in keys[..k] <==> Below(KeyOf(p, work[m]), name)
    {
      EarlierIsBelow(p, work, k, KeyOf(p, work[m]));
    }
  }

  lemma EarlierIsBelow(p: Policy, work: seq<Work>, k: nat, key: string)
    requires k < |GroupKeys(p, work)| && key in GroupKeySet(p, work)
    ensures key in GroupKeys(p, work)[..k] <==> Below(key, GroupKeys(p, work)[k])
  {
    var keys := GroupKeys(p, work);
    GroupKeysMembers(p, work);
    SortSetMembers(GroupKeySet(p, work), Below);
    assert key in Elements(keys);
    var a: nat :| a < |keys| && keys[a] == key;
    CompareFlips(keys[a], keys[k]);
    if Below(keys[a], keys[k]) {
      AscendingBefore(keys, Below, a, k);
      assert keys[..k][a] == key;
    }
  }

  lemma {:induction false} ReservedFromTells(p: Policy, work: seq<Work>, i: nat, names: set<string>, name: string)
    ensures name in ReservedFrom(p, work, i, names)
            <==> name in names || exists m: nat :: i <= m < |work| && !work[m].candidate && Shadows(p, work[m], name)
    decreases |work| - i
  {
    if i < |work| {
      ReservedFromTells(p, work, i + 1,
                        if work[i].candidate then names else Reserve(p, names, work[i].plan.currentName), name);
    }
  }

  /** One group's turn gives every member its verdict. */
  lemma GroupVerdicts(p: Policy, work: seq<Work>, key: string, st: Stage, i: nat)
    requires Ready(p, work) && |work| == |st.out| && GroupOpen(p, work, key, st) && InGroup(p, work, key, i)
    requires key in st.taken <==> Held(p, work, key)
    ensures Verdict(p, work, i, DecideGroup(p, work, key, st).out[i])
  {
    var group := Group(p, work, key);
    GroupMembers(p, work, key);
    FixedCount(p, work, key);
    var fixed := Authoritative(work, group);
    if |fixed| > 1 {
      RejectFromEffect(p, work, st, group, 0, AuthoritativeConflict);
      assert i in group;
    } else if |fixed| == 1 {
      SoleFixedVerdict(p, work, key, st, i, fixed[0]);
    } else {
      RankVerdict(p, work, key, st, i);
    }
  }

  lemma SoleFixedVerdict(p: Policy, work: seq<Work>, key: string, st: Stage, i: nat, f: nat)
    requires |work| == |st.out| && GroupOpen(p, work, key, st) && InGroup(p, work, key, i)
    requires key in st.taken <==> Held(p, work, key)
    requires |Authoritative(work, Group(p, work, key))| == 1 && f == Authoritative(work, Group(p, work, key))[0]
    ensures Verdict(p, work, i, DecideGroup(p, work, key, st).out[i])
  {
    FixedCount(p, work, key);
    assert f in Authoritative(work, Group(p, work, key));
    assert FixedIn(p, work, key, f);
    if work[i].authoritative {
      assert FixedIn(p, work, key, i);
      assert i == f;
    }
  }

  lemma RankVerdict(p: Policy, work: seq<Work>, key: string, st: Stage, i: nat)
    requires Ready(p, work) && |work| == |st.out| && GroupOpen(p, work, key, st) && InGroup(p, work, key, i)
    requires key in st.taken <==> Held(p, work, key)
    requires Authoritative(work, Group(p, work, key)) == []
    ensures Verdict(p, work, i, DecideGroup(p, work, key, st).out[i])
  {
    FixedCount(p, work, key);
    GroupMembers(p, work, key);
    assert !work[i].authoritative by {
      assert FixedIn(p, work, key, i) <==> work[i].authoritative;
    }
    FirstIsBest(p, work, key, i);
    assert i in Group(p, work, key);
  }

  /** The first in order is the one nobody outranks. */
  lemma FirstIsBest(p: Policy, work: seq<Work>, key: string, i: nat)
    requires Ready(p, work) && InGroup(p, work, key, i)
    ensures Order(p, work, key) != [] && (Order(p, work, key)[0] == i <==> !Outranked(p, work, i))
  {
    var order := Order(p, work, key);
    OrderNoRepeats(p, work, key);
    assert i in order;
    var a: nat :| a < |order| && order[a] == i;
    var first := order[0];
    assert first in order;
    if a > 0 {
      assert PositionBeats(p, work)(order[0], order[a]);
      assert InGroup(p, work, KeyOf(p, work[i]), first);
    } else if Outranked(p, work, i) {
      var j: nat :| InGroup(p, work, KeyOf(p, work[i]), j) && Beats(p, work[j], work[i]);
      assert j in order;
      var b: nat :| b < |order| && order[b] == j;
      BeatsConnected(p, work[j], work[i]);
      AscendingBefore(order, PositionBeats(p, work), b, a);
    }
  }

  /** One group's turn keeps exactly the names of the members it turns away. */
  lemma GroupTaken(p: Policy, work: seq<Work>, key: string, st: Stage, name: string)
    requires |work| == |st.out| && (key in st.taken <==> Held(p, work, key))
    ensures name in DecideGroup(p, work, key, st).taken
            <==> name in st.taken
                 || exists m: nat :: InGroup(p, work, key, m) && TurnedAway(p, work, m) && Shadows(p, work[m], name)
  {
    var group := Group(p, work, key);
    GroupMembers(p, work, key);
    FixedCount(p, work, key);
    var fixed := Authoritative(work, group);
    if |fixed| > 1 {
      RejectFromTaken(p, work, st, group, 0, AuthoritativeConflict, name);
      ClashTaken(p, work, key, group, name);
    } else if |fixed| == 1 {
      SoleFixedTaken(p, work, key, st, fixed[0], name);
    } else {
      forall m: nat | InGroup(p, work, key, m) ensures !TurnedAway(p, work, m) {
        assert FixedIn(p, work, key, m) <==> work[m].authoritative;
      }
    }
  }

  lemma ClashTaken(p: Policy, work: seq<Work>, key: string, group: seq<nat>, name: string)
    requires group == Group(p, work, key) && Clash(p, work, key)
    ensures (exists j :: 0 <= j < |group| && Shadows(p, work[group[j]], name))
            <==> exists m: nat :: InGroup(p, work, key, m) && TurnedAway(p, work, m) && Shadows(p, work[m], name)
  {
    GroupMembers(p, work, key);
    if j :| 0 <= j < |group| && Shadows(p, work[group[j]], name) {
      assert group[j] in group && InGroup(p, work, key, group[j]);
    }
    if m: nat :| InGroup(p, work, key, m) && TurnedAway(p, work, m) && Shadows(p, work[m], name) {
      assert m in group;
    }
  }

  lemma SoleFixedTaken(p: Policy, work: seq<Work>, key: string, st: Stage, f: nat, name: string)
    requires |work| == |st.out| && (key in st.taken <==> Held(p, work, key))
    requires |Authoritative(work, Group(p, work, key))| == 1 && f == Authoritative(work, Group(p, work, key))[0]
    ensures name in DecideGroup(p, work, key, st).taken
            <==> name in st.taken
                 || exists m: nat :: InGroup(p, work, key, m) && TurnedAway(p, work, m) && Shadows(p, work[m], name)
  {
    FixedCount(p, work, key);
    assert f in Authoritative(work, Group(p, work, key));
    assert FixedIn(p, work, key, f);
    forall m: nat | InGroup(p, work, key, m) ensures TurnedAway(p, work, m) <==> m == f && Held(p, work, key) {
      if work[m].authoritative {
        assert FixedIn(p, work, key, m);
      }
    }
  }

  /** The first pass before group `k`. */
  ghost predicate Passed(p: Policy, work: seq<Work>, k: nat, st: Stage)
    requires k <= |GroupKeys(p, work)|
  {
    && |st.out| == |work|
    && (forall name :: name in st.taken <==> Kept(p, work, GroupKeys(p, work), k, name))
    && (forall i: nat | i < |work| && work[i].candidate && KeyOf(p, work[i]) in GroupKeys(p, work)[..k] ::
          Verdict(p, work, i, st.out[i]))
    && (forall i: nat | i < |work| && !(work[i].candidate && KeyOf(p, work[i]) in GroupKeys(p, work)[..k]) ::
          st.out[i] == Open)
  }

  lemma KeyNotEarlier(p: Policy, work: seq<Work>, k: nat)
    requires k < |GroupKeys(p, work)|
    ensures GroupKeys(p, work)[k] !in GroupKeys(p, work)[..k]
    ensures GroupKeys(p, work)[..k + 1] == GroupKeys(p, work)[..k] + [GroupKeys(p, work)[k]]
  {
    GroupKeysMembers(p, work);
  }

  lemma PassedTaken(p: Policy, work: seq<Work>, k: nat, st: Stage, name: string)
    requires k < |GroupKeys(p, work)| && Passed(p, work, k, st)
    ensures name in DecideGroup(p, work, GroupKeys(p, work)[k], st).taken
            <==> Kept(p, work, GroupKeys(p, work), k + 1, name)
  {
    var keys := GroupKeys(p, work);
    KeptIsHeld(p, work, k);
    KeyNotEarlier(p, work, k);
    GroupTaken(p, work, keys[k], st, name);
    if m: nat :| InGroup(p, work, keys[k], m) && TurnedAway(p, work, m) && Shadows(p, work[m], name) {
      assert KeyOf(p, work[m]) in keys[..k + 1];
    }
  }

  lemma PassedOne(p: Policy, work: seq<Work>, k: nat, st: Stage)
    requires Ready(p, work) && k < |GroupKeys(p, work)| && Passed(p, work, k, st)
    ensures Passed(p, work, k + 1, DecideGroup(p, work, GroupKeys(p, work)[k], st))
  {
    var key := GroupKeys(p, work)[k];
    var next := DecideGroup(p, work, key, st);
    KeptIsHeld(p, work, k);
    KeyNotEarlier(p, work, k);
    DecideGroupFrame(p, work, key, st);
    forall name ensures name in next.taken <==> Kept(p, work, GroupKeys(p, work), k + 1, name) {
      PassedTaken(p, work, k, st, name);
    }
    forall i: nat | InGroup(p, work, key, i) ensures Verdict(p, work, i, next.out[i]) {
      GroupVerdicts(p, work, key, st, i);
    }
  }

  lemma {:induction false} PassedFrom(p: Policy, work: seq<Work>, k: nat, st: Stage)
    requires Ready(p, work) && k <= |GroupKeys(p, work)| && Passed(p, work, k, st)
    ensures Passed(p, work, |GroupKeys(p, work)|, DecideFrom(p, work, GroupKeys(p, work), k, st))
    decreases |GroupKeys(p, work)| - k
  {
    if k < |GroupKeys(p, work)| {
      PassedOne(p, work, k, st);
      PassedFrom(p, work, k + 1, DecideGroup(p, work, GroupKeys(p, work)[k], st));
    }
  }

  lemma PassedAtStart(p: Policy, work: seq<Work>)
    ensures Passed(p, work, 0, Start(p, work))
  {
    forall name ensures name in Start(p, work).taken <==> Kept(p, work, GroupKeys(p, work), 0, name) {
      ReservedFromTells(p, work, 0, {}, name);
    }
  }

  /**
   * The first pass, told from its input alone: a candidate is turned away exactly if its name
   * clashes or is fixed and held, wins exactly if the name is free and nobody has a better claim,
   * and is left to be numbered exactly if it loses.
   */
  lemma FirstPassExactly(p: Policy, work: seq<Work>, i: nat)
    requires Ready(p, work) && i < |work| && work[i].candidate
    ensures Decided(p, work).out[i].Rejected? <==> TurnedAway(p, work, i)
    ensures Decided(p, work).out[i].Rejected? ==> Decided(p, work).out[i].reason == WhyTurnedAway(p, work, i)
    ensures Decided(p, work).out[i] == Won <==> Wins(p, work, i)
    ensures Decided(p, work).out[i] == Open <==> Loses(p, work, i)
  {
    var keys := GroupKeys(p, work);
    PassedAtStart(p, work);
    PassedFrom(p, work, 0, Start(p, work));
    GroupKeysMembers(p, work);
    assert keys[..|keys|] == keys;
  }

  /** Afterwards taken are the names of bystanders and of everybody turned away. */
  lemma TakenExactly(p: Policy, work: seq<Work>, name: string)
    requires Ready(p, work)
    ensures name in Decided(p, work).taken
            <==> exists m: nat ::
                   m < |work| && (!work[m].candidate || TurnedAway(p, work, m)) && Shadows(p, work[m], name)
  {
    var keys := GroupKeys(p, work);
    PassedAtStart(p, work);
    PassedFrom(p, work, 0, Start(p, work));
    GroupKeysMembers(p, work);
    assert keys[..|keys|] == keys;
    assert name in Decided(p, work).taken <==> Kept(p, work, keys, |keys|, name);
  }

  // When nobody is turned away.

  /** No two items fix one name, and no device outside the contest is called by a fixed name. */
  ghost predicate FixedNamesFree(p: Policy, work: seq<Work>) {
    && (forall i: nat | i < |work| :: !Clash(p, work, KeyOf(p, work[i])))
    && (forall i: nat, m: nat | i < |work| && m < |work| && work[i].candidate && work[i].authoritative
          && !work[m].candidate ::
          !Shadows(p, work[m], KeyOf(p, work[i])))
  }

  lemma {:induction false} FreeMeansKept(p: Policy, work: seq<Work>, i: nat)
    requires FixedNamesFree(p, work) && i < |work|
    ensures !TurnedAway(p, work, i)
    decreases |KeysBelow(p, work, KeyOf(p, work[i]))|
  {
    if TurnedAway(p, work, i) {
      var name := KeyOf(p, work[i]);
      assert Held(p, work, name);
      assert forall m: nat | m < |work| && !work[m].candidate :: !Shadows(p, work[m], name);
      var m: nat :| m < |work| && work[m].candidate && Shadows(p, work[m], name) && Below(KeyOf(p, work[m]), name)
                    && TurnedAway(p, work, m);
      KeysBelowShrink(p, work, m, name);
      FreeMeansKept(p, work, m);
    }
  }

  /** The first pass turns nobody away exactly if the fixed names are free. */
  lemma NobodyTurnedAwayExactly(p: Policy, work: seq<Work>)
    requires Ready(p, work)
    ensures (forall i: nat | i < |work| :: !Decided(p, work).out[i].Rejected?) <==> FixedNamesFree(p, work)
  {
    DecidedGroups(p, work);
    forall i: nat | i < |work| && work[i].candidate
      ensures Decided(p, work).out[i].Rejected? <==> TurnedAway(p, work, i)
    {
      FirstPassExactly(p, work, i);
    }
    if FixedNamesFree(p, work) {
      forall i: nat | i < |work| ensures !TurnedAway(p, work, i) {
        FreeMeansKept(p, work, i);
      }
    } else {
      NotFreeTurnsAway(p, work);
    }
  }

  lemma NotFreeTurnsAway(p: Policy, work: seq<Work>)
    requires !FixedNamesFree(p, work)
    ensures exists i: nat :: i < |work| && TurnedAway(p, work, i)
  {
    if i: nat :| i < |work| && Clash(p, work, KeyOf(p, work[i])) {
      var a: nat, b: nat :| a != b && FixedIn(p, work, KeyOf(p, work[i]), a) && FixedIn(p, work, KeyOf(p, work[i]), b);
      assert TurnedAway(p, work, a);
    } else {
      var i: nat, m: nat :| i < |work| && m < |work| && work[i].candidate && work[i].authoritative && !work[m].candidate
                            && Shadows(p, work[m], KeyOf(p, work[i]));
      assert Held(p, work, KeyOf(p, work[i]));
      assert TurnedAway(p, work, i);
    }
  }
}
