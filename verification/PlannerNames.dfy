/** Names that come out of collision resolution: distinct, valid, and numbered in order. */
module PlannerNames {
  import opened PlannerModel
  import opened PlannerRanking
  import opened PlannerSuffix
  import opened PlannerCollisions
  import opened PlannerSafety

  predicate Settled(o: Outcome) {
    o == Won || o.Numbered?
  }

  function FinalName(w: Work, o: Outcome): string {
    if o.Numbered? then o.name else w.plan.desiredName
  }

  /** The folded current name of item `i` counts as taken, unless it is empty. */
  ghost predicate KeepsName(p: Policy, w: Work, taken: set<string>) {
    w.plan.currentName != "" ==> p.fold(w.plan.currentName) in taken
  }

  /** A suffix chosen while `taken` was taken. */
  ghost predicate ChosenFrom(p: Policy, w: Work, taken: set<string>, o: Outcome)
    requires o.Numbered?
  {
    && !w.authoritative
    && 1 <= o.sequence <= MAX_SEQUENCE
    && o.name == Suffixed(p, w.plan.desiredName, o.sequence)
    && LeastUsable(p, w.plan.desiredName, w.record.device.platform, taken, 1, Found(o.sequence, o.name))
  }

  lemma NumberItemEffect(p: Policy, work: seq<Work>, i: nat, st: Stage)
    requires i < |work| == |st.out|
    ensures st.taken <= NumberItem(p, work, i, st).taken
    ensures forall j | 0 <= j < |work| && j != i :: NumberItem(p, work, i, st).out[j] == st.out[j]
    ensures st.out[i] != Open ==> NumberItem(p, work, i, st) == st
    ensures st.out[i] == Open ==>
              var r := NumberItem(p, work, i, st);
              && (r.out[i].Numbered? || r.out[i].Rejected?)
              && (r.out[i].Numbered? ==> ChosenFrom(p, work[i], st.taken, r.out[i]) && p.fold(r.out[i].name) in r.taken)
              && (r.out[i].Rejected? ==> KeepsName(p, work[i], r.taken))
  {
    SearchExact(p, work[i].plan.desiredName, work[i].record.device.platform, st.taken);
  }

  /** What holds of item `i` once the items `order[k..]` have had their turn. */
  ghost predicate Progress(p: Policy, w: Work, taken: set<string>, later: set<string>, before: Outcome,
          after: Outcome) {
    if before != Open then after == before
    else
      && after != Won
      && (after.Numbered? ==>
            && p.fold(after.name) !in taken
            && p.fold(after.name) in later
            && InvalidName(p, after.name, w.record.device.platform) == NoFault
            && !w.authoritative)
      && (after.Rejected? ==> KeepsName(p, w, later))
  }

  lemma {:induction false} NumberItemsProgress(p: Policy, work: seq<Work>, order: seq<nat>, k: nat, st: Stage)
    requires |work| == |st.out| && Within(|work|, order)
    ensures st.taken <= NumberItems(p, work, order, k, st).taken
    ensures forall i | 0 <= i < |work| ::
              Progress(p, work[i], st.taken, NumberItems(p, work, order, k, st).taken, st.out[i],
                       NumberItems(p, work, order, k, st).out[i])
    ensures forall j | k <= j < |order| :: NumberItems(p, work, order, k, st).out[order[j]] != Open
    decreases |order| - k
  {
    if k < |order| {
      NumberItemEffect(p, work, order[k], st);
      NumberItemsProgress(p, work, order, k + 1, NumberItem(p, work, order[k], st));
    }
  }

  lemma {:induction false} NumberItemsFrame(p: Policy, work: seq<Work>, order: seq<nat>, k: nat, st: Stage, i: nat)
    requires |work| == |st.out| && Within(|work|, order) && i < |work|
    requires forall j | k <= j < |order| :: order[j] != i
    ensures NumberItems(p, work, order, k, st).out[i] == st.out[i]
    decreases |order| - k
  {
    if k < |order| {
      NumberItemEffect(p, work, order[k], st);
      NumberItemsFrame(p, work, order, k + 1, NumberItem(p, work, order[k], st), i);
    }
  }

  /** Every settled item holds its own folded name. */
  ghost predicate NamesHeld(p: Policy, work: seq<Work>, st: Stage)
    requires |work| == |st.out|
  {
    && (forall i | 0 <= i < |work| && Settled(st.out[i]) :: p.fold(FinalName(work[i], st.out[i])) in st.taken)
    && (forall i, j | 0 <= i < j < |work| && Settled(st.out[i]) && Settled(st.out[j]) ::
          p.fold(FinalName(work[i], st.out[i])) != p.fold(FinalName(work[j], st.out[j])))
  }

  lemma NumberItemHolds(p: Policy, work: seq<Work>, i: nat, st: Stage)
    requires i < |work| == |st.out| && NamesHeld(p, work, st)
    ensures NamesHeld(p, work, NumberItem(p, work, i, st))
  {
    NumberItemEffect(p, work, i, st);
    var r := NumberItem(p, work, i, st);
    if st.out[i] == Open {
      forall j | 0 <= j < |work| && j != i && Settled(r.out[j]) && Settled(r.out[i])
        ensures p.fold(FinalName(work[i], r.out[i])) != p.fold(FinalName(work[j], r.out[j]))
      {
        assert r.out[j] == st.out[j];
        assert p.fold(FinalName(work[j], st.out[j])) in st.taken;
        assert Usable(p, work[i].plan.desiredName, work[i].record.device.platform, st.taken, r.out[i].sequence);
      }
    }
  }

  lemma {:induction false} NumberItemsHold(p: Policy, work: seq<Work>, order: seq<nat>, k: nat, st: Stage)
    requires |work| == |st.out| && Within(|work|, order) && NamesHeld(p, work, st)
    ensures NamesHeld(p, work, NumberItems(p, work, order, k, st))
    decreases |order| - k
  {
    if k < |order| {
      NumberItemHolds(p, work, order[k], st);
      NumberItemsHold(p, work, order, k + 1, NumberItem(p, work, order[k], st));
    }
  }

  lemma OccupiedHolds(p: Policy, work: seq<Work>)
    ensures NamesHeld(p, work, Occupied(p, work))
  {
    DecidedGroups(p, work);
    var st := Occupied(p, work);
    forall i | 0 <= i < |work| ensures !st.out[i].Numbered? && (st.out[i] == Won ==> work[i].candidate) {
      if work[i].candidate {
        assert GroupDecided(p, work, KeyOf(p, work[i]), Decided(p, work));
        assert InGroup(p, work, KeyOf(p, work[i]), i);
      }
    }
    forall i: nat, j: nat | i < j < |work| && st.out[i] == Won && st.out[j] == Won
      ensures KeyOf(p, work[i]) != KeyOf(p, work[j])
    {
      var key := KeyOf(p, work[i]);
      assert GroupDecided(p, work, key, Decided(p, work)) && InGroup(p, work, key, i);
      assert KeyOf(p, work[j]) == key ==> InGroup(p, work, key, j);
    }
  }

  lemma ResolvedFlat(p: Policy, work: seq<Work>)
    ensures Resolved(p, work) == NumberItems(p, work, Traversal(p, work), 0, Occupied(p, work))
  {
    NumberFromFlat(p, work, GroupKeys(p, work), 0, Occupied(p, work));
  }

  /** The two passes together, item by item. */
  lemma ResolvedItems(p: Policy, work: seq<Work>)
    ensures Occupied(p, work).taken <= Resolved(p, work).taken
    ensures forall i | 0 <= i < |work| ::
              Progress(p, work[i], Occupied(p, work).taken, Resolved(p, work).taken, Decided(p, work).out[i],
                       Resolved(p, work).out[i])
    ensures NamesHeld(p, work, Resolved(p, work))
  {
    ResolvedFlat(p, work);
    NumberItemsProgress(p, work, Traversal(p, work), 0, Occupied(p, work));
    OccupiedHolds(p, work);
    NumberItemsHold(p, work, Traversal(p, work), 0, Occupied(p, work));
  }

  lemma TraversalVisits(p: Policy, work: seq<Work>, i: nat)
    requires Ready(p, work) && i < |work|
    ensures i in Traversal(p, work) <==> work[i].candidate
  {
    var keys := GroupKeys(p, work);
    GroupKeysMembers(p, work);
    TraversalMembers(p, work, keys, 0);
    if work[i].candidate {
      var j :| 0 <= j < |keys| && keys[j] == KeyOf(p, work[i]);
      assert InGroup(p, work, keys[j], i);
    }
  }

  /** Candidates end up settled or rejected; everything else is left undecided. */
  lemma ResolvedTotal(p: Policy, work: seq<Work>, i: nat)
    requires Ready(p, work) && i < |work|
    ensures Resolved(p, work).out[i] == Open <==> !work[i].candidate
  {
    var t := Traversal(p, work);
    ResolvedFlat(p, work);
    TraversalVisits(p, work, i);
    if work[i].candidate {
      var k :| 0 <= k < |t| && t[k] == i;
      NumberItemsProgress(p, work, t, 0, Occupied(p, work));
    } else {
      DecidedGroups(p, work);
      NumberItemsFrame(p, work, t, 0, Occupied(p, work), i);
    }
  }

  /** A group that reaches the second pass has its plain name taken. */
  lemma OpenGroupTaken(p: Policy, work: seq<Work>, i: nat)
    requires i < |work| && work[i].candidate && Decided(p, work).out[i] == Open
    ensures KeyOf(p, work[i]) in Occupied(p, work).taken
    ensures !work[i].authoritative
  {
    DecidedGroups(p, work);
    var st, key := Decided(p, work), KeyOf(p, work[i]);
    assert GroupDecided(p, work, key, st) && InGroup(p, work, key, i);
    if key !in st.taken {
      var w: nat :| InGroup(p, work, key, w) && st.out[w] == Won;
      assert KeyOf(p, work[w]) in WinnerNames(p, work, st.out);
    }
  }

  // Names held by devices that are left alone.

  lemma {:induction false} ReservedFromHas(p: Policy, work: seq<Work>, i: nat, names: set<string>)
    ensures names <= ReservedFrom(p, work, i, names)
    ensures forall j | i <= j < |work| && !work[j].candidate :: KeepsName(p, work[j], ReservedFrom(p, work, i, names))
    decreases |work| - i
  {
    if i < |work| {
      ReservedFromHas(p, work, i + 1, if work[i].candidate then names else Reserve(p, names, work[i].plan.currentName));
    }
  }

  /** No settled name meets the current name of a device that was no candidate on entry. */
  lemma SettledAvoidsBystanders(p: Policy, work: seq<Work>, i: nat, j: nat)
    requires i < |work| && j < |work|
    requires Settled(Resolved(p, work).out[i])
    requires !work[j].candidate && work[j].plan.currentName != ""
    ensures p.fold(FinalName(work[i], Resolved(p, work).out[i])) != p.fold(work[j].plan.currentName)
  {
    var reserved := ReservedFrom(p, work, 0, {});
    ReservedFromHas(p, work, 0, {});
    DecidedGroups(p, work);
    ResolvedItems(p, work);
    if Decided(p, work).out[i] == Won {
      DecideFromWinner(p, work, GroupKeys(p, work), 0, Start(p, work), i);
    } else if Decided(p, work).out[i].Numbered? {
      assert GroupDecided(p, work, KeyOf(p, work[i]), Decided(p, work));
      assert InGroup(p, work, KeyOf(p, work[i]), i);
    }
  }

  // Positions in the second pass.

  /** The stage just before position `a` of the second pass. */
  ghost function StageAt(p: Policy, work: seq<Work>, a: nat): (st: Stage)
    requires a <= |Traversal(p, work)|
    ensures |st.out| == |work|
  {
    NumberItems(p, work, Traversal(p, work)[..a], 0, Occupied(p, work))
  }

  lemma StageAtSteps(p: Policy, work: seq<Work>, a: nat)
    requires a < |Traversal(p, work)|
    ensures StageAt(p, work, a + 1) == NumberItem(p, work, Traversal(p, work)[a], StageAt(p, work, a))
  {
    var t := Traversal(p, work);
    assert t[..a + 1] == t[..a] + [t[a]];
    NumberItemsSplit(p, work, t[..a], [t[a]], 0, Occupied(p, work));
    var st := StageAt(p, work, a);
    assert NumberItems(p, work, [t[a]], 0, st) == NumberItems(p, work, [t[a]], 1, NumberItem(p, work, t[a], st));
  }

  lemma StageAtRest(p: Policy, work: seq<Work>, a: nat, b: nat)
    requires a <= b <= |Traversal(p, work)|
    ensures StageAt(p, work, b) == NumberItems(p, work, Traversal(p, work)[a..b], 0, StageAt(p, work, a))
  {
    var t := Traversal(p, work);
    assert t[..b] == t[..a] + t[a..b];
    NumberItemsSplit(p, work, t[..a], t[a..b], 0, Occupied(p, work));
  }

  /** An item numbered at position `a` was undecided until then and chose its name there. */
  lemma NumberedAt(p: Policy, work: seq<Work>, a: nat)
    requires Ready(p, work) && a < |Traversal(p, work)|
    requires Resolved(p, work).out[Traversal(p, work)[a]].Numbered?
    ensures StageAt(p, work, a).out[Traversal(p, work)[a]] == Open
    ensures StageAt(p, work, a + 1).out[Traversal(p, work)[a]] == Resolved(p, work).out[Traversal(p, work)[a]]
    ensures ChosenFrom(p, work[Traversal(p, work)[a]], StageAt(p, work, a).taken,
                       Resolved(p, work).out[Traversal(p, work)[a]])
  {
    var t := Traversal(p, work);
    var i := t[a];
    GroupKeysMembers(p, work);
    TraversalMembers(p, work, GroupKeys(p, work), 0);
    ResolvedFlat(p, work);
    assert t[..|t|] == t;
    NumberItemsFrame(p, work, t[..a], 0, Occupied(p, work), i);
    StageAtSteps(p, work, a);
    NumberItemEffect(p, work, i, StageAt(p, work, a));
    StageAtRest(p, work, a + 1, |t|);
    NumberItemsProgress(p, work, t[a + 1..|t|], 0, StageAt(p, work, a + 1));
    OccupiedHasNoNumbers(p, work, i);
  }

  /** A suffixed name is the plain name with its number. */
  lemma NumberedName(p: Policy, work: seq<Work>, i: nat)
    requires Ready(p, work) && i < |work| && work[i].candidate && Resolved(p, work).out[i].Numbered?
    ensures 1 <= Resolved(p, work).out[i].sequence <= MAX_SEQUENCE
    ensures Resolved(p, work).out[i].name == Suffixed(p, work[i].plan.desiredName, Resolved(p, work).out[i].sequence)
  {
    TraversalVisits(p, work, i);
    var a :| 0 <= a < |Traversal(p, work)| && Traversal(p, work)[a] == i;
    NumberedAt(p, work, a);
  }

  lemma OccupiedHasNoNumbers(p: Policy, work: seq<Work>, i: nat)
    requires i < |work|
    ensures !Occupied(p, work).out[i].Numbered?
  {
    DecidedGroups(p, work);
    if work[i].candidate {
      assert GroupDecided(p, work, KeyOf(p, work[i]), Decided(p, work));
      assert InGroup(p, work, KeyOf(p, work[i]), i);
    }
  }

  /**
   * A suffixed name never equals the name kept by a device whose item was invalidated before
   * that suffix was chosen: in the first pass, or at an earlier position of the second.
   */
  lemma SuffixAvoidsEarlierRejects(p: Policy, work: seq<Work>, a: nat, b: nat)
    requires Ready(p, work)
    requires a < |Traversal(p, work)| && b < |Traversal(p, work)|
    requires Resolved(p, work).out[Traversal(p, work)[a]].Rejected?
    requires Decided(p, work).out[Traversal(p, work)[a]].Rejected? || a < b
    requires work[Traversal(p, work)[a]].plan.currentName != ""
    requires Resolved(p, work).out[Traversal(p, work)[b]].Numbered?
    ensures p.fold(work[Traversal(p, work)[a]].plan.currentName)
            != p.fold(Resolved(p, work).out[Traversal(p, work)[b]].name)
  {
    var i, j := Traversal(p, work)[a], Traversal(p, work)[b];
    NumberedAt(p, work, b);
    if Decided(p, work).out[i].Rejected? {
      RejectedFirst(p, work, i, b);
    } else {
      RejectedAt(p, work, a);
      StageAtRest(p, work, a + 1, b);
      NumberItemsProgress(p, work, Traversal(p, work)[a + 1..b], 0, StageAt(p, work, a + 1));
    }
    assert Usable(p, work[j].plan.desiredName, work[j].record.device.platform, StageAt(p, work, b).taken,
           Resolved(p, work).out[j].sequence);
  }

  lemma RejectedFirst(p: Policy, work: seq<Work>, i: nat, b: nat)
    requires i < |work| && b <= |Traversal(p, work)| && Decided(p, work).out[i].Rejected?
    ensures KeepsName(p, work[i], StageAt(p, work, b).taken)
  {
    DecidedGroups(p, work);
    assert GroupDecided(p, work, KeyOf(p, work[i]), Decided(p, work));
    assert InGroup(p, work, KeyOf(p, work[i]), i);
    NumberItemsProgress(p, work, Traversal(p, work)[..b], 0, Occupied(p, work));
  }

  lemma RejectedAt(p: Policy, work: seq<Work>, a: nat)
    requires Ready(p, work) && a < |Traversal(p, work)|
    requires Resolved(p, work).out[Traversal(p, work)[a]].Rejected?
    requires !Decided(p, work).out[Traversal(p, work)[a]].Rejected?
    ensures KeepsName(p, work[Traversal(p, work)[a]], StageAt(p, work, a + 1).taken)
  {
    var t := Traversal(p, work);
    var i := t[a];
    GroupKeysMembers(p, work);
    TraversalMembers(p, work, GroupKeys(p, work), 0);
    ResolvedFlat(p, work);
    assert t[..|t|] == t;
    NumberItemsFrame(p, work, t[..a], 0, Occupied(p, work), i);
    StageAtSteps(p, work, a);
    NumberItemEffect(p, work, i, StageAt(p, work, a));
    StageAtRest(p, work, a + 1, |t|);
    NumberItemsProgress(p, work, t[a + 1..|t|], 0, StageAt(p, work, a + 1));
  }

  /** What is taken when a suffix is chosen, and the suffixed name, stays taken. */
  lemma ChosenStaysTaken(p: Policy, work: seq<Work>, a: nat, b: nat)
    requires Ready(p, work) && a < b <= |Traversal(p, work)|
    requires Resolved(p, work).out[Traversal(p, work)[a]].Numbered?
    ensures StageAt(p, work, a).taken <= StageAt(p, work, b).taken
    ensures p.fold(Resolved(p, work).out[Traversal(p, work)[a]].name) in StageAt(p, work, b).taken
  {
    var t := Traversal(p, work);
    NumberedAt(p, work, a);
    StageAtSteps(p, work, a);
    NumberItemEffect(p, work, t[a], StageAt(p, work, a));
    StageAtRest(p, work, a + 1, b);
    NumberItemsProgress(p, work, t[a + 1..b], 0, StageAt(p, work, a + 1));
  }

  /**
   * Among losers with the same base name, sequence numbers strictly increase in the order of
   * the second pass, whatever the length limits of their platforms.
   */
  lemma NumbersIncrease(p: Policy, work: seq<Work>, a: nat, b: nat)
    requires Ready(p, work)
    requires a < b < |Traversal(p, work)|
    requires work[Traversal(p, work)[a]].plan.desiredName == work[Traversal(p, work)[b]].plan.desiredName
    requires Resolved(p, work).out[Traversal(p, work)[a]].Numbered?
    requires Resolved(p, work).out[Traversal(p, work)[b]].Numbered?
    ensures Resolved(p, work).out[Traversal(p, work)[a]].sequence
            < Resolved(p, work).out[Traversal(p, work)[b]].sequence
  {
    var i, j := Traversal(p, work)[a], Traversal(p, work)[b];
    NumberedAt(p, work, a);
    NumberedAt(p, work, b);
    ChosenStaysTaken(p, work, a, b);
    SequencesIncrease(p, work[i], work[j], StageAt(p, work, a).taken, StageAt(p, work, b).taken,
                      Resolved(p, work).out[i], Resolved(p, work).out[j]);
  }

  lemma SequencesIncrease(p: Policy, first: Work, second: Work, before: set<string>, after: set<string>, m: Outcome,
          n: Outcome)
    requires m.Numbered? && n.Numbered?
    requires first.plan.desiredName == second.plan.desiredName
    requires ChosenFrom(p, first, before, m) && ChosenFrom(p, second, after, n)
    requires before <= after && p.fold(m.name) in after
    ensures m.sequence < n.sequence
  {
    var base := first.plan.desiredName;
    assert Usable(p, base, first.record.device.platform, before, m.sequence);
    assert Usable(p, base, second.record.device.platform, after, n.sequence);
    if n.sequence < m.sequence {
      assert !Usable(p, base, first.record.device.platform, before, n.sequence);
      TooLongStays(p, base, first.record.device.platform, n.sequence, m.sequence);
    }
  }
}
