/** Exactly when a plan leaves no two devices with one name (planner.go:231-305). */
module PlannerNoCollision {
  import opened Basics
  import opened PlannerModel
  import opened PlannerRanking
  import opened PlannerSuffix
  import opened PlannerCollisions
  import opened PlannerNames
  import opened PlannerFirstPass
  import opened PlannerRoom
  import opened PlannerSecondPass
  import opened PlannerPlan

  // One winner and one device that is called what it is given.

  lemma EarlierMeansHeld(p: Policy, work: seq<Work>, j: nat, name: string)
    requires j < |work| && TurnedAway(p, work, j) && Shadows(p, work[j], name)
    ensures Below(KeyOf(p, work[j]), name) ==> Held(p, work, name)
  {
  }

  /** The group of a device turned away although it is called what a winner is given comes later. */
  lemma MetGroupIsLater(p: Policy, work: seq<Work>, i: nat, j: nat)
    requires i < |work| && j < |work| && Wins(p, work, i) && TurnedAway(p, work, j)
             && Shadows(p, work[j], KeyOf(p, work[i]))
    ensures Below(KeyOf(p, work[i]), KeyOf(p, work[j]))
  {
    var mine, theirs := KeyOf(p, work[i]), KeyOf(p, work[j]);
    CompareFlips(mine, theirs);
    EarlierMeansHeld(p, work, j, mine);
  }

  /** The device is not renamed away from its name, so the winner meets it. */
  ghost predicate Collides(p: Policy, work: seq<Work>, j: nat)
    requires j < |work|
  {
    !Settled(Resolved(p, work).out[j])
  }

  /**
   * A winner is given a name that another candidate is called and keeps exactly if that candidate's
   * group comes later and turns it away, or it loses and finds all its suffixed names taken.
   */
  lemma WinnerMeetsExactly(p: Policy, work: seq<Work>, i: nat, j: nat)
    requires Ready(p, work) && i < |work| && j < |work| && i != j
    requires Wins(p, work, i) && work[j].candidate && Shadows(p, work[j], KeyOf(p, work[i]))
    ensures Resolved(p, work).out[i] == Won
    ensures Collides(p, work, j) <==>
            || (Below(KeyOf(p, work[i]), KeyOf(p, work[j])) && TurnedAway(p, work, j))
            || (Loses(p, work, j) && OutOfSuffixes(p, work, j))
  {
    SettledFromTheStart(p, work, i);
    ResolvedTotal(p, work, j);
    if Loses(p, work, j) {
      SecondPassExactly(p, work, j);
    } else {
      SettledFromTheStart(p, work, j);
      if TurnedAway(p, work, j) {
        MetGroupIsLater(p, work, i, j);
      }
    }
  }

  // The whole plan.

  /** The name a device has once the plan has taken effect. */
  function EndName(item: Item): string {
    if Finished(item) then item.desiredName else item.currentName
  }

  /** No finished name is, up to folding, the name any other named device ends up with. */
  ghost predicate CollisionFree(p: Policy, records: seq<Record>) {
    forall i: nat, j: nat | i < |records| && j < |records| && i != j && Finished(PlanItems(p, records)[i])
                            && EndName(PlanItems(p, records)[j]) != "" ::
      p.fold(PlanItems(p, records)[i].desiredName) != p.fold(EndName(PlanItems(p, records)[j]))
  }

  /** A winner is to be called what a device of a later group, which turns it away, is called. */
  ghost predicate Meets(p: Policy, work: seq<Work>, i: nat, j: nat)
    requires i < |work| && j < |work|
  {
    && Wins(p, work, i) && TurnedAway(p, work, j)
    && Below(KeyOf(p, work[i]), KeyOf(p, work[j])) && Shadows(p, work[j], KeyOf(p, work[i]))
  }

  /** A winner, or a loser numbered before, is given what a loser is called that finds all its suffixed names taken. */
  ghost predicate MeetsLoser(p: Policy, work: seq<Work>, i: nat, j: nat)
    requires i < |work| && j < |work|
  {
    && Loses(p, work, j) && OutOfSuffixes(p, work, j)
    && ((Wins(p, work, i) && Shadows(p, work[j], KeyOf(p, work[i])))
        || (Loses(p, work, i) && Before(p, work, i, j) && Resolved(p, work).out[i].Numbered?
            && Shadows(p, work[j], p.fold(Resolved(p, work).out[i].name))))
  }

  /** Given the outcomes of two items, one of which keeps its name. */
  lemma KeptNameCollides(p: Policy, records: seq<Record>, i: nat, j: nat)
    requires DistinctIdentities(records) && i < |records| && j < |records|
    requires var work := Prepared(p, records);
             && Settled(Resolved(p, work).out[i]) && !Settled(Resolved(p, work).out[j])
             && Shadows(p, work[j], p.fold(FinalName(work[i], Resolved(p, work).out[i])))
    ensures i != j && !CollisionFree(p, records)
  {
    PreparedIsReady(p, records);
    FinishedIffSettled(p, records, i);
    FinishedIffSettled(p, records, j);
    ItemKeepsRecord(p, records, j);
    var mine, theirs := PlanItems(p, records)[i], PlanItems(p, records)[j];
    assert Finished(mine) && EndName(theirs) == Prepared(p, records)[j].plan.currentName;
  }

  lemma MeetingCollides(p: Policy, records: seq<Record>, i: nat, j: nat)
    requires DistinctIdentities(records) && i < |records| && j < |records|
    requires Meets(p, Prepared(p, records), i, j) || MeetsLoser(p, Prepared(p, records), i, j)
    ensures i != j && !CollisionFree(p, records)
  {
    var work := Prepared(p, records);
    PreparedIsReady(p, records);
    if Wins(p, work, i) {
      SettledFromTheStart(p, work, i);
    }
    if Loses(p, work, j) {
      SecondPassExactly(p, work, j);
    } else {
      SettledFromTheStart(p, work, j);
    }
    KeptNameCollides(p, records, i, j);
  }

  lemma PairIsFree(p: Policy, records: seq<Record>, i: nat, j: nat)
    requires DistinctIdentities(records) && i < |records| && j < |records| && i != j
    requires !Meets(p, Prepared(p, records), i, j) && !MeetsLoser(p, Prepared(p, records), i, j)
    requires Finished(PlanItems(p, records)[i]) && EndName(PlanItems(p, records)[j]) != ""
    ensures p.fold(PlanItems(p, records)[i].desiredName) != p.fold(EndName(PlanItems(p, records)[j]))
  {
    var work := Prepared(p, records);
    PreparedIsReady(p, records);
    if Finished(PlanItems(p, records)[j]) {
      PlanNamesDistinct(p, records, if i < j then i else j, if i < j then j else i);
    } else if !work[j].candidate {
      PlanAvoidsBystanders(p, records, i, j);
    } else {
      KeptPairIsFree(p, records, i, j);
    }
  }

  lemma KeptPairIsFree(p: Policy, records: seq<Record>, i: nat, j: nat)
    requires DistinctIdentities(records) && i < |records| && j < |records| && i != j
    requires !Meets(p, Prepared(p, records), i, j) && !MeetsLoser(p, Prepared(p, records), i, j)
    requires Finished(PlanItems(p, records)[i]) && PlanItems(p, records)[j].currentName != ""
    requires Prepared(p, records)[j].candidate && !Finished(PlanItems(p, records)[j])
    ensures p.fold(PlanItems(p, records)[i].desiredName) != p.fold(PlanItems(p, records)[j].currentName)
  {
    var work := Prepared(p, records);
    PreparedIsReady(p, records);
    FinishedIffSettled(p, records, i);
    FinishedIffSettled(p, records, j);
    ItemKeepsRecord(p, records, j);
    if Loses(p, work, i) {
      SuffixIsFree(p, work, i, j);
    } else {
      WinnerNameIsFree(p, work, i, j);
    }
  }

  lemma WinnerNameIsFree(p: Policy, work: seq<Work>, i: nat, j: nat)
    requires Ready(p, work) && i < |work| && j < |work| && i != j && !Meets(p, work, i, j) && !MeetsLoser(p, work, i, j)
    requires Settled(Resolved(p, work).out[i]) && work[i].candidate && !Loses(p, work, i)
    requires work[j].candidate && !Settled(Resolved(p, work).out[j]) && work[j].plan.currentName != ""
    ensures p.fold(FinalName(work[i], Resolved(p, work).out[i])) != p.fold(work[j].plan.currentName)
  {
    SettledFromTheStart(p, work, i);
    FirstPassExactly(p, work, i);
    if p.fold(work[j].plan.currentName) == KeyOf(p, work[i]) {
      WinnerMeetsExactly(p, work, i, j);
    }
  }

  lemma EitherBefore(p: Policy, work: seq<Work>, i: nat, j: nat)
    requires Ready(p, work) && i < |work| && j < |work| && i != j && work[i].candidate && work[j].candidate
    ensures Before(p, work, i, j) || Before(p, work, j, i)
  {
    CompareFlips(KeyOf(p, work[i]), KeyOf(p, work[j]));
    BeatsConnected(p, work[i], work[j]);
  }

  /** What a device turned away by the first pass, or by an earlier turn, is called counts as taken. */
  lemma KeptCountsAsTaken(p: Policy, work: seq<Work>, i: nat, j: nat, kept: string)
    requires Ready(p, work) && i < |work| && j < |work| && Shadows(p, work[j], kept)
    requires TurnedAway(p, work, j)
             || (Loses(p, work, j) && Resolved(p, work).out[j].Rejected? && Before(p, work, j, i))
    ensures TakenBefore(p, work, i, kept)
  {
    if !TurnedAway(p, work, j) {
      assert Leaves(p, work[j], Resolved(p, work).out[j], kept);
    }
  }

  lemma SuffixIsNotTaken(p: Policy, work: seq<Work>, i: nat)
    requires Ready(p, work) && i < |work| && Loses(p, work, i) && Settled(Resolved(p, work).out[i])
    ensures Resolved(p, work).out[i].Numbered?
    ensures !TakenBefore(p, work, i, p.fold(Resolved(p, work).out[i].name))
  {
    SecondPassExactly(p, work, i);
    ResolvedItems(p, work);
    FirstPassExactly(p, work, i);
  }

  lemma SuffixIsFree(p: Policy, work: seq<Work>, i: nat, j: nat)
    requires Ready(p, work) && i < |work| && j < |work| && i != j && !MeetsLoser(p, work, i, j)
    requires Settled(Resolved(p, work).out[i]) && Loses(p, work, i)
    requires work[j].candidate && !Settled(Resolved(p, work).out[j]) && work[j].plan.currentName != ""
    ensures p.fold(FinalName(work[i], Resolved(p, work).out[i])) != p.fold(work[j].plan.currentName)
  {
    SuffixIsNotTaken(p, work, i);
    var kept := p.fold(work[j].plan.currentName);
    if kept == p.fold(Resolved(p, work).out[i].name) {
      ResolvedTotal(p, work, j);
      KeptLater(p, work, i, j);
      KeptCountsAsTaken(p, work, i, j, kept);
    }
  }

  /** A kept name that is given to a loser although it is not later than it. */
  lemma KeptLater(p: Policy, work: seq<Work>, i: nat, j: nat)
    requires Ready(p, work) && i < |work| && j < |work| && i != j && !MeetsLoser(p, work, i, j)
    requires Loses(p, work, i) && Resolved(p, work).out[i].Numbered? && work[j].candidate
    requires Resolved(p, work).out[j].Rejected? && Shadows(p, work[j], p.fold(Resolved(p, work).out[i].name))
    ensures TurnedAway(p, work, j) || (Loses(p, work, j) && Before(p, work, j, i))
  {
    if Loses(p, work, j) {
      SecondPassExactly(p, work, j);
      EitherBefore(p, work, i, j);
    } else {
      SettledFromTheStart(p, work, j);
    }
  }

  /**
   * The plan is free of collisions if and only if no winner is to be called what a device of a later
   * group, which turns it away, is called, and no name is given that a loser is called which later
   * finds all its suffixed names taken.
   */
  lemma CollisionFreeExactly(p: Policy, records: seq<Record>)
    requires DistinctIdentities(records)
    ensures CollisionFree(p, records)
            <==> forall i: nat, j: nat | i < |records| && j < |records| ::
                   !Meets(p, Prepared(p, records), i, j) && !MeetsLoser(p, Prepared(p, records), i, j)
  {
    var work := Prepared(p, records);
    if i: nat, j: nat :| i < |records| && j < |records| && (Meets(p, work, i, j) || MeetsLoser(p, work, i, j)) {
      MeetingCollides(p, records, i, j);
    } else {
      forall i: nat, j: nat | i < |records| && j < |records| && i != j && Finished(PlanItems(p, records)[i])
                              && EndName(PlanItems(p, records)[j]) != ""
        ensures p.fold(PlanItems(p, records)[i].desiredName) != p.fold(EndName(PlanItems(p, records)[j]))
      {
        PairIsFree(p, records, i, j);
      }
    }
  }

  /** Every loser that has a name has at least as many valid suffixed names as there are devices. */
  ghost predicate RoomForNamed(p: Policy, work: seq<Work>) {
    forall j: nat | j < |work| && Loses(p, work, j) && work[j].plan.currentName != "" ::
      |ValidSequences(p, work[j])| >= |work|
  }

  /** With that, it takes no more than the prepared items to tell whether the plan is free of collisions. */
  lemma CollisionFreeWithRoom(p: Policy, records: seq<Record>)
    requires DistinctIdentities(records) && FoldKeepsDigits(p) && RoomForNamed(p, Prepared(p, records))
    ensures CollisionFree(p, records)
            <==> forall i: nat, j: nat | i < |records| && j < |records| :: !Meets(p, Prepared(p, records), i, j)
  {
    var work := Prepared(p, records);
    PreparedIsReady(p, records);
    forall i: nat, j: nat | i < |work| && j < |work| ensures !MeetsLoser(p, work, i, j) {
      if MeetsLoser(p, work, i, j) {
        SecondPassExactly(p, work, j);
        RoomyLoserIsNumbered(p, work, j);
      }
    }
    CollisionFreeExactly(p, records);
  }

  /** In particular, free fixed names and room for every loser are enough. */
  lemma PlanLeavesNoCollision(p: Policy, records: seq<Record>)
    requires DistinctIdentities(records) && FoldKeepsDigits(p)
    requires FixedNamesFree(p, Prepared(p, records)) && Roomy(p, Prepared(p, records))
    ensures CollisionFree(p, records)
    ensures forall i: nat | i < |records| :: !OutcomeAt(p, records, i).Rejected?
  {
    var work := Prepared(p, records);
    PreparedIsReady(p, records);
    NobodyTurnedAway(p, work);
    forall j: nat | j < |work| ensures !TurnedAway(p, work, j) && !(Loses(p, work, j) && OutOfSuffixes(p, work, j)) {
      FreeMeansKept(p, work, j);
      if Loses(p, work, j) {
        SecondPassExactly(p, work, j);
      }
    }
    CollisionFreeExactly(p, records);
  }
}
