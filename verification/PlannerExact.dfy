/** Exactly when one application is enough although matching names are preferred. */
module PlannerExact {
  import opened Basics
  import opened Decimal
  import opened PlannerModel
  import opened PlannerRanking
  import opened PlannerSuffix
  import opened PlannerCollisions
  import opened PlannerSafety
  import opened PlannerNames
  import opened PlannerConvergence
  import opened PlannerFixpoint
  import opened PlannerFirstPass
  import opened PlannerRoom
  import opened PlannerSecondPass
  import opened PlannerPlan
  import opened PlannerReplan

  /** The comparator without the preference for matching names. */
  predicate RankBeats(p: Policy, left: Work, right: Work) {
    match CompareRanks(p, left.ranks, right.ranks, 0)
    case Some(order) => order < 0 || (order == 0 && KeyBelow(Identity(left.record), Identity(right.record)))
    case None => false
  }

  lemma RankBeatsConnected(p: Policy, a: Work, b: Work)
    requires Ranked(p, a.ranks) && Ranked(p, b.ranks)
    ensures !(RankBeats(p, a, b) && RankBeats(p, b, a))
    ensures Identity(a.record) != Identity(b.record) ==> RankBeats(p, a, b) || RankBeats(p, b, a)
    ensures Beats(p, a, b)
            <==> if p.preserveExisting && Existing(p, a) != Existing(p, b) then Existing(p, a) else RankBeats(p, a, b)
  {
    RanksFlip(p, a.ranks, b.ranks, 0);
    CompareKeysFlips(Identity(a.record), Identity(b.record));
  }

  // Numbers follow the comparator.

  /** Of two numbered rivals with the same base name the better one has the smaller number. */
  lemma NumbersFollowRank(p: Policy, work: seq<Work>, i: nat, j: nat)
    requires Ready(p, work) && i < |work| && j < |work| && work[i].candidate && work[j].candidate
    requires work[i].plan.desiredName == work[j].plan.desiredName && Beats(p, work[i], work[j])
    requires Resolved(p, work).out[i].Numbered? && Resolved(p, work).out[j].Numbered?
    ensures Resolved(p, work).out[i].sequence < Resolved(p, work).out[j].sequence
  {
    var t := Traversal(p, work);
    TraversalVisits(p, work, i);
    TraversalVisits(p, work, j);
    var a: nat :| a < |t| && t[a] == i;
    var b: nat :| b < |t| && t[b] == j;
    EarlierTurn(p, work, a, b);
    NumbersIncrease(p, work, a, b);
  }

  // The order of losers changes exactly when a holder is numbered ahead of a better rival.

  /** Two losers of one name, of whom the one that matches it is put before the one that ranks better. */
  ghost predicate Overtaken(p: Policy, work: seq<Work>, i: nat, j: nat) {
    && p.preserveExisting && i < |work| && j < |work| && Loses(p, work, i) && Loses(p, work, j)
    && KeyOf(p, work[i]) == KeyOf(p, work[j])
    && Existing(p, work[i]) && !Existing(p, work[j]) && RankBeats(p, work[j], work[i])
  }

  /** A loser of a name that a loser matches: only among these does the preference decide. */
  ghost predicate Contested(p: Policy, work: seq<Work>, i: nat)
    requires i < |work|
  {
    && p.preserveExisting && Loses(p, work, i)
    && exists h: nat ::
         h < |work| && Loses(p, work, h) && KeyOf(p, work[h]) == KeyOf(p, work[i]) && Existing(p, work[h])
  }

  /** Every one of them has at least as many valid suffixed names as there are devices. */
  ghost predicate RoomForContested(p: Policy, work: seq<Work>) {
    forall i: nat | i < |work| && Contested(p, work, i) :: |ValidSequences(p, work[i])| >= |work|
  }

  /** Their names are alike if they fold alike. */
  ghost predicate OneSpelling(p: Policy, work: seq<Work>) {
    forall i: nat, j: nat | i < |work| && j < |work| && Contested(p, work, i) && Contested(p, work, j) ::
      KeyOf(p, work[i]) == KeyOf(p, work[j]) ==> work[i].plan.desiredName == work[j].plan.desiredName
  }

  /** After the renames no rival holds its plain name any more. */
  lemma RivalsLetGo(p: Policy, work: seq<Work>, i: nat)
    requires Ready(p, work) && i < |work| && work[i].candidate && Decided(p, work).out[i] == Open
    requires Resolved(p, work).out[i].Rejected? ==> !Existing(p, work[i])
    ensures !Existing(p, Renamed(p, work)[i])
  {
    ResolvedItems(p, work);
    ResolvedTotal(p, work, i);
    RenamedTwins(p, work);
    if Resolved(p, work).out[i].Numbered? {
      NumberedLeavesKey(p, work, i);
    } else {
      assert SameName(work, Renamed(p, work), i);
    }
  }

  lemma IdentitiesDiffer(p: Policy, work: seq<Work>, i: nat, j: nat)
    requires Ready(p, work) && i < |work| && j < |work| && i != j
    ensures Identity(work[i].record) != Identity(work[j].record)
  {
    assert i < j || j < i;
  }

  lemma RankedAlikeAfterwards(p: Policy, work: seq<Work>, i: nat, j: nat)
    requires Ready(p, work) && Rivals(p, work, Decided(p, work).out, i, j)
    requires Resolved(p, work).out[i].Rejected? ==> !Existing(p, work[i])
    requires Resolved(p, work).out[j].Rejected? ==> !Existing(p, work[j])
    requires !Overtaken(p, work, i, j) && !Overtaken(p, work, j, i)
    ensures PositionBeats(p, Renamed(p, work))(i, j) == PositionBeats(p, work)(i, j)
  {
    var other := Renamed(p, work);
    FirstPassExactly(p, work, i);
    FirstPassExactly(p, work, j);
    RivalsLetGo(p, work, i);
    RivalsLetGo(p, work, j);
    RenamedTwins(p, work);
    RankBeatsConnected(p, work[i], work[j]);
    RankBeatsConnected(p, other[i], other[j]);
    if i != j {
      IdentitiesDiffer(p, work, i, j);
    }
  }

  /** One application is enough if no matching loser is turned away or numbered ahead of a better rival. */
  lemma OneRoundUnlessOvertaken(p: Policy, work: seq<Work>)
    requires Ready(p, work) && p.preserveExisting
    requires forall i: nat | i < |work| && Loses(p, work, i) && Resolved(p, work).out[i].Rejected? ::
               !Existing(p, work[i])
    requires forall i: nat, j: nat :: !Overtaken(p, work, i, j)
    ensures Stable(p, work)
  {
    var other := Renamed(p, work);
    RenamedTwins(p, work);
    FirstPassStable(p, work);
    forall i: nat, j: nat | Rivals(p, work, Decided(p, work).out, i, j)
      ensures PositionBeats(p, other)(i, j) == PositionBeats(p, work)(i, j)
    {
      FirstPassExactly(p, work, i);
      FirstPassExactly(p, work, j);
      RankedAlikeAfterwards(p, work, i, j);
    }
    ResolvedSame(p, work, other);
  }

  /** A holder numbered ahead of a better rival falls behind it in the next plan. */
  lemma OvertakenSwaps(p: Policy, work: seq<Work>, i: nat, j: nat)
    requires Ready(p, work) && Overtaken(p, work, i, j) && work[i].plan.desiredName == work[j].plan.desiredName
    requires Resolved(p, work).out[i].Numbered? && Resolved(p, work).out[j].Numbered?
    requires Resolved(p, Renamed(p, work)).out[i].Numbered? && Resolved(p, Renamed(p, work)).out[j].Numbered?
    ensures Resolved(p, work).out[i].sequence < Resolved(p, work).out[j].sequence
    ensures Resolved(p, Renamed(p, work)).out[j].sequence < Resolved(p, Renamed(p, work)).out[i].sequence
  {
    var other := Renamed(p, work);
    RenamedTwins(p, work);
    FirstPassExactly(p, work, i);
    FirstPassExactly(p, work, j);
    RivalsLetGo(p, work, i);
    RivalsLetGo(p, work, j);
    RankBeatsConnected(p, work[i], work[j]);
    RankBeatsConnected(p, other[j], other[i]);
    assert RankBeats(p, other[j], other[i]);
    NumbersFollowRank(p, work, i, j);
    NumbersFollowRank(p, other, j, i);
  }

  // The same for records.

  /** An item that keeps its suffixed name in the second plan keeps its number. */
  lemma SameNumberAgain(p: Policy, records: seq<Record>, i: nat)
    requires DistinctIdentities(records) && BlindPolicy(p) && NothingLeft(p, records) && i < |records|
    requires OutcomeAt(p, records, i).Numbered?
    ensures Resolved(p, Renamed(p, Prepared(p, records))).out[i] == OutcomeAt(p, records, i)
  {
    var work, after := Prepared(p, records), Applied(p, records);
    PreparedIsReady(p, records);
    AppliedIsRenamed(p, records);
    FinishedIffSettled(p, records, i);
    FinishedIffSettled(p, after, i);
    FirstPassStable(p, work);
    RenamedTwins(p, work);
    ResolvedItems(p, work);
    ResolvedItems(p, Renamed(p, work));
    OccupiedHasNoNumbers(p, work, i);
    SameNameSameNumber(p, work, Renamed(p, work), i);
  }

  lemma SameNameSameNumber(p: Policy, work: seq<Work>, other: seq<Work>, i: nat)
    requires Ready(p, work) && Ready(p, other) && Twins(work, other) && i < |work| && work[i].candidate
    requires Resolved(p, work).out[i].Numbered? && Resolved(p, other).out[i].Numbered?
    requires Resolved(p, work).out[i].name == Resolved(p, other).out[i].name
    ensures Resolved(p, work).out[i] == Resolved(p, other).out[i]
  {
    NumberedName(p, work, i);
    NumberedName(p, other, i);
    assert other[i] == WithName(work[i], other[i].plan.currentName);
    var m, n := Resolved(p, work).out[i].sequence, Resolved(p, other).out[i].sequence;
    var stem := work[i].plan.desiredName + p.separator;
    assert Itoa(m) == (stem + Itoa(m))[|stem|..] && Itoa(n) == (stem + Itoa(n))[|stem|..];
    ItoaInjective(m, n);
  }

  /** One application is enough if every device that matches its plain name is to keep it or is turned away. */
  lemma OneApplyConvergesIfHoldersWin(p: Policy, records: seq<Record>)
    requires DistinctIdentities(records) && BlindPolicy(p)
    requires p.preserveExisting ==>
               forall i: nat | i < |records| && Loses(p, Prepared(p, records), i) ::
                 !Existing(p, Prepared(p, records)[i])
    ensures NothingLeft(p, records)
  {
    var work := Prepared(p, records);
    PreparedIsReady(p, records);
    forall i: nat | i < |work| && Resolved(p, work).out[i].Numbered? ensures work[i].candidate && Loses(p, work, i) {
      NumberedLoses(p, work, i);
    }
    OneApplyConvergesUnlessGivenUp(p, records);
  }

  lemma NumberedLoses(p: Policy, work: seq<Work>, i: nat)
    requires Ready(p, work) && i < |work| && Resolved(p, work).out[i].Numbered?
    ensures work[i].candidate && Loses(p, work, i)
  {
    ResolvedTotal(p, work, i);
    ResolvedItems(p, work);
    OccupiedHasNoNumbers(p, work, i);
    FirstPassExactly(p, work, i);
  }

  /**
   * If every loser of a name that a loser matches has room, and their names are spelled alike, one
   * application leaves nothing to do if and only if among the losers of one name none that matches
   * it is put before one that ranks better.
   */
  lemma OneApplyExactly(p: Policy, records: seq<Record>)
    requires DistinctIdentities(records) && BlindPolicy(p) && FoldKeepsDigits(p)
    requires RoomForContested(p, Prepared(p, records)) && OneSpelling(p, Prepared(p, records))
    ensures NothingLeft(p, records) <==> forall i: nat, j: nat :: !Overtaken(p, Prepared(p, records), i, j)
  {
    var work := Prepared(p, records);
    PreparedIsReady(p, records);
    if !p.preserveExisting {
      OneApplyConverges(p, records);
    } else if forall i: nat, j: nat :: !Overtaken(p, work, i, j) {
      forall i: nat | i < |work| && Loses(p, work, i) && Existing(p, work[i])
        ensures |ValidSequences(p, work[i])| >= |work|
      {
        assert Contested(p, work, i);
      }
      HoldersAreNumbered(p, work);
      OneRoundUnlessOvertaken(p, work);
      StableMeansNothingLeft(p, records);
    } else if NothingLeft(p, records) {
      var i: nat, j: nat :| Overtaken(p, work, i, j);
      OvertakenIsNoticed(p, records, i, j);
    }
  }

  /** With room, no loser that matches its plain name is turned away. */
  lemma HoldersAreNumbered(p: Policy, work: seq<Work>)
    requires Ready(p, work) && FoldKeepsDigits(p)
    requires forall i: nat | i < |work| && Loses(p, work, i) && Existing(p, work[i]) ::
               |ValidSequences(p, work[i])| >= |work|
    ensures forall i: nat | i < |work| && Loses(p, work, i) && Resolved(p, work).out[i].Rejected? ::
              !Existing(p, work[i])
  {
    forall i: nat | i < |work| && Loses(p, work, i) && Existing(p, work[i])
      ensures !Resolved(p, work).out[i].Rejected?
    {
      RoomyLoserIsNumbered(p, work, i);
    }
  }

  /** The second plan exchanges their order. */
  lemma OvertakenIsNoticed(p: Policy, records: seq<Record>, i: nat, j: nat)
    requires DistinctIdentities(records) && BlindPolicy(p) && FoldKeepsDigits(p)
    requires RoomForContested(p, Prepared(p, records)) && OneSpelling(p, Prepared(p, records))
    requires Overtaken(p, Prepared(p, records), i, j)
    ensures !NothingLeft(p, records)
  {
    var work := Prepared(p, records);
    PreparedIsReady(p, records);
    assert Contested(p, work, i) && Contested(p, work, j);
    RoomyLoserIsNumbered(p, work, i);
    RoomyLoserIsNumbered(p, work, j);
    if NothingLeft(p, records) {
      SameNumberAgain(p, records, i);
      SameNumberAgain(p, records, j);
      OvertakenSwaps(p, work, i, j);
    }
  }

  /** The third plan leaves nothing to do, if every loser that matches its plain name has room. */
  lemma TwoAppliesConverge(p: Policy, records: seq<Record>)
    requires DistinctIdentities(records) && BlindPolicy(p) && FoldKeepsDigits(p)
    requires p.preserveExisting ==>
               forall i: nat | i < |records| && Loses(p, Prepared(p, records), i)
                 && Existing(p, Prepared(p, records)[i]) ::
                 |ValidSequences(p, Prepared(p, records)[i])| >= |records|
    ensures NothingLeft(p, Applied(p, records))
  {
    var work := Prepared(p, records);
    PreparedIsReady(p, records);
    AppliedIsRenamed(p, records);
    if p.preserveExisting {
      HoldersAreNumbered(p, work);
      OpenMeansLosing(p, work);
    }
    TwoRoundsAreEnough(p, work);
    StableMeansNothingLeft(p, Applied(p, records));
  }

  lemma OpenMeansLosing(p: Policy, work: seq<Work>)
    requires Ready(p, work)
    ensures forall i: nat | i < |work| && Decided(p, work).out[i] == Open && Resolved(p, work).out[i].Rejected? ::
              Loses(p, work, i)
  {
    forall i: nat | i < |work| && Decided(p, work).out[i] == Open && Resolved(p, work).out[i].Rejected?
      ensures Loses(p, work, i)
    {
      ResolvedTotal(p, work, i);
      FirstPassExactly(p, work, i);
    }
  }
}
