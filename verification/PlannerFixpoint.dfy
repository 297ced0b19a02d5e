/** Repeated application of plans reaches a fixpoint, and when one application suffices. */
module PlannerFixpoint {
  import opened PlannerModel
  import opened PlannerRanking
  import opened PlannerSuffix
  import opened PlannerCollisions
  import opened PlannerSafety
  import opened PlannerNames
  import opened PlannerConvergence

  lemma RenamedTwins(p: Policy, work: seq<Work>)
    requires Ready(p, work)
    ensures Twins(work, Renamed(p, work)) && Ready(p, Renamed(p, work))
    ensures forall i: nat | i < |work| && !Settled(Resolved(p, work).out[i]) :: SameName(work, Renamed(p, work), i)
    ensures forall i: nat | i < |work| && !work[i].candidate :: SameName(work, Renamed(p, work), i)
  {
    TwinsReady(p, work, Renamed(p, work));
    forall i: nat | i < |work| && !work[i].candidate ensures SameName(work, Renamed(p, work), i) {
      ResolvedTotal(p, work, i);
    }
  }

  /** A numbered item no longer holds the plain name of its group. */
  lemma NumberedLeavesKey(p: Policy, work: seq<Work>, i: nat)
    requires i < |work| && work[i].candidate && Resolved(p, work).out[i].Numbered?
    ensures Decided(p, work).out[i] == Open
    ensures !Existing(p, Renamed(p, work)[i])
  {
    ResolvedItems(p, work);
    OccupiedHasNoNumbers(p, work, i);
    OpenGroupTaken(p, work, i);
  }

  lemma WinnerIsUnique(p: Policy, work: seq<Work>, i: nat, j: nat)
    requires i < |work| && j < |work| && work[i].candidate && work[j].candidate
    requires KeyOf(p, work[i]) == KeyOf(p, work[j])
    requires Decided(p, work).out[i] == Won && Resolved(p, work).out[j] == Won
    ensures i == j
  {
    ResolvedItems(p, work);
    DecidedGroups(p, work);
    var key := KeyOf(p, work[i]);
    assert GroupDecided(p, work, key, Decided(p, work));
    assert InGroup(p, work, key, i) && InGroup(p, work, key, j);
  }

  /** After the renames, a group member other than the winner that still matches always matched. */
  lemma StillExisting(p: Policy, work: seq<Work>, i: nat, j: nat)
    requires Ready(p, work) && i < |work| && j < |work| && i != j
    requires work[i].candidate && work[j].candidate && KeyOf(p, work[i]) == KeyOf(p, work[j])
    requires Decided(p, work).out[i] == Won
    requires Existing(p, Renamed(p, work)[j])
    ensures Existing(p, work[j])
  {
    if Resolved(p, work).out[j] == Won {
      WinnerIsUnique(p, work, i, j);
    } else if Resolved(p, work).out[j].Numbered? {
      NumberedLeavesKey(p, work, j);
    }
  }

  lemma WinnerStillBeats(p: Policy, work: seq<Work>, i: nat, j: nat)
    requires Ready(p, work) && i < |work| && j < |work| && i != j
    requires work[i].candidate && work[j].candidate && KeyOf(p, work[i]) == KeyOf(p, work[j])
    requires Decided(p, work).out[i] == Won && Beats(p, work[i], work[j])
    ensures Beats(p, Renamed(p, work)[i], Renamed(p, work)[j])
  {
    WinnerExists(p, work, i);
    if Existing(p, Renamed(p, work)[j]) {
      StillExisting(p, work, i, j);
    }
  }

  /** A winner is called what it is to be called. */
  lemma WinnerExists(p: Policy, work: seq<Work>, i: nat)
    requires i < |work| && work[i].candidate && Decided(p, work).out[i] == Won
    ensures Existing(p, Renamed(p, work)[i])
  {
    ResolvedItems(p, work);
  }

  lemma WinnerStaysFirst(p: Policy, work: seq<Work>, i: nat)
    requires Ready(p, work) && i < |work| && work[i].candidate && !work[i].authoritative
    requires Decided(p, work).out[i] == Won
    ensures SameFirst(p, work, Renamed(p, work), KeyOf(p, work[i]))
  {
    var other, key := Renamed(p, work), KeyOf(p, work[i]);
    RenamedTwins(p, work);
    DecideFromWinner(p, work, GroupKeys(p, work), 0, Start(p, work), i);
    var mine, theirs := Order(p, work, key), Order(p, other, key);
    assert InGroup(p, work, key, i) && InGroup(p, other, key, i);
    assert i in mine && i in theirs;
    OrderNoRepeats(p, work, key);
    OrderNoRepeats(p, other, key);
    var m := theirs[0];
    assert m in theirs && InGroup(p, work, key, m);
    assert m in mine;
    if m != i {
      var a :| 0 <= a < |mine| && mine[a] == m;
      assert PositionBeats(p, work)(mine[0], mine[a]);
      WinnerStillBeats(p, work, i, m);
      var b :| 0 <= b < |theirs| && theirs[b] == i;
      assert PositionBeats(p, other)(theirs[0], theirs[b]);
      BeatsConnected(p, other[i], other[m]);
    }
  }

  /** The first pass decides the same after the renames, whatever the policy prefers. */
  lemma FirstPassStable(p: Policy, work: seq<Work>)
    requires Ready(p, work)
    ensures Decided(p, Renamed(p, work)) == Decided(p, work)
    ensures Occupied(p, Renamed(p, work)) == Occupied(p, work)
  {
    RenamedTwins(p, work);
    ResolvedItems(p, work);
    forall i: nat | i < |work| && work[i].candidate && !work[i].authoritative && Decided(p, work).out[i] == Won
      ensures SameFirst(p, work, Renamed(p, work), KeyOf(p, work[i]))
    {
      WinnerStaysFirst(p, work, i);
    }
    forall i: nat | i < |work| && Decided(p, work).out[i].Rejected? ensures SameName(work, Renamed(p, work), i) {
      assert !Settled(Resolved(p, work).out[i]);
    }
    DecidedSame(p, work, Renamed(p, work));
  }

  /** No numbered device gives up a current name that matches its plain name. */
  ghost predicate NobodyGivesUp(p: Policy, work: seq<Work>) {
    p.preserveExisting ==>
      forall i: nat | i < |work| && Resolved(p, work).out[i].Numbered? :: !Existing(p, work[i])
  }

  /** Planning again after applying changes nothing. */
  ghost predicate Stable(p: Policy, work: seq<Work>) {
    Resolved(p, Renamed(p, work)) == Resolved(p, work)
  }

  /** One application is enough whenever it takes no matching name away. */
  lemma OneRoundIsEnough(p: Policy, work: seq<Work>)
    requires Ready(p, work) && NobodyGivesUp(p, work)
    ensures Stable(p, work)
  {
    var other := Renamed(p, work);
    RenamedTwins(p, work);
    FirstPassStable(p, work);
    forall i: nat | p.preserveExisting && i < |work| && work[i].candidate && Decided(p, work).out[i] == Open
      ensures Existing(p, other[i]) == Existing(p, work[i])
    {
      ResolvedItems(p, work);
      if Resolved(p, work).out[i].Numbered? {
        NumberedLeavesKey(p, work, i);
      } else {
        assert SameName(work, other, i);
      }
    }
    forall i: nat, j: nat | Rivals(p, work, Decided(p, work).out, i, j)
      ensures PositionBeats(p, other)(i, j) == PositionBeats(p, work)(i, j)
    {
      SameBeats(p, work, other, i, j);
    }
    ResolvedSame(p, work, other);
  }

  // Several rounds.

  ghost function Rounds(p: Policy, work: seq<Work>, n: nat): seq<Work>
    decreases n
  {
    if n == 0 then work else Rounds(p, Renamed(p, work), n - 1)
  }

  /** Undecided devices whose current name matches their plain name. */
  ghost function Holders(p: Policy, work: seq<Work>): set<nat> {
    set i: nat | i < |work| && work[i].candidate && Decided(p, work).out[i] == Open && Existing(p, work[i])
  }

  lemma HoldsAsBefore(p: Policy, work: seq<Work>, i: nat)
    requires Ready(p, work) && Decided(p, Renamed(p, work)) == Decided(p, work) && i in Holders(p, Renamed(p, work))
    ensures i in Holders(p, work) && !Resolved(p, work).out[i].Numbered?
  {
    RenamedTwins(p, work);
    ResolvedItems(p, work);
    if Resolved(p, work).out[i].Numbered? {
      NumberedLeavesKey(p, work, i);
    } else {
      assert SameName(work, Renamed(p, work), i);
    }
  }

  /** A numbered device that gives up its name was a holder. */
  lemma GaveUp(p: Policy, work: seq<Work>) returns (i: nat)
    requires Ready(p, work) && !NobodyGivesUp(p, work)
    ensures i in Holders(p, work) && Resolved(p, work).out[i].Numbered?
  {
    i :| i < |work| && Resolved(p, work).out[i].Numbered? && Existing(p, work[i]);
    ResolvedTotal(p, work, i);
    NumberedLeavesKey(p, work, i);
  }

  lemma HoldersShrink(p: Policy, work: seq<Work>)
    requires Ready(p, work)
    ensures Holders(p, Renamed(p, work)) <= Holders(p, work)
    ensures !NobodyGivesUp(p, work) ==> Holders(p, Renamed(p, work)) < Holders(p, work)
  {
    FirstPassStable(p, work);
    forall i: nat | i in Holders(p, Renamed(p, work))
      ensures i in Holders(p, work) && !Resolved(p, work).out[i].Numbered?
    {
      HoldsAsBefore(p, work, i);
    }
    if !NobodyGivesUp(p, work) {
      var i := GaveUp(p, work);
      assert i !in Holders(p, Renamed(p, work));
    }
  }

  lemma RoundsNext(p: Policy, work: seq<Work>, m: nat)
    ensures Rounds(p, work, m + 1) == Rounds(p, Renamed(p, work), m)
  {
  }

  lemma {:induction false} RoundsReach(p: Policy, work: seq<Work>) returns (n: nat, last: seq<Work>)
    requires Ready(p, work)
    ensures n <= |Holders(p, work)| && last == Rounds(p, work, n)
    ensures Ready(p, last) && Stable(p, last)
    decreases |Holders(p, work)|
  {
    var settled := OneMoreRound(p, work);
    if settled {
      n, last := 0, work;
    } else {
      n, last := RoundsReach(p, Renamed(p, work));
      RoundsNext(p, work, n);
      n := n + 1;
    }
  }

  /** Whatever happens, a few rounds of applying and planning again reach a fixpoint. */
  lemma RoundsConverge(p: Policy, work: seq<Work>) returns (n: nat)
    requires Ready(p, work)
    ensures n <= |Holders(p, work)|
    ensures Ready(p, Rounds(p, work, n)) && Stable(p, Rounds(p, work, n))
  {
    var last;
    n, last := RoundsReach(p, work);
  }

  lemma OneMoreRound(p: Policy, work: seq<Work>) returns (settled: bool)
    requires Ready(p, work)
    ensures if settled then Stable(p, work)
            else Ready(p, Renamed(p, work)) && |Holders(p, Renamed(p, work))| < |Holders(p, work)|
  {
    settled := NobodyGivesUp(p, work);
    if settled {
      OneRoundIsEnough(p, work);
    } else {
      HoldersDrop(p, work);
    }
  }

  lemma HoldersDrop(p: Policy, work: seq<Work>)
    requires Ready(p, work) && !NobodyGivesUp(p, work)
    ensures Ready(p, Renamed(p, work))
    ensures |Holders(p, Renamed(p, work))| < |Holders(p, work)|
  {
    HoldersShrink(p, work);
    SubsetSmaller(Holders(p, Renamed(p, work)), Holders(p, work));
    RenamedTwins(p, work);
  }

  /** When no matching loser is turned away, the second application already reaches the fixpoint. */
  lemma TwoRoundsAreEnough(p: Policy, work: seq<Work>)
    requires Ready(p, work)
    requires p.preserveExisting ==>
               forall i: nat | i < |work| && Decided(p, work).out[i] == Open && Resolved(p, work).out[i].Rejected? ::
                 !Existing(p, work[i])
    ensures Stable(p, Renamed(p, work))
  {
    var other := Renamed(p, work);
    RenamedTwins(p, work);
    FirstPassStable(p, work);
    if p.preserveExisting {
      forall i: nat | i < |work| && Resolved(p, other).out[i].Numbered? ensures !Existing(p, other[i]) {
        NumberedAgain(p, work, i);
      }
    }
    OneRoundIsEnough(p, other);
  }

  /** Numbered by the second plan, a device was already called by a number or did not match. */
  lemma NumberedAgain(p: Policy, work: seq<Work>, i: nat)
    requires Ready(p, work) && Ready(p, Renamed(p, work)) && i < |work|
    requires Decided(p, Renamed(p, work)) == Decided(p, work) && Resolved(p, Renamed(p, work)).out[i].Numbered?
    requires Decided(p, work).out[i] == Open && Resolved(p, work).out[i].Rejected? ==> !Existing(p, work[i])
    ensures !Existing(p, Renamed(p, work)[i])
  {
    var other := Renamed(p, work);
    RenamedTwins(p, work);
    ResolvedItems(p, work);
    ResolvedItems(p, other);
    ResolvedTotal(p, other, i);
    NumberedLeavesKey(p, other, i);
    ResolvedTotal(p, work, i);
    OccupiedHasNoNumbers(p, other, i);
    if Resolved(p, work).out[i].Numbered? {
      NumberedLeavesKey(p, work, i);
    } else {
      assert Resolved(p, work).out[i].Rejected?;
      assert SameName(work, other, i);
    }
  }
}
