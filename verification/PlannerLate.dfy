/** The only names a plan may meet: those of devices whose items are invalidated afterwards. */
module PlannerLate {
  import opened Basics
  import opened Sorting
  import opened PlannerModel
  import opened PlannerRanking
  import opened PlannerCollisions
  import opened PlannerSafety
  import opened PlannerNames

  lemma {:induction false} WinnerAfterReject(p: Policy, work: seq<Work>, keys: seq<string>, k: nat, st: Stage, i: nat,
          j: nat, a: nat, b: nat)
    requires |work| == |st.out| && NoRepeats(keys) && i < |work| && j < |work| && work[i].candidate && work[j].candidate
    requires k <= a < b < |keys| && keys[a] == KeyOf(p, work[j]) && keys[b] == KeyOf(p, work[i])
    requires forall m | k <= m < |keys| :: GroupOpen(p, work, keys[m], st)
    requires DecideFrom(p, work, keys, k, st).out[i] == Won && DecideFrom(p, work, keys, k, st).out[j].Rejected?
    requires work[j].plan.currentName != ""
    ensures p.fold(work[j].plan.currentName) != KeyOf(p, work[i])
    decreases a - k
  {
    var next := DecideGroup(p, work, keys[k], st);
    DecideGroupFrame(p, work, keys[k], st);
    assert InGroup(p, work, keys[b], i) && InGroup(p, work, keys[a], j);
    if k == a {
      DecideGroupDecides(p, work, keys[k], st);
      DecideFromDecides(p, work, keys, k + 1, next);
      assert next.out[j] == DecideFrom(p, work, keys, k, st).out[j];
      DecideFromWinner(p, work, keys, k + 1, next, i);
    } else {
      WinnerAfterReject(p, work, keys, k + 1, next, i, j, a, b);
    }
  }

  /** A winner never takes the name of a device that a group before its own has turned away. */
  lemma WinnerAvoidsEarlierRejects(p: Policy, work: seq<Work>, i: nat, j: nat)
    requires i < |work| && j < |work| && work[i].candidate && work[j].candidate
    requires Decided(p, work).out[i] == Won && Decided(p, work).out[j].Rejected?
    requires Below(KeyOf(p, work[j]), KeyOf(p, work[i])) && work[j].plan.currentName != ""
    ensures p.fold(work[j].plan.currentName) != KeyOf(p, work[i])
  {
    var keys := GroupKeys(p, work);
    GroupKeysMembers(p, work);
    var a :| 0 <= a < |keys| && keys[a] == KeyOf(p, work[j]);
    var b :| 0 <= b < |keys| && keys[b] == KeyOf(p, work[i]);
    CompareFlips(keys[a], keys[b]);
    AscendingBefore(keys, Below, a, b);
    WinnerAfterReject(p, work, keys, 0, Start(p, work), i, j, a, b);
  }

  ghost predicate VisitedBefore(p: Policy, work: seq<Work>, i: nat, j: nat) {
    exists a: nat, b: nat :: a < b < |Traversal(p, work)| && Traversal(p, work)[a] == i && Traversal(p, work)[b] == j
  }

  /** Item `j` is invalidated after item `i` has been given its name. */
  ghost predicate TurnedAwayAfter(p: Policy, work: seq<Work>, i: nat, j: nat)
    requires i < |work| && j < |work|
  {
    && work[j].candidate && Resolved(p, work).out[j].Rejected?
    && (if Decided(p, work).out[i] == Won
        then Decided(p, work).out[j] == Open || Below(KeyOf(p, work[i]), KeyOf(p, work[j]))
        else Decided(p, work).out[j] == Open && VisitedBefore(p, work, i, j))
  }

  lemma NoWinnerBesideReject(p: Policy, work: seq<Work>, i: nat, j: nat)
    requires i < |work| && j < |work| && work[i].candidate && work[j].candidate
    requires KeyOf(p, work[i]) == KeyOf(p, work[j])
    requires Decided(p, work).out[j].Rejected?
    ensures Decided(p, work).out[i] != Won
  {
    DecidedGroups(p, work);
    assert GroupDecided(p, work, KeyOf(p, work[i]), Decided(p, work));
    assert InGroup(p, work, KeyOf(p, work[i]), i) && InGroup(p, work, KeyOf(p, work[j]), j);
  }

  /** A settled name that another device keeps belongs to one turned away later. */
  lemma NamesMetAreLater(p: Policy, work: seq<Work>, i: nat, j: nat)
    requires Ready(p, work) && i < |work| && j < |work|
    requires Settled(Resolved(p, work).out[i]) && !Settled(Resolved(p, work).out[j]) && work[j].plan.currentName != ""
    requires p.fold(FinalName(work[i], Resolved(p, work).out[i])) == p.fold(work[j].plan.currentName)
    ensures TurnedAwayAfter(p, work, i, j)
  {
    ResolvedItems(p, work);
    ResolvedTotal(p, work, i);
    ResolvedTotal(p, work, j);
    if !work[j].candidate {
      SettledAvoidsBystanders(p, work, i, j);
    } else if Decided(p, work).out[i] == Won {
      WinnerMeets(p, work, i, j);
    } else {
      NumberMeets(p, work, i, j);
    }
  }

  lemma WinnerMeets(p: Policy, work: seq<Work>, i: nat, j: nat)
    requires Ready(p, work) && i < |work| && j < |work| && work[i].candidate && work[j].candidate
    requires Decided(p, work).out[i] == Won && work[j].plan.currentName != ""
    requires Resolved(p, work).out[j].Rejected? && KeyOf(p, work[i]) == p.fold(work[j].plan.currentName)
    ensures TurnedAwayAfter(p, work, i, j)
  {
    ResolvedItems(p, work);
    var mine, theirs := KeyOf(p, work[i]), KeyOf(p, work[j]);
    CompareFlips(mine, theirs);
    if Decided(p, work).out[j].Rejected? {
      if mine == theirs {
        NoWinnerBesideReject(p, work, i, j);
      } else if Below(theirs, mine) {
        WinnerAvoidsEarlierRejects(p, work, i, j);
      }
    } else {
      DecidedGroups(p, work);
      assert GroupDecided(p, work, theirs, Decided(p, work)) && InGroup(p, work, theirs, j);
    }
  }

  lemma NumberMeets(p: Policy, work: seq<Work>, i: nat, j: nat)
    requires Ready(p, work) && i < |work| && j < |work| && work[i].candidate && work[j].candidate
    requires Resolved(p, work).out[i].Numbered? && work[j].plan.currentName != ""
    requires Resolved(p, work).out[j].Rejected?
    requires p.fold(Resolved(p, work).out[i].name) == p.fold(work[j].plan.currentName)
    ensures TurnedAwayAfter(p, work, i, j)
  {
    ResolvedItems(p, work);
    OccupiedHasNoNumbers(p, work, i);
    TraversalVisits(p, work, i);
    TraversalVisits(p, work, j);
    var a: nat :| a < |Traversal(p, work)| && Traversal(p, work)[a] == i;
    var b: nat :| b < |Traversal(p, work)| && Traversal(p, work)[b] == j;
    if Decided(p, work).out[j].Rejected? || b < a {
      SuffixAvoidsEarlierRejects(p, work, b, a);
    }
  }
}
