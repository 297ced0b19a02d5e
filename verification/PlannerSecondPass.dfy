/** Which suffix a loser gets, told from the first pass and the losers before it (planner.go:269-305). */
module PlannerSecondPass {
  import opened Sorting
  import opened Basics
  import opened PlannerModel
  import opened PlannerRanking
  import opened PlannerSuffix
  import opened PlannerCollisions
  import opened PlannerSafety
  import opened PlannerNames
  import opened PlannerFirstPass
  import opened PlannerRoom

  /** Of an earlier group, or better placed in the same one. */
  ghost predicate Before(p: Policy, work: seq<Work>, i: nat, j: nat)
    requires i < |work| && j < |work|
  {
    || Below(KeyOf(p, work[i]), KeyOf(p, work[j]))
    || (KeyOf(p, work[i]) == KeyOf(p, work[j]) && Beats(p, work[i], work[j]))
  }

  // The order of turns.

  lemma NextKeysLater(p: Policy, work: seq<Work>, keys: seq<string>, k: nat, i: nat, b: nat)
    requires Ready(p, work) && NoRepeats(keys) && Ascending(keys, Below) && k < |keys|
    requires InGroup(p, work, keys[k], i) && b < |TraversalFrom(p, work, keys, k + 1)|
    ensures Before(p, work, i, TraversalFrom(p, work, keys, k + 1)[b])
  {
    var rest := TraversalFrom(p, work, keys, k + 1);
    TraversalMembers(p, work, keys, k + 1);
    assert rest[b] in rest;
    var m :| k + 1 <= m < |keys| && InGroup(p, work, keys[m], rest[b]);
    assert Below(keys[k], keys[m]);
  }

  ghost function TurnBefore(p: Policy, work: seq<Work>): (nat, nat) -> bool {
    (i: nat, j: nat) => i < |work| && j < |work| && Before(p, work, i, j)
  }

  lemma ConcatAscends<T(!new)>(xs: seq<T>, ys: seq<T>, less: (T, T) -> bool)
    requires Ascending(xs, less) && Ascending(ys, less)
    requires forall i, j | 0 <= i < |xs| && 0 <= j < |ys| :: less(xs[i], ys[j])
    ensures Ascending(xs + ys, less)
  {
  }

  lemma OrderAscends(p: Policy, work: seq<Work>, key: string)
    requires Ready(p, work)
    ensures Ascending(Order(p, work, key), TurnBefore(p, work))
    ensures forall i | i in Order(p, work, key) :: InGroup(p, work, key, i)
  {
    var order := Order(p, work, key);
    OrderNoRepeats(p, work, key);
    forall a, b | 0 <= a < b < |order| ensures TurnBefore(p, work)(order[a], order[b]) {
      assert order[a] in order && order[b] in order;
      assert PositionBeats(p, work)(order[a], order[b]);
    }
  }

  lemma {:induction false} TurnsAscend(p: Policy, work: seq<Work>, keys: seq<string>, k: nat)
    requires Ready(p, work) && NoRepeats(keys) && Ascending(keys, Below)
    ensures Ascending(TraversalFrom(p, work, keys, k), TurnBefore(p, work))
    decreases |keys| - k
  {
    if k < |keys| {
      var here, rest := Order(p, work, keys[k]), TraversalFrom(p, work, keys, k + 1);
      TurnsAscend(p, work, keys, k + 1);
      OrderAscends(p, work, keys[k]);
      forall i, j | 0 <= i < |here| && 0 <= j < |rest| ensures TurnBefore(p, work)(here[i], rest[j]) {
        assert here[i] in here;
        NextKeysLater(p, work, keys, k, here[i], j);
      }
      ConcatAscends(here, rest, TurnBefore(p, work));
    }
  }

  lemma BeforeOneWay(p: Policy, work: seq<Work>, i: nat, j: nat)
    requires Ready(p, work) && i < |work| && j < |work| && work[i].candidate && work[j].candidate
    ensures !(Before(p, work, i, j) && Before(p, work, j, i))
  {
    CompareFlips(KeyOf(p, work[i]), KeyOf(p, work[j]));
    BeatsConnected(p, work[i], work[j]);
  }

  lemma EarlierTurn(p: Policy, work: seq<Work>, a: nat, b: nat)
    requires Ready(p, work) && a < |Traversal(p, work)| && b < |Traversal(p, work)|
    ensures a < b <==> Before(p, work, Traversal(p, work)[a], Traversal(p, work)[b])
  {
    var i, j := Traversal(p, work)[a], Traversal(p, work)[b];
    GroupKeysMembers(p, work);
    VisitsCandidate(p, work, a);
    VisitsCandidate(p, work, b);
    BeforeOneWay(p, work, i, j);
    TurnsAscend(p, work, GroupKeys(p, work), 0);
    assert a < b ==> TurnBefore(p, work)(i, j);
    assert b < a ==> TurnBefore(p, work)(j, i);
  }

  lemma VisitsCandidate(p: Policy, work: seq<Work>, a: nat)
    requires Ready(p, work) && a < |Traversal(p, work)|
    ensures work[Traversal(p, work)[a]].candidate
  {
    assert Traversal(p, work)[a] in Traversal(p, work);
    TraversalVisits(p, work, Traversal(p, work)[a]);
  }

  // What is taken at each turn.

  /** What the turn of a loser leaves taken: its suffixed name or, without one, its current name. */
  ghost predicate Leaves(p: Policy, w: Work, o: Outcome, name: string) {
    match o
    case Numbered(_, suffixed) => p.fold(suffixed) == name
    case Rejected(_) => Shadows(p, w, name)
    case _ => false
  }

  lemma TurnLeaves(p: Policy, work: seq<Work>, i: nat, st: Stage, name: string)
    requires i < |work| == |st.out|
    ensures var r := NumberItem(p, work, i, st);
            name in r.taken <==> name in st.taken || (st.out[i] == Open && Leaves(p, work[i], r.out[i], name))
  {
  }

  /** Nothing happens to an item before and after its turn. */
  lemma OneTurn(p: Policy, work: seq<Work>, a: nat)
    requires Ready(p, work) && a < |Traversal(p, work)|
    ensures StageAt(p, work, a).out[Traversal(p, work)[a]] == Decided(p, work).out[Traversal(p, work)[a]]
    ensures StageAt(p, work, a + 1).out[Traversal(p, work)[a]] == Resolved(p, work).out[Traversal(p, work)[a]]
  {
    var t := Traversal(p, work);
    var i := t[a];
    GroupKeysMembers(p, work);
    TraversalMembers(p, work, GroupKeys(p, work), 0);
    ResolvedFlat(p, work);
    assert t[..|t|] == t;
    NumberItemsFrame(p, work, t[..a], 0, Occupied(p, work), i);
    StageAtSteps(p, work, a);
    NumberItemEffect(p, work, i, StageAt(p, work, a));
    StageAtRest(p, work, a + 1, |t|);
    NumberItemsFrame(p, work, t[a + 1..|t|], 0, StageAt(p, work, a + 1), i);
  }

  /** Some loser that had its turn before position `a` left the name taken. */
  ghost predicate LeftBy(p: Policy, work: seq<Work>, a: nat, name: string)
    requires a <= |Traversal(p, work)|
  {
    exists b: nat :: b < a && LeftAt(p, work, b, name)
  }

  ghost predicate LeftAt(p: Policy, work: seq<Work>, b: nat, name: string)
    requires b < |Traversal(p, work)|
  {
    var m := Traversal(p, work)[b];
    Decided(p, work).out[m] == Open && Leaves(p, work[m], Resolved(p, work).out[m], name)
  }

  lemma LeftByOneMore(p: Policy, work: seq<Work>, a: nat, name: string)
    requires a < |Traversal(p, work)|
    ensures LeftBy(p, work, a + 1, name) <==> LeftBy(p, work, a, name) || LeftAt(p, work, a, name)
  {
  }

  lemma TakenOneMore(p: Policy, work: seq<Work>, a: nat, name: string)
    requires Ready(p, work) && a < |Traversal(p, work)|
    ensures name in StageAt(p, work, a + 1).taken <==> name in StageAt(p, work, a).taken || LeftAt(p, work, a, name)
  {
    OneTurn(p, work, a);
    StageAtSteps(p, work, a);
    TurnLeaves(p, work, Traversal(p, work)[a], StageAt(p, work, a), name);
  }

  lemma {:induction false} TakenAt(p: Policy, work: seq<Work>, a: nat, name: string)
    requires Ready(p, work) && a <= |Traversal(p, work)|
    ensures name in StageAt(p, work, a).taken <==> name in Occupied(p, work).taken || LeftBy(p, work, a, name)
    decreases a
  {
    if a == 0 {
      assert Traversal(p, work)[..0] == [];
    } else {
      TakenAt(p, work, a - 1, name);
      TakenOneMore(p, work, a - 1, name);
      LeftByOneMore(p, work, a - 1, name);
    }
  }

  /** The name is kept from the first pass, or was left by a loser whose turn came before. */
  ghost predicate TakenBefore(p: Policy, work: seq<Work>, i: nat, name: string)
    requires i < |work|
  {
    || (exists m: nat :: m < |work| && (!work[m].candidate || TurnedAway(p, work, m)) && Shadows(p, work[m], name))
    || (exists m: nat :: m < |work| && Wins(p, work, m) && KeyOf(p, work[m]) == name)
    || (exists m: nat :: m < |work| && Loses(p, work, m) && Before(p, work, m, i)
                         && Leaves(p, work[m], Resolved(p, work).out[m], name))
  }

  lemma OccupiedExactly(p: Policy, work: seq<Work>, name: string)
    requires Ready(p, work)
    ensures name in Occupied(p, work).taken <==>
            || (exists m: nat ::
                  m < |work| && (!work[m].candidate || TurnedAway(p, work, m)) && Shadows(p, work[m], name))
            || (exists m: nat :: m < |work| && Wins(p, work, m) && KeyOf(p, work[m]) == name)
  {
    TakenExactly(p, work, name);
    DecidedGroups(p, work);
    forall m: nat | m < |work| ensures Decided(p, work).out[m] == Won <==> Wins(p, work, m) {
      if work[m].candidate {
        FirstPassExactly(p, work, m);
      }
    }
    assert name in WinnerNames(p, work, Decided(p, work).out)
           <==> exists m: nat :: m < |work| && Decided(p, work).out[m] == Won && KeyOf(p, work[m]) == name;
  }

  lemma LeftExactly(p: Policy, work: seq<Work>, a: nat, name: string)
    requires Ready(p, work) && a < |Traversal(p, work)|
    ensures LeftBy(p, work, a, name) <==>
            exists m: nat :: m < |work| && Loses(p, work, m) && Before(p, work, m, Traversal(p, work)[a])
                             && Leaves(p, work[m], Resolved(p, work).out[m], name)
  {
    var t := Traversal(p, work);
    if LeftBy(p, work, a, name) {
      var b: nat :| b < a && LeftAt(p, work, b, name);
      EarlierTurn(p, work, b, a);
      LoserOf(p, work, t[b]);
    }
    if m: nat :| m < |work| && Loses(p, work, m) && Before(p, work, m, t[a])
                 && Leaves(p, work[m], Resolved(p, work).out[m], name) {
      TraversalVisits(p, work, m);
      FirstPassExactly(p, work, m);
      var b: nat :| b < |t| && t[b] == m;
      EarlierTurn(p, work, b, a);
      assert LeftAt(p, work, b, name);
    }
  }

  lemma LoserOf(p: Policy, work: seq<Work>, i: nat)
    requires Ready(p, work) && i in Traversal(p, work)
    ensures i < |work| && work[i].candidate && (Decided(p, work).out[i] == Open <==> Loses(p, work, i))
  {
    TraversalVisits(p, work, i);
    FirstPassExactly(p, work, i);
  }

  lemma TakenBeforeExactly(p: Policy, work: seq<Work>, a: nat, name: string)
    requires Ready(p, work) && a < |Traversal(p, work)|
    ensures name in StageAt(p, work, a).taken <==> TakenBefore(p, work, Traversal(p, work)[a], name)
  {
    TakenAt(p, work, a, name);
    OccupiedExactly(p, work, name);
    LeftExactly(p, work, a, name);
  }

  // The outcome of a turn.

  /** Every name the device could be given is taken when its turn comes. */
  ghost predicate OutOfSuffixes(p: Policy, work: seq<Work>, i: nat)
    requires i < |work|
  {
    forall n | n in ValidSequences(p, work[i]) ::
      TakenBefore(p, work, i, p.fold(Suffixed(p, work[i].plan.desiredName, n)))
  }

  /** The least sequence whose name is valid and not taken when the turn comes. */
  ghost predicate FirstFree(p: Policy, work: seq<Work>, i: nat, n: nat)
    requires i < |work|
  {
    && n in ValidSequences(p, work[i])
    && !TakenBefore(p, work, i, p.fold(Suffixed(p, work[i].plan.desiredName, n)))
    && forall m | m in ValidSequences(p, work[i]) && m < n ::
         TakenBefore(p, work, i, p.fold(Suffixed(p, work[i].plan.desiredName, m)))
  }

  lemma UsableAt(p: Policy, work: seq<Work>, a: nat, n: nat)
    requires Ready(p, work) && a < |Traversal(p, work)| && 1 <= n <= MAX_SEQUENCE
    ensures var i := Traversal(p, work)[a];
            var base := work[i].plan.desiredName;
            Usable(p, base, work[i].record.device.platform, StageAt(p, work, a).taken, n)
            <==> n in ValidSequences(p, work[i]) && !TakenBefore(p, work, i, p.fold(Suffixed(p, base, n)))
  {
    var i := Traversal(p, work)[a];
    TakenBeforeExactly(p, work, a, p.fold(Suffixed(p, work[i].plan.desiredName, n)));
  }

  /** Some suffix is too long for the platform, or else all are taken or break the pattern. */
  ghost function WhyOutOfSuffixes(p: Policy, w: Work): Reason {
    if exists n: nat :: 1 <= n <= 1_000_000 && Overlong(p, w.plan.desiredName, w.record.device.platform, n)
    then SuffixTooLong else SequenceExhausted
  }

  /**
   * The second pass, turn by turn: a loser is turned away exactly if all its suffixed names are
   * taken when its turn comes, and otherwise gets the first that is not.
   */
  lemma SecondPassExactly(p: Policy, work: seq<Work>, i: nat)
    requires Ready(p, work) && i < |work| && Loses(p, work, i)
    ensures Resolved(p, work).out[i].Rejected? <==> OutOfSuffixes(p, work, i)
    ensures Resolved(p, work).out[i].Rejected? ==> Resolved(p, work).out[i].reason == WhyOutOfSuffixes(p, work[i])
    ensures Resolved(p, work).out[i].Numbered? <==> !OutOfSuffixes(p, work, i)
    ensures Resolved(p, work).out[i].Numbered? ==>
              var o := Resolved(p, work).out[i];
              FirstFree(p, work, i, o.sequence) && o.name == Suffixed(p, work[i].plan.desiredName, o.sequence)
  {
    TraversalVisits(p, work, i);
    FirstPassExactly(p, work, i);
    var t := Traversal(p, work);
    var a: nat :| a < |t| && t[a] == i;
    OneTurn(p, work, a);
    StageAtSteps(p, work, a);
    var st := StageAt(p, work, a);
    SearchExact(p, work[i].plan.desiredName, work[i].record.device.platform, st.taken);
    forall n: nat | 1 <= n <= MAX_SEQUENCE
      ensures Usable(p, work[i].plan.desiredName, work[i].record.device.platform, st.taken, n)
              <==> n in ValidSequences(p, work[i])
                   && !TakenBefore(p, work, i, p.fold(Suffixed(p, work[i].plan.desiredName, n)))
    {
      UsableAt(p, work, a, n);
    }
  }

  /** Nobody at all is turned away exactly if the fixed names are free and every loser finds a free suffixed name. */
  lemma NobodyRejectedExactly(p: Policy, work: seq<Work>)
    requires Ready(p, work)
    ensures (forall i: nat | i < |work| :: !Resolved(p, work).out[i].Rejected?)
            <==> && FixedNamesFree(p, work)
                 && forall i: nat | i < |work| && Loses(p, work, i) :: !OutOfSuffixes(p, work, i)
  {
    NobodyTurnedAwayExactly(p, work);
    ResolvedItems(p, work);
    forall i: nat | i < |work|
      ensures Resolved(p, work).out[i].Rejected?
              <==> Decided(p, work).out[i].Rejected? || (Loses(p, work, i) && OutOfSuffixes(p, work, i))
    {
      RejectedEitherWay(p, work, i);
    }
  }

  lemma RejectedEitherWay(p: Policy, work: seq<Work>, i: nat)
    requires Ready(p, work) && i < |work|
    ensures Resolved(p, work).out[i].Rejected?
            <==> Decided(p, work).out[i].Rejected? || (Loses(p, work, i) && OutOfSuffixes(p, work, i))
  {
    ResolvedTotal(p, work, i);
    ResolvedItems(p, work);
    if work[i].candidate {
      FirstPassExactly(p, work, i);
      if Loses(p, work, i) {
        SecondPassExactly(p, work, i);
      } else {
        SettledFromTheStart(p, work, i);
      }
    } else {
      DecidedGroups(p, work);
    }
  }
}
