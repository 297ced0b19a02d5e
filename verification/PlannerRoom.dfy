/** When the suffix search of a loser succeeds, told from its input alone (planner.go:280-304, 336-351). */
module PlannerRoom {
  import opened PlannerModel
  import opened PlannerRanking
  import opened PlannerSuffix
  import opened PlannerCollisions
  import opened PlannerSafety
  import opened PlannerNames
  import opened PlannerFirstPass

  /** The sequences that give this device a valid name, taken or not. */
  ghost function ValidSequences(p: Policy, w: Work): set<nat> {
    set n: nat | 1 <= n <= 1_000_000
                 && InvalidName(p, Suffixed(p, w.plan.desiredName, n), w.record.device.platform) == NoFault
  }

  /** Every loser has at least as many valid suffixed names as there are devices. */
  ghost predicate Roomy(p: Policy, work: seq<Work>) {
    forall i: nat | i < |work| && Loses(p, work, i) :: |ValidSequences(p, work[i])| >= |work|
  }

  /** Of more sequences than occupied names, one gives a free name. */
  lemma {:induction false} SomeSequenceIsFree(p: Policy, base: string, sequences: set<nat>, occupied: set<string>)
    requires FoldKeepsDigits(p) && |sequences| > |occupied|
    ensures exists n: nat :: n in sequences && p.fold(Suffixed(p, base, n)) !in occupied
    decreases |sequences|
  {
    var n: nat :| n in sequences;
    var name := p.fold(Suffixed(p, base, n));
    if name in occupied {
      SomeSequenceIsFree(p, base, sequences - {n}, occupied - {name});
      var m: nat :| m in sequences - {n} && p.fold(Suffixed(p, base, m)) !in occupied - {name};
      FoldedSuffixesDiffer(p, base, m, n);
    }
  }

  // Every occupied name is due to a device that has had its turn.

  /** The name that counts as taken because of this device. */
  function Owed(p: Policy, w: Work, o: Outcome): string {
    match o
    case Won => KeyOf(p, w)
    case Numbered(_, name) => p.fold(name)
    case _ => p.fold(w.plan.currentName)
  }

  predicate Waiting(work: seq<Work>, out: seq<Outcome>, m: nat)
    requires |work| == |out|
  {
    m < |work| && work[m].candidate && out[m] == Open
  }

  ghost predicate Accounted(p: Policy, work: seq<Work>, st: Stage)
    requires |work| == |st.out|
  {
    forall name | name in st.taken ::
      exists m: nat :: m < |work| && !Waiting(work, st.out, m) && Owed(p, work[m], st.out[m]) == name
  }

  function OwedNames(p: Policy, work: seq<Work>, out: seq<Outcome>, n: nat): set<string>
    requires n <= |work| == |out|
  {
    if n == 0 then {}
    else OwedNames(p, work, out, n - 1) + (if Waiting(work, out, n - 1) then {} else {Owed(p, work[n - 1], out[n - 1])})
  }

  lemma {:induction false} OwedCount(p: Policy, work: seq<Work>, out: seq<Outcome>, n: nat, i: nat)
    requires n <= |work| == |out| && Waiting(work, out, i)
    ensures |OwedNames(p, work, out, n)| <= if i < n then n - 1 else n
    ensures forall m: nat | m < n && !Waiting(work, out, m) :: Owed(p, work[m], out[m]) in OwedNames(p, work, out, n)
  {
    if n > 0 {
      OwedCount(p, work, out, n - 1, i);
    }
  }

  /** While a device waits, fewer names are taken than there are devices. */
  lemma FewTaken(p: Policy, work: seq<Work>, st: Stage, i: nat)
    requires |work| == |st.out| && Accounted(p, work, st) && Waiting(work, st.out, i)
    ensures |st.taken| < |work|
  {
    var owed := OwedNames(p, work, st.out, |work|);
    OwedCount(p, work, st.out, |work|, i);
    SubsetNoLarger(st.taken, owed);
  }

  lemma OccupiedAccounted(p: Policy, work: seq<Work>)
    requires Ready(p, work)
    ensures Accounted(p, work, Occupied(p, work))
  {
    var st := Occupied(p, work);
    forall name | name in st.taken
      ensures exists m: nat :: m < |work| && !Waiting(work, st.out, m) && Owed(p, work[m], st.out[m]) == name
    {
      if name in Decided(p, work).taken {
        TakenExactly(p, work, name);
        var m: nat :| m < |work| && (!work[m].candidate || TurnedAway(p, work, m)) && Shadows(p, work[m], name);
        KeptIsOwed(p, work, m, name);
      } else {
        var m: nat :| m < |work| && st.out[m] == Won && KeyOf(p, work[m]) == name;
      }
    }
  }

  lemma KeptIsOwed(p: Policy, work: seq<Work>, m: nat, name: string)
    requires Ready(p, work) && m < |work| && (!work[m].candidate || TurnedAway(p, work, m)) && Shadows(p, work[m], name)
    ensures !Waiting(work, Decided(p, work).out, m) && Owed(p, work[m], Decided(p, work).out[m]) == name
  {
    DecidedGroups(p, work);
    if work[m].candidate {
      FirstPassExactly(p, work, m);
    }
  }

  lemma NumberItemAccounted(p: Policy, work: seq<Work>, i: nat, st: Stage)
    requires i < |work| == |st.out| && work[i].candidate && Accounted(p, work, st)
    ensures Accounted(p, work, NumberItem(p, work, i, st))
  {
    var r := NumberItem(p, work, i, st);
    NumberItemEffect(p, work, i, st);
    forall name | name in r.taken
      ensures exists m: nat :: m < |work| && !Waiting(work, r.out, m) && Owed(p, work[m], r.out[m]) == name
    {
      if name in st.taken {
        var m: nat :| m < |work| && !Waiting(work, st.out, m) && Owed(p, work[m], st.out[m]) == name;
        assert r.out[m] == st.out[m];
      } else {
        assert st.out[i] == Open && Owed(p, work[i], r.out[i]) == name;
      }
    }
  }

  // Each loser's search.

  /** With more valid names than devices a waiting item is numbered. */
  lemma TurnSucceeds(p: Policy, work: seq<Work>, i: nat, st: Stage)
    requires |work| == |st.out| && Accounted(p, work, st) && Waiting(work, st.out, i) && !work[i].authoritative
    requires FoldKeepsDigits(p) && |ValidSequences(p, work[i])| >= |work|
    ensures NumberItem(p, work, i, st).out[i].Numbered?
  {
    var base, platform := work[i].plan.desiredName, work[i].record.device.platform;
    FewTaken(p, work, st, i);
    SomeSequenceIsFree(p, base, ValidSequences(p, work[i]), st.taken);
    var n: nat :| n in ValidSequences(p, work[i]) && p.fold(Suffixed(p, base, n)) !in st.taken;
    assert Usable(p, base, platform, st.taken, n);
    SearchExact(p, base, platform, st.taken);
  }

  lemma {:induction false} RunSucceeds(p: Policy, work: seq<Work>, order: seq<nat>, k: nat, i: nat, st: Stage)
    requires |work| == |st.out| && Within(|work|, order) && Accounted(p, work, st)
    requires forall j | k <= j < |order| :: work[order[j]].candidate
    requires exists j :: k <= j < |order| && order[j] == i
    requires Waiting(work, st.out, i) && !work[i].authoritative
    requires FoldKeepsDigits(p) && |ValidSequences(p, work[i])| >= |work|
    ensures NumberItems(p, work, order, k, st).out[i].Numbered?
    decreases |order| - k
  {
    var next := NumberItem(p, work, order[k], st);
    NumberItemEffect(p, work, order[k], st);
    if order[k] == i {
      TurnSucceeds(p, work, i, st);
      NumberItemsProgress(p, work, order, k + 1, next);
    } else {
      NumberItemAccounted(p, work, order[k], st);
      RunSucceeds(p, work, order, k + 1, i, next);
    }
  }

  /** A loser with at least as many valid suffixed names as there are devices is numbered. */
  lemma RoomyLoserIsNumbered(p: Policy, work: seq<Work>, i: nat)
    requires Ready(p, work) && i < |work| && Loses(p, work, i)
    requires FoldKeepsDigits(p) && |ValidSequences(p, work[i])| >= |work|
    ensures Resolved(p, work).out[i].Numbered?
  {
    var t := Traversal(p, work);
    FirstPassExactly(p, work, i);
    OccupiedAccounted(p, work);
    ResolvedFlat(p, work);
    forall j | 0 <= j < |t| ensures work[t[j]].candidate {
      TraversalVisits(p, work, t[j]);
      assert t[j] in t;
    }
    TraversalVisits(p, work, i);
    RunSucceeds(p, work, t, 0, i, Occupied(p, work));
  }

  lemma NumberIsValid(p: Policy, work: seq<Work>, i: nat)
    requires Ready(p, work) && i < |work| && work[i].candidate && Resolved(p, work).out[i].Numbered?
    ensures Resolved(p, work).out[i].sequence in ValidSequences(p, work[i])
  {
    ResolvedItems(p, work);
    OccupiedHasNoNumbers(p, work, i);
    NumberedName(p, work, i);
  }

  /** A loser without any valid suffixed name is turned away. */
  lemma CrampedLoserIsTurnedAway(p: Policy, work: seq<Work>, i: nat)
    requires Ready(p, work) && i < |work| && Loses(p, work, i) && ValidSequences(p, work[i]) == {}
    ensures Resolved(p, work).out[i].Rejected?
  {
    FirstPassExactly(p, work, i);
    ResolvedItems(p, work);
    ResolvedTotal(p, work, i);
    if Resolved(p, work).out[i].Numbered? {
      NumberIsValid(p, work, i);
    }
  }

  lemma SettledFromTheStart(p: Policy, work: seq<Work>, i: nat)
    requires Ready(p, work) && i < |work| && work[i].candidate && !Loses(p, work, i)
    ensures Resolved(p, work).out[i] == if Wins(p, work, i) then Won else Decided(p, work).out[i]
    ensures Resolved(p, work).out[i].Rejected? <==> TurnedAway(p, work, i)
  {
    FirstPassExactly(p, work, i);
    ResolvedItems(p, work);
  }

  /** With free fixed names and room for every loser, collision resolution turns nobody away. */
  lemma NobodyTurnedAway(p: Policy, work: seq<Work>)
    requires Ready(p, work) && FixedNamesFree(p, work) && Roomy(p, work) && FoldKeepsDigits(p)
    ensures forall i: nat | i < |work| :: !Resolved(p, work).out[i].Rejected?
  {
    forall i: nat | i < |work| ensures !Resolved(p, work).out[i].Rejected? {
      ResolvedTotal(p, work, i);
      if work[i].candidate {
        if Loses(p, work, i) {
          RoomyLoserIsNumbered(p, work, i);
        } else {
          SettledFromTheStart(p, work, i);
          FreeMeansKept(p, work, i);
        }
      }
    }
  }
}
