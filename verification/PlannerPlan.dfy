/** The plan for a complete inventory, as a function of the records (planner.go, Plan and evaluate). */
module PlannerPlan {
  import opened Basics
  import opened Sorting
  import opened PlannerModel
  import opened PlannerRanking
  import opened PlannerSuffix
  import opened PlannerCollisions
  import opened PlannerSafety
  import opened PlannerNames

  predicate RecordBelow(a: Record, b: Record) {
    KeyBelow(Identity(a), Identity(b))
  }

  ghost predicate DistinctIdentities(records: seq<Record>) {
    forall i, j | 0 <= i < j < |records| :: Identity(records[i]) != Identity(records[j])
  }

  function SortRecords(records: seq<Record>): seq<Record> {
    Sort(records, RecordBelow)
  }

  ghost function Prepare(p: Policy, r: Record): Work {
    WithRanks(p, Evaluate(p, r))
  }

  ghost function Prepared(p: Policy, records: seq<Record>): (work: seq<Work>)
    ensures |work| == |records|
  {
    SortKeeps(records, RecordBelow);
    seq(|records|, i requires 0 <= i < |records| => Prepare(p, SortRecords(records)[i]))
  }

  ghost function PlanItems(p: Policy, records: seq<Record>): (items: seq<Item>)
    ensures |items| == |records|
  {
    seq(|records|, i requires 0 <= i < |records| => Resolve(p, Prepared(p, records))[i].plan)
  }

  datatype PlanResult = Planned(items: seq<Item>) | Duplicated

  ghost function Plan(p: Policy, records: seq<Record>): PlanResult {
    if DistinctIdentities(records) then Planned(PlanItems(p, records)) else Duplicated
  }

  // Sorting by identity.

  lemma RecordsLinear(records: seq<Record>)
    requires DistinctIdentities(records)
    ensures Linear(Elements(records), RecordBelow)
    ensures NoRepeats(records)
  {
    var s := Elements(records);
    forall a, b | a in s && b in s ensures RecordBelow(a, b) ==> !RecordBelow(b, a) {
      CompareKeysFlips(Identity(a), Identity(b));
    }
    forall a, b | a in s && b in s && a != b ensures RecordBelow(a, b) || RecordBelow(b, a) {
      var i :| 0 <= i < |records| && records[i] == a;
      var j :| 0 <= j < |records| && records[j] == b;
      assert i < j || j < i;
      CompareKeysFlips(Identity(a), Identity(b));
    }
    forall a, b, c | a in s && b in s && c in s && RecordBelow(a, b) && RecordBelow(b, c) ensures RecordBelow(a, c) {
      CompareKeysTransitive(Identity(a), Identity(b), Identity(c));
    }
  }

  lemma SortRecordsOrders(records: seq<Record>)
    requires DistinctIdentities(records)
    ensures Ascending(SortRecords(records), RecordBelow)
    ensures multiset(SortRecords(records)) == multiset(records)
    ensures |SortRecords(records)| == |records|
  {
    RecordsLinear(records);
    SortAscends(records, RecordBelow);
    SortKeeps(records, RecordBelow);
  }

  /** A strictly ascending arrangement of the records is the sorted one. */
  lemma SortRecordsUnique(records: seq<Record>, sorted: seq<Record>)
    requires DistinctIdentities(records) && multiset(sorted) == multiset(records)
    requires Ascending(sorted, RecordBelow)
    ensures sorted == SortRecords(records)
  {
    SortRecordsOrders(records);
    MembersOf(sorted, SortRecords(records));
    forall a, b | a in sorted && b in sorted && RecordBelow(a, b) ensures !RecordBelow(b, a) {
      CompareKeysFlips(Identity(a), Identity(b));
    }
    AscendingUnique(sorted, SortRecords(records), RecordBelow);
  }

  lemma {:induction false} DistinctByCounts(xs: seq<Record>, ys: seq<Record>)
    requires DistinctIdentities(xs) && multiset(xs) == multiset(ys)
    ensures DistinctIdentities(ys)
  {
    MembersOf(xs, ys);
    RecordsLinear(xs);
    NoRepeatsByCounts(xs, ys);
    forall i, j | 0 <= i < j < |ys| ensures Identity(ys[i]) != Identity(ys[j]) {
      assert ys[i] in xs && ys[j] in xs;
      var a :| 0 <= a < |xs| && xs[a] == ys[i];
      var b :| 0 <= b < |xs| && xs[b] == ys[j];
      assert a < b || b < a;
    }
  }

  lemma NoRepeatsByCounts<T>(xs: seq<T>, ys: seq<T>)
    requires NoRepeats(xs) && multiset(xs) == multiset(ys)
    ensures NoRepeats(ys)
  {
    forall i, j | 0 <= i < j < |ys| ensures ys[i] != ys[j] {
      CountsAtMostOnce(xs, ys[i]);
      assert ys == ys[..i] + [ys[i]] + ys[i + 1..j] + [ys[j]] + ys[j + 1..];
      assert multiset(ys)
             == multiset(ys[..i]) + multiset{ys[i]} + multiset(ys[i + 1..j]) + multiset{ys[j]} + multiset(ys[j + 1..]);
    }
  }

  lemma {:induction false} CountsAtMostOnce<T>(xs: seq<T>, x: T)
    requires NoRepeats(xs)
    ensures multiset(xs)[x] <= 1
  {
    if xs != [] {
      CountsAtMostOnce(xs[1..], x);
      assert xs == [xs[0]] + xs[1..];
      if xs[0] == x {
        assert x !in xs[1..];
        assert x !in multiset(xs[1..]);
      }
    }
  }

  /** The plan does not depend on the order in which the inventory is listed. */
  lemma PlanIgnoresOrder(p: Policy, records: seq<Record>, other: seq<Record>)
    requires multiset(records) == multiset(other)
    ensures Plan(p, records) == Plan(p, other)
  {
    if DistinctIdentities(records) {
      DistinctByCounts(records, other);
      SortRecordsOrders(other);
      SortRecordsUnique(records, SortRecords(other));
      MembersOf(records, other);
      assert Prepared(p, records) == Prepared(p, other);
      assert PlanItems(p, records) == PlanItems(p, other);
    } else if DistinctIdentities(other) {
      DistinctByCounts(other, records);
    }
  }

  // What evaluation guarantees about one record.

  predicate NotPlanned(status: Status) {
    status == Excluded || status == Invalid || status == Unmanaged || status == Unresolved
  }

  ghost predicate Mirrors(r: Record, w: Work) {
    && w.record == r
    && w.plan.source == r.device.source && w.plan.namespace == r.device.namespace && w.plan.id == r.device.id
    && w.plan.serialNumber == r.device.serialNumber && w.plan.platform == r.device.platform
    && w.plan.currentName == r.device.currentName && w.plan.user == r.user.userPrincipalName
  }

  /** A candidate has a valid plain name and no status yet; anything else has its final status. */
  ghost predicate WellEvaluated(p: Policy, r: Record, w: Work) {
    && Mirrors(r, w)
    && (w.candidate ==> InvalidName(p, w.plan.desiredName, r.device.platform) == NoFault)
    && (!w.candidate ==> NotPlanned(w.plan.status))
    && (w.authoritative <==> FixedName(p, r).Some?)
    && (w.candidate && w.authoritative ==> w.plan.desiredName == FixedName(p, r).value)
  }

  /** The name an override fixes for this record, if one does. */
  function FixedName(p: Policy, r: Record): Option<string> {
    match FindOverride(p, Input(r.device, r.user, map[]), 0)
    case OverrideMatch(o) => if o.exclude then None else Some(o.desiredName)
    case _ => None
  }

  lemma OverrideIsWell(p: Policy, r: Record, o: Override)
    requires FindOverride(p, Input(r.device, r.user, map[]), 0) == OverrideMatch(o)
    ensures WellEvaluated(p, r, ApplyOverride(p, NewWork(r), o)) && ApplyOverride(p, NewWork(r), o).ranks == []
  {
  }

  lemma RuleIsWell(p: Policy, r: Record, outcome: RuleOutcome)
    requires FixedName(p, r) == None
    ensures WellEvaluated(p, r, ApplyRule(p, NewWork(r), outcome)) && ApplyRule(p, NewWork(r), outcome).ranks == []
  {
  }

  lemma EvaluateIsWell(p: Policy, r: Record)
    ensures WellEvaluated(p, r, Evaluate(p, r)) && Evaluate(p, r).ranks == []
  {
    var input := Input(r.device, r.user, map[]);
    match FindOverride(p, input, 0)
    case OverrideError(name) =>
    case OverrideMatch(o) => OverrideIsWell(p, r, o);
    case NoOverride =>
      match BindVariables(p, input, VariableNames(p), 0, map[])
      case VariableError(reason) =>
      case Conflict(name) =>
      case Bound(variables) => RuleIsWell(p, r, FindRule(p, input.(variables := variables), 0));
  }

  lemma {:induction false} RankFromEffect(p: Policy, w: Work, k: nat)
    requires w.candidate && |w.ranks| == k <= |p.ranks|
    requires forall j | 0 <= j < k :: w.ranks[j].kind == p.ranks[j].program.kind && ComparableKind(w.ranks[j].kind)
    ensures RankFrom(p, w, k).candidate ==>
              RankFrom(p, w, k) == w.(ranks := RankFrom(p, w, k).ranks) && Ranked(p, RankFrom(p, w, k).ranks)
    ensures !RankFrom(p, w, k).candidate ==>
              RankFrom(p, w, k) == Invalidate(w, RankFrom(p, w, k).plan.reason).(ranks := RankFrom(p, w, k).ranks)
    decreases |p.ranks| - k
  {
    if k < |p.ranks| {
      match EvalRank(p.ranks[k].program, Input(w.record.device, w.record.user, map[]))
      case None =>
      case Some(v) =>
        RankFromEffect(p, w.(ranks := w.ranks + [v]), k + 1);
    }
  }

  lemma PrepareIsWell(p: Policy, r: Record)
    ensures WellEvaluated(p, r, Prepare(p, r))
    ensures Prepare(p, r).candidate ==> Ranked(p, Prepare(p, r).ranks)
  {
    EvaluateIsWell(p, r);
    var w := Evaluate(p, r);
    if w.candidate {
      RankFromEffect(p, w, 0);
    }
  }

  lemma PreparedIsReady(p: Policy, records: seq<Record>)
    requires DistinctIdentities(records)
    ensures Ready(p, Prepared(p, records))
  {
    var work, sorted := Prepared(p, records), SortRecords(records);
    SortRecordsOrders(records);
    forall i | 0 <= i < |work|
      ensures work[i].record == sorted[i] && (work[i].candidate ==> Ranked(p, work[i].ranks))
    {
      PrepareIsWell(p, sorted[i]);
    }
    forall i, j | 0 <= i < j < |work| ensures KeyBelow(Identity(work[i].record), Identity(work[j].record)) {
      assert RecordBelow(sorted[i], sorted[j]);
    }
  }

  // Totality and validity.

  /** The outcome of the record at position `i` of the sorted inventory. */
  ghost function OutcomeAt(p: Policy, records: seq<Record>, i: nat): Outcome
    requires i < |records|
  {
    Resolved(p, Prepared(p, records)).out[i]
  }

  lemma ItemAt(p: Policy, records: seq<Record>, i: nat)
    requires i < |records|
    ensures i < |SortRecords(records)|
    ensures PlanItems(p, records)[i] == Settle(Prepare(p, SortRecords(records)[i]), OutcomeAt(p, records, i)).plan
  {
    SortKeeps(records, RecordBelow);
  }

  /** What recording an outcome makes of a prepared item. */
  lemma SettleTells(p: Policy, r: Record, w: Work, o: Outcome)
    requires WellEvaluated(p, r, w) && (o == Open <==> !w.candidate)
    ensures Finished(Settle(w, o).plan) <==> Settled(o)
    ensures Settled(o) ==> Settle(w, o).plan.desiredName == FinalName(w, o) && w.candidate
    ensures Settle(w, o).plan.status != Unset
    ensures Settle(w, o).plan.status == Rename ==> Settle(w, o).plan.currentName != Settle(w, o).plan.desiredName
    ensures Settle(w, o).plan.status == Unchanged ==> Settle(w, o).plan.currentName == Settle(w, o).plan.desiredName
  {
  }

  /** An item is finished exactly when its outcome is settled, and its status tells whether its name changes. */
  lemma FinishedIffSettled(p: Policy, records: seq<Record>, i: nat)
    requires DistinctIdentities(records) && i < |records|
    ensures var item := PlanItems(p, records)[i];
            && (Finished(item) <==> Settled(OutcomeAt(p, records, i)))
            && (Finished(item) ==> item.desiredName == FinalName(Prepared(p, records)[i], OutcomeAt(p, records, i)))
            && item.status != Unset
            && (item.status == Rename ==> item.currentName != item.desiredName)
            && (item.status == Unchanged ==> item.currentName == item.desiredName)
    ensures Settled(OutcomeAt(p, records, i)) ==> Prepared(p, records)[i].candidate
  {
    PreparedIsReady(p, records);
    ItemAt(p, records, i);
    var r := SortRecords(records)[i];
    PrepareIsWell(p, r);
    ResolvedTotal(p, Prepared(p, records), i);
    SettleTells(p, r, Prepare(p, r), OutcomeAt(p, records, i));
  }

  ghost predicate ItemMirrors(r: Record, item: Item) {
    && Key(item.source, item.namespace, item.id) == Identity(r)
    && item.currentName == r.device.currentName && item.platform == r.device.platform
    && item.serialNumber == r.device.serialNumber && item.user == r.user.userPrincipalName
  }

  lemma SettleMirrors(r: Record, w: Work, o: Outcome)
    requires Mirrors(r, w)
    ensures ItemMirrors(r, Settle(w, o).plan) && Settle(w, o).plan.currentName == w.plan.currentName
  {
  }

  lemma ItemKeepsRecord(p: Policy, records: seq<Record>, i: nat)
    requires i < |records|
    ensures |SortRecords(records)| == |records|
    ensures ItemMirrors(SortRecords(records)[i], PlanItems(p, records)[i])
    ensures PlanItems(p, records)[i].currentName == Prepared(p, records)[i].plan.currentName
  {
    ItemAt(p, records, i);
    PrepareIsWell(p, SortRecords(records)[i]);
    SettleMirrors(SortRecords(records)[i], Prepare(p, SortRecords(records)[i]), OutcomeAt(p, records, i));
    SortKeeps(records, RecordBelow);
  }

  lemma SettledNameIsValid(p: Policy, work: seq<Work>, i: nat)
    requires i < |work| && Settled(Resolved(p, work).out[i])
    requires InvalidName(p, work[i].plan.desiredName, work[i].record.device.platform) == NoFault
    ensures InvalidName(p, FinalName(work[i], Resolved(p, work).out[i]), work[i].record.device.platform) == NoFault
    ensures work[i].authoritative ==> FinalName(work[i], Resolved(p, work).out[i]) == work[i].plan.desiredName
  {
    ResolvedItems(p, work);
    OccupiedHasNoNumbers(p, work, i);
  }

  /** What a reader of the plan may rely on for the item of record `r`. */
  ghost predicate GoodItem(p: Policy, r: Record, item: Item) {
    && ItemMirrors(r, item)
    && item.status != Unset
    && (Finished(item) ==> InvalidName(p, item.desiredName, r.device.platform) == NoFault)
    && (Finished(item) && FixedName(p, r).Some? ==> item.desiredName == FixedName(p, r).value)
    && (item.status == Rename ==> item.currentName != item.desiredName)
    && (item.status == Unchanged ==> item.currentName == item.desiredName)
  }

  /**
   * One item for each record, in identity order, each with a real status; every finished name is
   * non-empty, within its platform's limit and matches the pattern; a fixed name is kept verbatim.
   */
  lemma PlanIsTotalAndValid(p: Policy, records: seq<Record>, i: nat)
    requires DistinctIdentities(records) && i < |records|
    ensures |PlanItems(p, records)| == |records| == |SortRecords(records)|
    ensures Ascending(SortRecords(records), RecordBelow) && multiset(SortRecords(records)) == multiset(records)
    ensures GoodItem(p, SortRecords(records)[i], PlanItems(p, records)[i])
  {
    SortRecordsOrders(records);
    FinishedIffSettled(p, records, i);
    ItemKeepsRecord(p, records, i);
    PrepareIsWell(p, SortRecords(records)[i]);
    if Settled(OutcomeAt(p, records, i)) {
      SettledNameIsValid(p, Prepared(p, records), i);
    }
  }

  /** The branch that refuses to number a fixed name is never taken. */
  lemma FixedNamesNeverNumbered(p: Policy, records: seq<Record>, i: nat)
    requires DistinctIdentities(records) && i < |records|
    ensures Prepared(p, records)[i].authoritative && Prepared(p, records)[i].candidate
            ==> Decided(p, Prepared(p, records)).out[i] != Open
    ensures !(OutcomeAt(p, records, i).Rejected? && OutcomeAt(p, records, i).reason == AuthoritativeSuffix)
  {
    var work := Prepared(p, records);
    PreparedIsReady(p, records);
    if work[i].candidate && Decided(p, work).out[i] == Open {
      OpenGroupTaken(p, work, i);
    }
    NeverAuthoritativeSuffix(p, work, i);
  }

  lemma {:induction false} NumberItemsReasons(p: Policy, work: seq<Work>, order: seq<nat>, k: nat, st: Stage, i: nat)
    requires |work| == |st.out| && Within(|work|, order) && i < |work|
    requires st.out[i] != Open || !work[i].authoritative
    requires st.out[i] != Rejected(AuthoritativeSuffix)
    ensures NumberItems(p, work, order, k, st).out[i] != Rejected(AuthoritativeSuffix)
    decreases |order| - k
  {
    if k < |order| {
      NumberItemEffect(p, work, order[k], st);
      SearchExact(p, work[i].plan.desiredName, work[i].record.device.platform, st.taken);
      SearchFromReason(p, work[i].plan.desiredName, work[i].record.device.platform, st.taken, 1);
      NumberItemsReasons(p, work, order, k + 1, NumberItem(p, work, order[k], st), i);
    }
  }

  lemma {:induction false} SearchFromReason(p: Policy, base: string, platform: string, occupied: set<string>, n: nat)
    ensures SearchFrom(p, base, platform, occupied, n).NotFound? ==>
              SearchFrom(p, base, platform, occupied, n).reason != AuthoritativeSuffix
    decreases MAX_SEQUENCE + 1 - n
  {
    if n <= MAX_SEQUENCE {
      SearchFromReason(p, base, platform, occupied, n + 1);
    }
  }

  lemma NeverAuthoritativeSuffix(p: Policy, work: seq<Work>, i: nat)
    requires Ready(p, work) && i < |work|
    ensures Resolved(p, work).out[i] != Rejected(AuthoritativeSuffix)
  {
    ResolvedFlat(p, work);
    DecidedGroups(p, work);
    if work[i].candidate {
      assert GroupDecided(p, work, KeyOf(p, work[i]), Decided(p, work)) && InGroup(p, work, KeyOf(p, work[i]), i);
      DecidedReasons(p, work, GroupKeys(p, work), 0, Start(p, work), i);
      NumberItemsReasons(p, work, Traversal(p, work), 0, Occupied(p, work), i);
    } else {
      ResolvedTotal(p, work, i);
    }
  }

  lemma {:induction false} DecidedReasons(p: Policy, work: seq<Work>, keys: seq<string>, k: nat, st: Stage, i: nat)
    requires |work| == |st.out| && i < |work| && st.out[i] != Rejected(AuthoritativeSuffix)
    ensures DecideFrom(p, work, keys, k, st).out[i] != Rejected(AuthoritativeSuffix)
    decreases |keys| - k
  {
    if k < |keys| {
      RejectFromEffect(p, work, st, Group(p, work, keys[k]), 0, AuthoritativeConflict);
      DecidedReasons(p, work, keys, k + 1, DecideGroup(p, work, keys[k], st), i);
    }
  }

  // Collisions.

  /** Finished items have pairwise distinct folded names. */
  lemma PlanNamesDistinct(p: Policy, records: seq<Record>, i: nat, j: nat)
    requires DistinctIdentities(records) && i < j < |records|
    requires Finished(PlanItems(p, records)[i]) && Finished(PlanItems(p, records)[j])
    ensures p.fold(PlanItems(p, records)[i].desiredName) != p.fold(PlanItems(p, records)[j].desiredName)
  {
    FinishedIffSettled(p, records, i);
    FinishedIffSettled(p, records, j);
    ResolvedItems(p, Prepared(p, records));
  }

  /** No finished name meets the current name of a device that was no candidate on entry. */
  lemma PlanAvoidsBystanders(p: Policy, records: seq<Record>, i: nat, j: nat)
    requires DistinctIdentities(records) && i < |records| && j < |records|
    requires Finished(PlanItems(p, records)[i])
    requires !Prepared(p, records)[j].candidate && PlanItems(p, records)[j].currentName != ""
    ensures p.fold(PlanItems(p, records)[i].desiredName) != p.fold(PlanItems(p, records)[j].currentName)
  {
    FinishedIffSettled(p, records, i);
    ItemKeepsRecord(p, records, j);
    SettledAvoidsBystanders(p, Prepared(p, records), i, j);
  }
}
