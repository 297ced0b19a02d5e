/** Applying a plan to the inventory and planning again. */
module PlannerReplan {
  import opened Sorting
  import opened PlannerModel
  import opened PlannerSuffix
  import opened PlannerCollisions
  import opened PlannerNames
  import opened PlannerConvergence
  import opened PlannerFixpoint
  import opened PlannerPlan

  /** The expression never reads device.current_name. */
  ghost predicate Blind(program: Program) {
    forall d: Device, name: string, u: User, v: map<string, string>
      {:trigger program.eval(Input(d.(currentName := name), u, v))}
      :: program.eval(Input(d.(currentName := name), u, v)) == program.eval(Input(d, u, v))
  }

  ghost predicate BlindCase(c: VariableCase) {
    Blind(c.when) && (c.ComputedCase? ==> Blind(c.expression))
  }

  ghost predicate BlindPolicy(p: Policy) {
    && (forall k | 0 <= k < |p.overrides| :: Blind(p.overrides[k].when))
    && (forall name, k | name in p.variables && 0 <= k < |p.variables[name]| :: BlindCase(p.variables[name][k]))
    && (forall k | 0 <= k < |p.rules| :: Blind(p.rules[k].when) && Blind(p.rules[k].desiredName))
    && (forall k | 0 <= k < |p.ranks| :: Blind(p.ranks[k].program))
  }

  lemma {:induction false} BlindOverrides(p: Policy, d: Device, u: User, name: string, k: nat)
    requires BlindPolicy(p)
    ensures FindOverride(p, Input(d.(currentName := name), u, map[]), k) == FindOverride(p, Input(d, u, map[]), k)
    decreases |p.overrides| - k
  {
    if k < |p.overrides| {
      assert Blind(p.overrides[k].when);
      BlindOverrides(p, d, u, name, k + 1);
    }
  }

  lemma {:induction false} BlindCases(p: Policy, v: string, d: Device, u: User, name: string, k: nat,
          values: set<string>)
    requires BlindPolicy(p) && v in p.variables
    ensures CollectCases(v, p.variables[v], Input(d.(currentName := name), u, map[]), k, values)
            == CollectCases(v, p.variables[v], Input(d, u, map[]), k, values)
    decreases |p.variables[v]| - k
  {
    if k < |p.variables[v]| {
      var c := p.variables[v][k];
      assert BlindCase(c);
      BlindCases(p, v, d, u, name, k + 1, values);
      match CaseValue(c, Input(d, u, map[]))
      case None =>
      case Some(value) => BlindCases(p, v, d, u, name, k + 1, values + {value});
    }
  }

  lemma {:induction false} BlindVariables(p: Policy, d: Device, u: User, name: string, names: seq<string>, k: nat,
          bound: map<string, string>)
    requires BlindPolicy(p) && forall i | 0 <= i < |names| :: names[i] in p.variables
    ensures BindVariables(p, Input(d.(currentName := name), u, map[]), names, k, bound)
            == BindVariables(p, Input(d, u, map[]), names, k, bound)
    decreases |names| - k
  {
    if k < |names| {
      BlindCases(p, names[k], d, u, name, 0, {});
      match CollectCases(names[k], p.variables[names[k]], Input(d, u, map[]), 0, {})
      case CaseError(_) =>
      case CaseValues(values) => BlindVariables(p, d, u, name, names, k + 1, BindValue(bound, names[k], values));
    }
  }

  lemma {:induction false} BlindRules(p: Policy, d: Device, u: User, v: map<string, string>, name: string, k: nat)
    requires BlindPolicy(p)
    ensures FindRule(p, Input(d.(currentName := name), u, v), k) == FindRule(p, Input(d, u, v), k)
    decreases |p.rules| - k
  {
    if k < |p.rules| {
      assert Blind(p.rules[k].when) && Blind(p.rules[k].desiredName);
      BlindRules(p, d, u, v, name, k + 1);
    }
  }

  lemma BlindEvaluate(p: Policy, r: Record, name: string)
    requires BlindPolicy(p)
    ensures Evaluate(p, RenamedRecord(r, name)) == WithName(Evaluate(p, r), name)
  {
    BlindOverrides(p, r.device, r.user, name, 0);
    BlindVariables(p, r.device, r.user, name, VariableNames(p), 0, map[]);
    match FindOverride(p, Input(r.device, r.user, map[]), 0)
    case OverrideError(_) =>
    case OverrideMatch(o) => ApplyOverrideCommutes(p, r, name, o);
    case NoOverride =>
      match BindVariables(p, Input(r.device, r.user, map[]), VariableNames(p), 0, map[])
      case VariableError(_) =>
      case Conflict(_) =>
      case Bound(v) =>
        BlindRules(p, r.device, r.user, v, name, 0);
        ApplyRuleCommutes(p, r, name, FindRule(p, Input(r.device, r.user, v), 0));
  }

  lemma ApplyOverrideCommutes(p: Policy, r: Record, name: string, o: Override)
    ensures ApplyOverride(p, NewWork(RenamedRecord(r, name)), o) == WithName(ApplyOverride(p, NewWork(r), o), name)
  {
  }

  lemma ApplyRuleCommutes(p: Policy, r: Record, name: string, outcome: RuleOutcome)
    ensures ApplyRule(p, NewWork(RenamedRecord(r, name)), outcome) == WithName(ApplyRule(p, NewWork(r), outcome), name)
  {
  }

  lemma {:induction false} BlindRanks(p: Policy, w: Work, name: string, k: nat)
    requires BlindPolicy(p)
    ensures RankFrom(p, WithName(w, name), k) == WithName(RankFrom(p, w, k), name)
    decreases |p.ranks| - k
  {
    if k < |p.ranks| {
      assert Blind(p.ranks[k].program);
      match EvalRank(p.ranks[k].program, Input(w.record.device, w.record.user, map[]))
      case None =>
      case Some(v) => BlindRanks(p, w.(ranks := w.ranks + [v]), name, k + 1);
    }
  }

  lemma BlindPrepare(p: Policy, r: Record, name: string)
    requires BlindPolicy(p)
    ensures Prepare(p, RenamedRecord(r, name)) == WithName(Prepare(p, r), name)
  {
    BlindEvaluate(p, r, name);
    BlindRanks(p, Evaluate(p, r), name, 0);
  }

  /** The name a device carries once its planned rename, if any, has taken effect. */
  function NameApplied(item: Item): string {
    if item.status == Rename then item.desiredName else item.currentName
  }

  /** The inventory after the plan has been applied. */
  ghost function Applied(p: Policy, records: seq<Record>): (r: seq<Record>)
    ensures |r| == |records|
  {
    SortKeeps(records, RecordBelow);
    seq(|records|,
        i requires 0 <= i < |records| => RenamedRecord(SortRecords(records)[i], NameApplied(PlanItems(p, records)[i])))
  }

  lemma NameAppliedIsNameAfter(p: Policy, records: seq<Record>, i: nat)
    requires DistinctIdentities(records) && i < |records|
    ensures NameApplied(PlanItems(p, records)[i]) == NameAfter(Prepared(p, records)[i], OutcomeAt(p, records, i))
  {
    FinishedIffSettled(p, records, i);
    ItemKeepsRecord(p, records, i);
  }

  lemma AppliedSorted(p: Policy, records: seq<Record>)
    requires DistinctIdentities(records)
    ensures DistinctIdentities(Applied(p, records))
    ensures SortRecords(Applied(p, records)) == Applied(p, records)
  {
    var sorted, after := SortRecords(records), Applied(p, records);
    SortRecordsOrders(records);
    forall i, j | 0 <= i < j < |after| ensures RecordBelow(after[i], after[j]) {
      assert RecordBelow(sorted[i], sorted[j]);
    }
    forall i, j | 0 <= i < j < |after| ensures Identity(after[i]) != Identity(after[j]) {
      assert RecordBelow(after[i], after[j]);
    }
    SortRecordsUnique(after, after);
  }

  lemma PreparedAt(p: Policy, records: seq<Record>, i: nat)
    requires i < |records|
    ensures |SortRecords(records)| == |records|
    ensures Prepared(p, records)[i] == Prepare(p, SortRecords(records)[i])
  {
    SortKeeps(records, RecordBelow);
  }

  lemma AppliedIsRenamedAt(p: Policy, records: seq<Record>, i: nat)
    requires DistinctIdentities(records) && BlindPolicy(p) && i < |records|
    ensures Prepared(p, Applied(p, records))[i]
            == WithName(Prepared(p, records)[i], NameAfter(Prepared(p, records)[i], OutcomeAt(p, records, i)))
  {
    AppliedSorted(p, records);
    PreparedAt(p, records, i);
    PreparedAt(p, Applied(p, records), i);
    BlindPrepare(p, SortRecords(records)[i], NameApplied(PlanItems(p, records)[i]));
    NameAppliedIsNameAfter(p, records, i);
  }

  /** Applying the plan commutes with preparing the work. */
  lemma AppliedIsRenamed(p: Policy, records: seq<Record>)
    requires DistinctIdentities(records) && BlindPolicy(p)
    ensures DistinctIdentities(Applied(p, records))
    ensures Prepared(p, Applied(p, records)) == Renamed(p, Prepared(p, records))
  {
    AppliedSorted(p, records);
    forall i: nat | i < |records| ensures Prepared(p, Applied(p, records))[i] == Renamed(p, Prepared(p, records))[i] {
      AppliedIsRenamedAt(p, records, i);
    }
  }

  /** How an item of the second plan reads when nothing is left to do. */
  function Confirmed(item: Item): Item {
    if Finished(item) then item.(currentName := item.desiredName, status := Unchanged, reason := AlreadyMatches)
    else item
  }

  /** Planning again gives the same desired names, and every finished item is unchanged. */
  ghost predicate NothingLeft(p: Policy, records: seq<Record>) {
    && |PlanItems(p, Applied(p, records))| == |records|
    && forall i | 0 <= i < |records| :: PlanItems(p, Applied(p, records))[i] == Confirmed(PlanItems(p, records)[i])
  }

  lemma SettleAgain(w: Work, o: Outcome)
    requires !Settled(o) ==> !Finished(Settle(w, o).plan)
    ensures Settle(WithName(w, NameAfter(w, o)), o).plan == Confirmed(Settle(w, o).plan)
  {
  }

  lemma StableMeansNothingLeft(p: Policy, records: seq<Record>)
    requires DistinctIdentities(records) && BlindPolicy(p) && Stable(p, Prepared(p, records))
    ensures NothingLeft(p, records)
  {
    AppliedIsRenamed(p, records);
    var work := Prepared(p, records);
    forall i: nat | i < |records|
      ensures PlanItems(p, Applied(p, records))[i] == Confirmed(PlanItems(p, records)[i])
    {
      FinishedIffSettled(p, records, i);
      SettleAgain(work[i], OutcomeAt(p, records, i));
    }
  }

  /** Without preserve_existing one application leaves nothing to do. */
  lemma OneApplyConverges(p: Policy, records: seq<Record>)
    requires DistinctIdentities(records) && BlindPolicy(p) && !p.preserveExisting
    ensures NothingLeft(p, records)
  {
    PreparedIsReady(p, records);
    OneRoundIsEnough(p, Prepared(p, records));
    StableMeansNothingLeft(p, records);
  }

  /** Where nothing is left to do, a second application changes no name. */
  lemma SecondApplyChangesNothing(p: Policy, records: seq<Record>)
    requires DistinctIdentities(records) && NothingLeft(p, records)
    ensures Applied(p, Applied(p, records)) == Applied(p, records)
  {
    var once := Applied(p, records);
    AppliedSorted(p, records);
    AppliedSorted(p, once);
    forall i: nat | i < |records| ensures Applied(p, once)[i] == once[i] {
      SameNameApplied(p, records, i);
    }
  }

  lemma SameNameApplied(p: Policy, records: seq<Record>, i: nat)
    requires DistinctIdentities(records) && NothingLeft(p, records) && i < |records|
    requires DistinctIdentities(Applied(p, records)) && SortRecords(Applied(p, records)) == Applied(p, records)
    ensures i < |Applied(p, Applied(p, records))| == |Applied(p, records)| == |records|
    ensures Applied(p, Applied(p, records))[i] == Applied(p, records)[i]
  {
    SortKeeps(records, RecordBelow);
    FinishedIffSettled(p, records, i);
    FinishedIffSettled(p, Applied(p, records), i);
    ItemKeepsRecord(p, records, i);
    ItemKeepsRecord(p, Applied(p, records), i);
  }

  /** With preserve_existing one application is enough as long as no device gives up a matching name for a number. */
  lemma OneApplyConvergesUnlessGivenUp(p: Policy, records: seq<Record>)
    requires DistinctIdentities(records) && BlindPolicy(p) && NobodyGivesUp(p, Prepared(p, records))
    ensures NothingLeft(p, records)
  {
    PreparedIsReady(p, records);
    OneRoundIsEnough(p, Prepared(p, records));
    StableMeansNothingLeft(p, records);
  }

  ghost function AppliedTimes(p: Policy, records: seq<Record>, n: nat): seq<Record>
    decreases n
  {
    if n == 0 then records else AppliedTimes(p, Applied(p, records), n - 1)
  }

  lemma {:induction false} AppliedTimesIsRounds(p: Policy, records: seq<Record>, n: nat)
    requires DistinctIdentities(records) && BlindPolicy(p)
    ensures DistinctIdentities(AppliedTimes(p, records, n))
    ensures Prepared(p, AppliedTimes(p, records, n)) == Rounds(p, Prepared(p, records), n)
    decreases n
  {
    if n > 0 {
      AppliedIsRenamed(p, records);
      AppliedTimesIsRounds(p, Applied(p, records), n - 1);
    }
  }

  lemma {:induction false} BoundedNats(s: set<nat>, n: nat)
    requires forall i | i in s :: i < n
    ensures |s| <= n
  {
    if n > 0 {
      BoundedNats(s - {n - 1}, n - 1);
      SubsetNoLarger(s, (s - {n - 1}) + {n - 1});
    } else {
      assert s == {};
    }
  }

  /**
   * For every policy that does not read current names and every inventory, applying and planning
   * again at most once per device reaches a plan with nothing left to do.
   */
  lemma RepeatedApplyConverges(p: Policy, records: seq<Record>) returns (n: nat)
    requires DistinctIdentities(records) && BlindPolicy(p)
    ensures n <= |records|
    ensures NothingLeft(p, AppliedTimes(p, records, n))
  {
    PreparedIsReady(p, records);
    n := RoundsConverge(p, Prepared(p, records));
    BoundedNats(Holders(p, Prepared(p, records)), |records|);
    AppliedTimesIsRounds(p, records, n);
    StableMeansNothingLeft(p, AppliedTimes(p, records, n));
  }
}
