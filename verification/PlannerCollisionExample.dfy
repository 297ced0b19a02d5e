/** An inventory in which a winner takes the name a device keeps because its own item is invalidated later. */
module PlannerCollisionExample {
  import opened Basics
  import opened Sorting
  import opened PlannerModel
  import opened PlannerRanking
  import opened PlannerCollisions
  import opened PlannerFirstPass
  import opened PlannerRoom
  import opened PlannerPlan
  import PlannerExample

  const FIXED := Program(KindBool, (input: Input) => Some(BoolValue(input.device.userID == "fixed")))
  const ALWAYS := Program(KindBool, _ => Some(BoolValue(true)))
  const NAMES_A := Program(KindString, _ => Some(StringValue("A")))

  /** Devices of one user are fixed to B, all others are called A. */
  const POLICY := Policy([Override("fix", FIXED, false, "B")], map[], [Rule("all", ALWAYS, NAMES_A)], [], false, "-",
                         100, _ => true, name => name)

  function RecordOf(id: string, currentName: string, user: string): Record {
    Record(Device("s", "n", id, currentName, "", "", 0, user, "", "", 0, map[]),
           User(false, "", "", "", "", "", [], map[]))
  }

  const RECORDS := [RecordOf("1", "Z", ""), RecordOf("2", "A", "fixed"), RecordOf("3", "C", "fixed")]

  function ItemOf(id: string, currentName: string, desiredName: string, rule: string): Item {
    Item("s", "n", id, "", "", currentName, desiredName, "", rule, Unset, NoReason)
  }

  const WORK := [
    Work(RECORDS[0], ItemOf("1", "Z", "A", "all"), true, false, []),
    Work(RECORDS[1], ItemOf("2", "A", "B", "fix"), true, true, []),
    Work(RECORDS[2], ItemOf("3", "C", "B", "fix"), true, true, [])]

  lemma ExampleSorted()
    ensures DistinctIdentities(RECORDS) && SortRecords(RECORDS) == RECORDS
  {
    PlannerExample.ExampleIdentities();
    assert RecordBelow(RECORDS[0], RECORDS[1]) && RecordBelow(RECORDS[1], RECORDS[2])
           && RecordBelow(RECORDS[0], RECORDS[2]);
    SortRecordsUnique(RECORDS, RECORDS);
  }

  lemma ExampleEvaluates()
    ensures Evaluate(POLICY, RECORDS[0]) == WORK[0]
    ensures Evaluate(POLICY, RECORDS[1]) == WORK[1]
    ensures Evaluate(POLICY, RECORDS[2]) == WORK[2]
  {
    assert POLICY.variables.Keys == {};
    assert SortSet<string>({}, Below) == [];
    assert VariableNames(POLICY) == [];
    var input := Input(RECORDS[0].device, RECORDS[0].user, map[]);
    assert FindOverride(POLICY, input, 1) == NoOverride;
    assert FindOverride(POLICY, input, 0) == NoOverride;
  }

  lemma ExamplePrepared()
    ensures DistinctIdentities(RECORDS) && Prepared(POLICY, RECORDS) == WORK
  {
    ExampleSorted();
    ExampleEvaluates();
  }

  lemma ExampleNames()
    ensures KeyOf(POLICY, WORK[0]) == "A" && KeyOf(POLICY, WORK[1]) == "B" && KeyOf(POLICY, WORK[2]) == "B"
    ensures Below("A", "B") && Ready(POLICY, WORK)
  {
    PlannerExample.ExampleIdentities();
  }

  /** Nobody else is to be called A, and only the second device, of a later group, is called A. */
  lemma ExampleWins()
    ensures Wins(POLICY, WORK, 0)
  {
    ExampleNames();
    assert !Below("B", "A");
    assert !Beats(POLICY, WORK[0], WORK[0]);
  }

  /** Both other devices are fixed to B. */
  lemma ExampleClash()
    ensures TurnedAway(POLICY, WORK, 1) && TurnedAway(POLICY, WORK, 2)
  {
    ExampleNames();
    assert FixedIn(POLICY, WORK, "B", 1) && FixedIn(POLICY, WORK, "B", 2);
  }

  lemma ExampleOutcomes()
    ensures Resolved(POLICY, WORK).out[0] == Won && Resolved(POLICY, WORK).out[1].Rejected?
  {
    ExampleNames();
    ExampleWins();
    ExampleClash();
    SettledFromTheStart(POLICY, WORK, 0);
    SettledFromTheStart(POLICY, WORK, 1);
  }

  lemma ItemFrom(p: Policy, records: seq<Record>, work: seq<Work>, i: nat)
    requires Prepared(p, records) == work && i < |records|
    ensures PlanItems(p, records)[i] == Settle(work[i], Resolved(p, work).out[i]).plan
  {
    ItemAt(p, records, i);
  }

  /** The first device is to be called A although the second, whose item is invalid, keeps that name. */
  lemma WinnerMeetsKeptName()
    ensures DistinctIdentities(RECORDS)
    ensures PlanItems(POLICY, RECORDS)[0].status == Rename && PlanItems(POLICY, RECORDS)[0].desiredName == "A"
    ensures PlanItems(POLICY, RECORDS)[1].status == Invalid && PlanItems(POLICY, RECORDS)[1].currentName == "A"
  {
    ExamplePrepared();
    ExampleOutcomes();
    ItemFrom(POLICY, RECORDS, WORK, 0);
    ItemFrom(POLICY, RECORDS, WORK, 1);
    ExampleSettled(WORK[0], Resolved(POLICY, WORK).out[0], WORK[1], Resolved(POLICY, WORK).out[1]);
  }

  lemma ExampleSettled(first: Work, won: Outcome, second: Work, lost: Outcome)
    requires first == WORK[0] && won == Won && second == WORK[1] && lost.Rejected?
    ensures Settle(first, won).plan.status == Rename && Settle(first, won).plan.desiredName == "A"
    ensures Settle(second, lost).plan.status == Invalid && Settle(second, lost).plan.currentName == "A"
  {
  }
}
