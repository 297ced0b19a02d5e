/** An inventory that shows why preserve_existing may need a second application. */
module PlannerExample {
  import opened Basics
  import opened Sorting
  import opened PlannerModel
  import opened PlannerRanking
  import opened PlannerSuffix
  import opened PlannerCollisions
  import opened PlannerPlan
  import opened PlannerReplan
  import opened PlannerFirstPass
  import opened PlannerRoom
  import opened PlannerExact

  const ALWAYS := Program(KindBool, _ => Some(BoolValue(true)))
  const NAMES_X := Program(KindString, _ => Some(StringValue("X")))

  /** Every device is to be called X; devices already called X come first. */
  const POLICY := Policy([], map[], [Rule("all", ALWAYS, NAMES_X)], [], true, "-", 100, _ => true, name => name)

  function RecordOf(id: string, currentName: string): Record {
    Record(Device("s", "n", id, currentName, "", "", 0, "", "", "", 0, map[]),
           User(false, "", "", "", "", "", [], map[]))
  }

  /** Two devices are called X, and the one called Y stands between them. */
  const RECORDS := [RecordOf("1", "X"), RecordOf("2", "Y"), RecordOf("3", "X")]

  function WorkOf(id: string, currentName: string): Work {
    Work(RecordOf(id, currentName), Item("s", "n", id, "", "", currentName, "X", "", "all", Unset, NoReason),
         true, false, [])
  }

  const WORK := [WorkOf("1", "X"), WorkOf("2", "Y"), WorkOf("3", "X")]

  lemma ExampleIdentities()
    ensures Below("1", "2") && Below("2", "3") && Below("1", "3")
    ensures KeyBelow(Key("s", "n", "1"), Key("s", "n", "2")) && KeyBelow(Key("s", "n", "2"), Key("s", "n", "3"))
    ensures KeyBelow(Key("s", "n", "1"), Key("s", "n", "3"))
  {
  }

  lemma ExampleSorted()
    ensures DistinctIdentities(RECORDS) && SortRecords(RECORDS) == RECORDS
  {
    ExampleIdentities();
    assert RecordBelow(RECORDS[0], RECORDS[1]) && RecordBelow(RECORDS[1], RECORDS[2])
           && RecordBelow(RECORDS[0], RECORDS[2]);
    SortRecordsUnique(RECORDS, RECORDS);
  }

  lemma ExampleEvaluates(id: string, currentName: string)
    ensures Evaluate(POLICY, RecordOf(id, currentName)) == WorkOf(id, currentName)
  {
    assert POLICY.variables.Keys == {};
    assert SortSet<string>({}, Below) == [];
    assert VariableNames(POLICY) == [];
  }

  lemma ExamplePrepared()
    ensures DistinctIdentities(RECORDS) && Prepared(POLICY, RECORDS) == WORK
  {
    ExampleSorted();
    ExampleEvaluates("1", "X");
    ExampleEvaluates("2", "Y");
    ExampleEvaluates("3", "X");
  }

  lemma ExampleGroup()
    ensures forall i: nat :: InGroup(POLICY, WORK, "X", i) <==> i < 3
  {
  }

  lemma ExampleBeats()
    ensures PositionBeats(POLICY, WORK)(0, 2) && PositionBeats(POLICY, WORK)(2, 1) && PositionBeats(POLICY, WORK)(0, 1)
    ensures RankBeats(POLICY, WORK[1], WORK[2])
  {
    ExampleIdentities();
  }

  /** Everybody is to be called X; the second and the third device lose it to the first. */
  lemma ExampleLosers()
    ensures Loses(POLICY, WORK, 1) && Loses(POLICY, WORK, 2)
  {
    ExampleBeats();
    ExampleGroup();
    assert Beats(POLICY, WORK[0], WORK[1]) && Beats(POLICY, WORK[0], WORK[2]);
  }

  /** The third comes before the second because it matches. */
  lemma ExampleOvertaken()
    ensures Overtaken(POLICY, WORK, 2, 1) && OneSpelling(POLICY, WORK) && FoldKeepsDigits(POLICY)
  {
    ExampleLosers();
    ExampleBeats();
  }

  lemma ExampleRoom(i: nat)
    requires i < |WORK|
    ensures |ValidSequences(POLICY, WORK[i])| >= 3
  {
    assert Suffixed(POLICY, "X", 1) == "X-1" && Suffixed(POLICY, "X", 2) == "X-2" && Suffixed(POLICY, "X", 3) == "X-3";
    var some: set<nat> := {1, 2, 3};
    SubsetNoLarger(some, ValidSequences(POLICY, WORK[i]));
  }

  lemma ExampleBlind()
    ensures BlindPolicy(POLICY)
  {
    assert Blind(ALWAYS) && Blind(NAMES_X);
  }

  lemma OneApplyIsNotEnough()
    ensures DistinctIdentities(RECORDS) && BlindPolicy(POLICY) && !NothingLeft(POLICY, RECORDS)
  {
    ExamplePrepared();
    ExampleBlind();
    ExampleOvertaken();
    forall i: nat | i < |WORK| ensures |ValidSequences(POLICY, WORK[i])| >= |WORK| {
      ExampleRoom(i);
    }
    OvertakenIsNoticed(POLICY, RECORDS, 2, 1);
  }

  lemma TwoAppliesAreEnough()
    ensures NothingLeft(POLICY, Applied(POLICY, RECORDS))
  {
    ExamplePrepared();
    ExampleBlind();
    ExampleOvertaken();
    forall i: nat | i < |WORK| ensures |ValidSequences(POLICY, WORK[i])| >= |WORK| {
      ExampleRoom(i);
    }
    TwoAppliesConverge(POLICY, RECORDS);
  }

  /** One application of this plan is not enough, a second one is. */
  lemma PreferenceNeedsTwoApplies()
    ensures DistinctIdentities(RECORDS) && BlindPolicy(POLICY)
    ensures !NothingLeft(POLICY, RECORDS)
    ensures NothingLeft(POLICY, Applied(POLICY, RECORDS))
  {
    OneApplyIsNotEnough();
    TwoAppliesAreEnough();
  }
}
