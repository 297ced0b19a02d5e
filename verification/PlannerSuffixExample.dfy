/** An inventory in which a loser is numbered into the name a later loser keeps for want of a suffix. */
module PlannerSuffixExample {
  import opened Basics
  import opened Sorting
  import opened PlannerModel
  import opened PlannerRanking
  import opened PlannerSuffix
  import opened PlannerCollisions
  import opened PlannerFirstPass
  import opened PlannerRoom
  import opened PlannerSecondPass
  import opened PlannerPlan
  import PlannerCollisionExample

  const ALWAYS := Program(KindBool, _ => Some(BoolValue(true)))
  const LONG := Program(KindBool, (input: Input) => Some(BoolValue(input.device.userID == "long")))
  const NAMES_A := Program(KindString, _ => Some(StringValue("A")))
  const NAMES_BB := Program(KindString, _ => Some(StringValue("BB")))

  /** Names have three characters at most: A can be numbered, BB cannot. */
  const POLICY := Policy([], map[], [Rule("long", LONG, NAMES_BB), Rule("all", ALWAYS, NAMES_A)], [], false, "-", 3,
                         _ => true, name => name)

  function RecordOf(id: string, currentName: string, user: string): Record {
    Record(Device("s", "n", id, currentName, "", "", 0, user, "", "", 0, map[]),
           User(false, "", "", "", "", "", [], map[]))
  }

  const RECORDS := [RecordOf("1", "P", ""), RecordOf("2", "Q", ""), RecordOf("3", "R", "long"),
                    RecordOf("4", "A-1", "long")]

  function WorkOf(record: Record, desiredName: string, rule: string): Work {
    Work(record, Item("s", "n", record.device.id, "", "", record.device.currentName, desiredName, "",
                      rule, Unset, NoReason), true, false, [])
  }

  const WORK := [WorkOf(RECORDS[0], "A", "all"), WorkOf(RECORDS[1], "A", "all"), WorkOf(RECORDS[2], "BB", "long"),
                 WorkOf(RECORDS[3], "BB", "long")]

  lemma ExampleIdentities()
    ensures Below("1", "2") && Below("2", "3") && Below("3", "4") && Below("1", "3") && Below("1", "4")
            && Below("2", "4")
  {
  }

  lemma ExampleSorted()
    ensures DistinctIdentities(RECORDS) && SortRecords(RECORDS) == RECORDS
  {
    ExampleIdentities();
    forall i, j | 0 <= i < j < 4 ensures RecordBelow(RECORDS[i], RECORDS[j]) {
      assert (i == 0 || i == 1 || i == 2) && (j == 1 || j == 2 || j == 3);
    }
    SortRecordsUnique(RECORDS, RECORDS);
  }

  lemma ExampleEvaluates(i: nat)
    requires i < 4
    ensures Evaluate(POLICY, RECORDS[i]) == WORK[i]
  {
    assert POLICY.variables.Keys == {};
    assert SortSet<string>({}, Below) == [];
    assert VariableNames(POLICY) == [];
    var input := Input(RECORDS[i].device, RECORDS[i].user, map[]);
    assert FindRule(POLICY, input, 1) == RuleMatch(POLICY.rules[1], "A");
    assert i == 0 || i == 1 || i == 2 || i == 3;
  }

  lemma ExamplePrepared()
    ensures DistinctIdentities(RECORDS) && Prepared(POLICY, RECORDS) == WORK
  {
    ExampleSorted();
    ExampleEvaluates(0);
    ExampleEvaluates(1);
    ExampleEvaluates(2);
    ExampleEvaluates(3);
  }

  // Inventories without overrides in which every device is a candidate.

  ghost predicate Plain(work: seq<Work>) {
    forall m | 0 <= m < |work| :: work[m].candidate && !work[m].authoritative
  }

  lemma NobodyFixed(p: Policy, work: seq<Work>, m: nat)
    requires Plain(work) && m < |work|
    ensures !TurnedAway(p, work, m) && !Clash(p, work, KeyOf(p, work[m])) && !FixedElsewhere(p, work, KeyOf(p, work[m]))
  {
  }

  lemma OutrankedLoses(p: Policy, work: seq<Work>, i: nat, j: nat)
    requires Plain(work) && i < |work| && j < |work| && KeyOf(p, work[i]) == KeyOf(p, work[j])
    requires Beats(p, work[j], work[i])
    ensures Loses(p, work, i)
  {
    NobodyFixed(p, work, i);
    assert InGroup(p, work, KeyOf(p, work[i]), j);
  }

  lemma FirstWins(p: Policy, work: seq<Work>, i: nat)
    requires Plain(work) && i < |work| && !Outranked(p, work, i)
    requires forall m: nat | m < |work| :: !Shadows(p, work[m], KeyOf(p, work[i]))
    ensures !Loses(p, work, i)
  {
    NobodyFixed(p, work, i);
  }

  /** A name is free if it is nobody's plain name and no loser comes before. */
  lemma FreeAtFirstTurn(p: Policy, work: seq<Work>, i: nat, name: string)
    requires Plain(work) && i < |work|
    requires forall m: nat | m < |work| :: KeyOf(p, work[m]) != name && !(Loses(p, work, m) && Before(p, work, m, i))
    ensures !TakenBefore(p, work, i, name)
  {
    forall m: nat | m < |work| ensures !TurnedAway(p, work, m) {
      NobodyFixed(p, work, m);
    }
  }

  lemma FirstSuffix(p: Policy, work: seq<Work>, i: nat)
    requires Ready(p, work) && i < |work| && Loses(p, work, i) && 1 in ValidSequences(p, work[i])
    requires !TakenBefore(p, work, i, p.fold(Suffixed(p, work[i].plan.desiredName, 1)))
    ensures Resolved(p, work).out[i] == Numbered(1, Suffixed(p, work[i].plan.desiredName, 1))
  {
    SecondPassExactly(p, work, i);
  }

  // The example itself.

  lemma ExampleReady()
    ensures Ready(POLICY, WORK) && Plain(WORK)
  {
    ExampleIdentities();
  }

  lemma ExampleOrder()
    ensures KeyOf(POLICY, WORK[0]) == KeyOf(POLICY, WORK[1]) == "A"
    ensures KeyOf(POLICY, WORK[2]) == KeyOf(POLICY, WORK[3]) == "BB"
    ensures Beats(POLICY, WORK[0], WORK[1]) && !Beats(POLICY, WORK[1], WORK[0])
    ensures Beats(POLICY, WORK[2], WORK[3]) && !Beats(POLICY, WORK[1], WORK[1]) && !Beats(POLICY, WORK[0], WORK[0])
    ensures !Below("BB", "A")
  {
    ExampleIdentities();
  }

  lemma ExampleWinner()
    ensures !Loses(POLICY, WORK, 0)
  {
    ExampleReady();
    ExampleOrder();
    FirstWins(POLICY, WORK, 0);
  }

  /** The devices that come second lose. */
  lemma ExampleLosers()
    ensures Loses(POLICY, WORK, 1) && Loses(POLICY, WORK, 3)
  {
    ExampleReady();
    ExampleOrder();
    OutrankedLoses(POLICY, WORK, 1, 0);
    OutrankedLoses(POLICY, WORK, 3, 2);
  }

  lemma ExampleFree()
    ensures !TakenBefore(POLICY, WORK, 1, "A-1")
  {
    ExampleReady();
    ExampleOrder();
    ExampleWinner();
    forall m: nat | m < 4
      ensures KeyOf(POLICY, WORK[m]) != "A-1" && !(Loses(POLICY, WORK, m) && Before(POLICY, WORK, m, 1))
    {
      assert m == 0 || m == 1 || m == 2 || m == 3;
    }
    FreeAtFirstTurn(POLICY, WORK, 1, "A-1");
  }

  lemma ExampleSuffix()
    ensures POLICY.fold(Suffixed(POLICY, WORK[1].plan.desiredName, 1)) == "A-1" == Suffixed(POLICY, "A", 1)
    ensures 1 in ValidSequences(POLICY, WORK[1])
  {
  }

  lemma ExampleNumbered()
    ensures Resolved(POLICY, WORK).out[1] == Numbered(1, "A-1")
  {
    ExampleReady();
    ExampleLosers();
    ExampleFree();
    ExampleSuffix();
    FirstSuffix(POLICY, WORK, 1);
  }

  lemma ExampleCramped()
    ensures Resolved(POLICY, WORK).out[3].Rejected?
  {
    ExampleReady();
    ExampleLosers();
    assert ValidSequences(POLICY, WORK[3]) == {};
    CrampedLoserIsTurnedAway(POLICY, WORK, 3);
  }

  /** The second device is to be called A-1 although the fourth, which finds no suffix, keeps that name. */
  lemma LoserMeetsKeptName()
    ensures DistinctIdentities(RECORDS)
    ensures PlanItems(POLICY, RECORDS)[1].status == Rename && PlanItems(POLICY, RECORDS)[1].desiredName == "A-1"
    ensures PlanItems(POLICY, RECORDS)[3].status == Invalid && PlanItems(POLICY, RECORDS)[3].currentName == "A-1"
  {
    ExamplePrepared();
    ExampleNumbered();
    ExampleCramped();
    PlannerCollisionExample.ItemFrom(POLICY, RECORDS, WORK, 1);
    PlannerCollisionExample.ItemFrom(POLICY, RECORDS, WORK, 3);
    ExampleSettled(WORK[1], Resolved(POLICY, WORK).out[1], WORK[3], Resolved(POLICY, WORK).out[3]);
  }

  lemma ExampleSettled(second: Work, numbered: Outcome, fourth: Work, lost: Outcome)
    requires second == WORK[1] && numbered == Numbered(1, "A-1") && fourth == WORK[3] && lost.Rejected?
    ensures Settle(second, numbered).plan.status == Rename && Settle(second, numbered).plan.desiredName == "A-1"
    ensures Settle(fourth, lost).plan.status == Invalid && Settle(fourth, lost).plan.currentName == "A-1"
  {
  }
}
