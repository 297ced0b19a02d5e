/** A rename that is reported as submitted but not recorded as such (internal/app/service.go:403-414). */
module ServiceExample {
  import opened Basics
  import opened Sorting
  import P = PlannerModel
  import opened LedgerModel
  import opened ServiceModel
  import opened WorkerPool
  import opened ServiceReport
  import opened ServiceProgram

  const KEY := Key("s", "n", "1")
  const ITEM := P.Item("s", "n", "1", "", "", "Y", "X", "", "all", P.Rename, P.NoReason)
  const PLANNED := ApplyResult(ITEM, ActionPlanned, 0, ZERO_TIME, "")
  const SETTINGS := Settings(10, 3)

  /** The attempt is saved, the save after the provider has accepted fails. */
  const MACHINE := Machine(map[], [], [Saved, FailedBefore])
  const INTENT := Intent("s", "n", "1", "provider-id:1", "X", 5, 1, IntentRetrying, "")
  const PREPARED := Loop([PLANNED.(attempts := 1, retryAt := 15)],
                         Machine(map[KEY := INTENT], [INTENT], [FailedBefore]), [JOB], false)
  const JOB := Job(0, KEY, "provider-id:1", "X", 15)

  function Accepts(job: Job): Reply {
    Renamed
  }

  lemma ExampleSnapshot()
    ensures Snapshot(map[KEY := INTENT]) == [INTENT]
  {
    var m := map[KEY := INTENT];
    SortedKeysOrder(m);
    SortSetMembers({KEY}, KeyBelow);
    assert m.Keys == {KEY} && |SortedKeysOf(m)| == 1;
    assert SortedKeysOf(m)[0] in SortedKeysOf(m);
  }

  lemma ExamplePrepared()
    ensures PrepareAll(SETTINGS, 5, _ => false, [PLANNED], MACHINE) == PREPARED
  {
    ExampleSnapshot();
    var first := Loop([PLANNED], MACHINE, [], false);
    assert StateSerialNumber("1", "") == "provider-id:1";
    assert map[][KEY := INTENT] == map[KEY := INTENT];
    assert PrepareOne(SETTINGS, 5, first, 0) == PREPARED;
    assert PrepareFrom(SETTINGS, 5, _ => false, PREPARED, 1) == PREPARED;
  }

  /** The one worker's moves: call, mark in vain, report. */
  lemma ExampleSubmitted()
    ensures var start := Start(PREPARED.jobs, PREPARED.results, PREPARED.m);
            var moves := MovesFor(0, 0, false);
            && Schedule(1, [JOB], Accepts, start, moves)
            && RunSchedule(1, [JOB], Accepts, start, moves)
               == Pool(1, [Written(false)], [1],
                       [PREPARED.results[0].(action := ActionSubmitted,
                                             error := "record submitted rename: " + SAVE_ERROR)],
                       PREPARED.m.(script := []))
  {
    var start := Start(PREPARED.jobs, PREPARED.results, PREPARED.m);
    assert start.stages == [Queued] && start.calls == [0];
    SubmissionIsItsMoves(1, [JOB], Accepts, start, 0, false);
  }

  /** The cycle reports a submission with an error, the ledger waits, and from the retry time on it submits again. */
  lemma AcceptanceCanBeLost()
    ensures Clocked(SETTINGS, MACHINE) && MACHINE.disk == Snapshot(MACHINE.intents)
    ensures var st := PrepareAll(SETTINGS, 5, _ => false, [PLANNED], MACHINE);
            var start, moves := Start(st.jobs, st.results, st.m), MovesFor(0, 0, false);
            && !st.failed && Schedule(1, st.jobs, Accepts, start, moves)
            && var pool := RunSchedule(1, st.jobs, Accepts, start, moves);
               && Drained(pool) && |pool.results| == 1
               && pool.results[0].action == ActionSubmitted && pool.results[0].error != ""
               && pool.m.intents == map[KEY := INTENT]
               && Submits(Prepare(pool.m, RequestFor(SETTINGS, 15, ITEM)).1)
  {
    ExamplePrepared();
    ExampleSubmitted();
    SortSetMembers<Key>({}, KeyBelow);
    assert SortedKeysOf(map[]) == [];
  }
}
