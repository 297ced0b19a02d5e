/** How often, and how far apart, applying submits one rename over any number of cycles and crashes. */
module ServiceBounds {
  import opened Basics
  import P = PlannerModel
  import opened LedgerModel
  import opened ServiceModel
  import opened WorkerPool
  import opened ServiceReport
  import opened ServiceRun
  import Pr = Protocol
  import B = ProtocolBounds

  // Provider calls.

  ghost function CallsIn(jobs: seq<Job>, moves: seq<Move>, key: Key): nat
    decreases |moves|
  {
    if moves == [] then 0
    else (if moves[0].Call? && moves[0].job < |jobs| && jobs[moves[0].job].key == key then 1 else 0)
         + CallsIn(jobs, moves[1..], key)
  }

  /** The calls a cycle makes for one device. */
  ghost function CycleCalls(cfg: Settings, m: Machine, c: Cycle, key: Key): nat {
    var st := PreparedBy(cfg, m, c);
    if st.failed then 0 else CallsIn(st.jobs, c.moves, key)
  }

  ghost function TotalCalls(cfg: Settings, m: Machine, cycles: seq<Cycle>, key: Key): nat
    requires CanRunAll(cfg, m, cycles)
    decreases |cycles|
  {
    if cycles == [] then 0
    else CycleCalls(cfg, m, cycles[0], key) + TotalCalls(cfg, Left(cfg, m, cycles[0]), cycles[1..], key)
  }

  ghost predicate HasJob(jobs: seq<Job>, key: Key) {
    exists a :: 0 <= a < |jobs| && jobs[a].key == key
  }

  /** The instants of the cycles that decide to submit a rename of this device. */
  ghost function SubmitTimes(cfg: Settings, m: Machine, cycles: seq<Cycle>, key: Key): seq<int>
    requires CanRunAll(cfg, m, cycles)
    decreases |cycles|
  {
    if cycles == [] then []
    else (if HasJob(PreparedBy(cfg, m, cycles[0]).jobs, key) then [cycles[0].now] else [])
         + SubmitTimes(cfg, Left(cfg, m, cycles[0]), cycles[1..], key)
  }

  // What a history sees of it.

  ghost function CountCalls(events: seq<Pr.Event>, key: Key): nat
    decreases |events|
  {
    if events == [] then 0 else (if events[0] == Pr.CallProvider(key) then 1 else 0) + CountCalls(events[1..], key)
  }

  lemma {:induction false} CountAppend(first: seq<Pr.Event>, second: seq<Pr.Event>, key: Key)
    ensures CountCalls(first + second, key) == CountCalls(first, key) + CountCalls(second, key)
    decreases |first|
  {
    if first == [] {
      assert first + second == second;
    } else {
      CountAppend(first[1..], second, key);
      assert (first + second)[1..] == first[1..] + second;
    }
  }

  lemma {:induction false} HistoryCounts(cfg: Pr.Config, t: B.Rename, s: Pr.System, events: seq<Pr.Event>, h: B.History)
    requires Pr.RunEvents(cfg, s, events).Some?
    ensures B.RunHistory(cfg, t, s, events, h).calls == h.calls + CountCalls(events, t.key)
    decreases |events|
  {
    if events != [] {
      HistoryCounts(cfg, t, Pr.Step(cfg, s, events[0]).value, events[1..], B.Watch(cfg, t, s, events[0], h));
    }
  }

  lemma {:induction false} HistoryAppend(cfg: Pr.Config, t: B.Rename, s: Pr.System, first: seq<Pr.Event>,
          second: seq<Pr.Event>, h: B.History)
    requires Pr.RunEvents(cfg, s, first).Some?
    ensures B.RunHistory(cfg, t, s, first + second, h)
            == B.RunHistory(cfg, t, Pr.RunEvents(cfg, s, first).value, second, B.RunHistory(cfg, t, s, first, h))
    decreases |first|
  {
    if first == [] {
      assert first + second == second;
    } else {
      HistoryAppend(cfg, t, Pr.Step(cfg, s, first[0]).value, first[1..], second, B.Watch(cfg, t, s, first[0], h));
      assert (first + second)[1..] == first[1..] + second;
    }
  }

  /** No event decides anything. */
  ghost predicate Undecided(events: seq<Pr.Event>) {
    forall i | 0 <= i < |events| :: !events[i].PrepareDevice?
  }

  lemma {:induction false} UndecidedKeeps(cfg: Pr.Config, t: B.Rename, s: Pr.System, events: seq<Pr.Event>,
          h: B.History)
    requires Undecided(events)
    ensures B.RunHistory(cfg, t, s, events, h).submits == h.submits
    decreases |events|
  {
    if events != [] && Pr.Step(cfg, s, events[0]).Some? {
      assert !events[0].PrepareDevice?;
      UndecidedKeeps(cfg, t, Pr.Step(cfg, s, events[0]).value, events[1..], B.Watch(cfg, t, s, events[0], h));
    }
  }

  // One cycle's calls.

  lemma CountOne(e: Pr.Event, rest: seq<Pr.Event>, key: Key)
    ensures CountCalls([e] + rest, key) == (if e == Pr.CallProvider(key) then 1 else 0) + CountCalls(rest, key)
  {
    assert ([e] + rest)[1..] == rest;
  }

  lemma EventCallsNobody(i: P.Item, key: Key)
    ensures EventFor(i) != Pr.CallProvider(key)
  {
  }

  lemma {:induction false} PreparingCallsNobody(cfg: Settings, now: int, ctx: Context, st: Loop, k: nat, key: Key)
    ensures CountCalls(PrepareEvents(cfg, now, ctx, st, k), key) == 0
    decreases |st.results| - k
  {
    if k < |st.results| && !st.failed {
      if ctx(k) {
        CountOne(Pr.AbortCycle, [], key);
        assert [Pr.AbortCycle] + [] == [Pr.AbortCycle];
      } else {
        var next := PrepareOne(cfg, now, st, k);
        PreparingCallsNobody(cfg, now, ctx, next, k + 1, key);
        EventCallsNobody(st.results[k].item, key);
        CountOne(EventFor(st.results[k].item), PrepareEvents(cfg, now, ctx, next, k + 1), key);
      }
    }
  }

  lemma {:induction false} MovesCall(workers: nat, jobs: seq<Job>, provider: Job -> Reply, pool: Pool, moves: seq<Move>,
          key: Key)
    requires Schedule(workers, jobs, provider, pool, moves)
    ensures CountCalls(MovesEvents(workers, jobs, provider, pool, moves), key) == CallsIn(jobs, moves, key)
    ensures Undecided(MovesEvents(workers, jobs, provider, pool, moves))
    decreases |moves|
  {
    if moves != [] {
      var n := Moved(workers, jobs, provider, pool, moves[0]);
      MovesCall(workers, jobs, provider, n, moves[1..], key);
      CountAppend(MoveEvents(jobs, pool, moves[0]), MovesEvents(workers, jobs, provider, n, moves[1..]), key);
      OneMoveCalls(jobs, pool, moves[0], key);
    }
  }

  lemma OneMoveCalls(jobs: seq<Job>, pool: Pool, move: Move, key: Key)
    requires move.Skip? || move.Call? || move.MarkIt? ==> move.job < |jobs| == |pool.stages|
    requires move.MarkIt? ==> pool.stages[move.job].Replied?
    ensures CountCalls(MoveEvents(jobs, pool, move), key) == if move.Call? && jobs[move.job].key == key then 1 else 0
  {
    var events := MoveEvents(jobs, pool, move);
    if events != [] {
      assert events[1..] == [];
    }
  }

  lemma WorkCalls(cfg: Settings, m: Machine, c: Cycle, key: Key)
    requires CanRun(cfg, m, c)
    ensures var st := PreparedBy(cfg, m, c);
            && CountCalls(WorkEvents(c, st) + LastEvents(c, st), key) == CycleCalls(cfg, m, c, key)
            && Undecided(WorkEvents(c, st) + LastEvents(c, st))
  {
    var st := PreparedBy(cfg, m, c);
    CountAppend(WorkEvents(c, st), LastEvents(c, st), key);
    if LastEvents(c, st) != [] {
      assert LastEvents(c, st)[1..] == [];
    }
    if !st.failed {
      MovesCall(c.workers, st.jobs, c.provider, StartOf(st), c.moves, key);
      CountAppend([Pr.StartWorkers], MovesEvents(c.workers, st.jobs, c.provider, StartOf(st), c.moves), key);
      assert [Pr.StartWorkers][1..] == [];
    }
  }

  lemma CycleCounts(cfg: Settings, m: Machine, c: Cycle, key: Key)
    requires CanRun(cfg, m, c)
    ensures CountCalls(EventsOf(cfg, m, c), key) == CycleCalls(cfg, m, c, key)
  {
    var st := PreparedBy(cfg, m, c);
    var preparing := PrepareEvents(cfg, c.now, c.ctx, Loop(c.results, m, [], false), 0);
    var rest := WorkEvents(c, st) + LastEvents(c, st);
    PreparingCallsNobody(cfg, c.now, c.ctx, Loop(c.results, m, [], false), 0, key);
    WorkCalls(cfg, m, c, key);
    CountAppend(preparing, rest, key);
    CountAppend([Pr.BeginCycle(c.now)], preparing + rest, key);
    assert [Pr.BeginCycle(c.now)][1..] == [];
  }

  lemma {:induction false} AllCyclesCount(cfg: Settings, m: Machine, cycles: seq<Cycle>, key: Key)
    requires CanRunAll(cfg, m, cycles)
    ensures CountCalls(AllEvents(cfg, m, cycles), key) == TotalCalls(cfg, m, cycles, key)
    decreases |cycles|
  {
    if cycles != [] {
      CycleCounts(cfg, m, cycles[0], key);
      AllCyclesCount(cfg, Left(cfg, m, cycles[0]), cycles[1..], key);
      CountAppend(EventsOf(cfg, m, cycles[0]), AllEvents(cfg, Left(cfg, m, cycles[0]), cycles[1..]), key);
    }
  }

  // One cycle's decision to submit.

  lemma {:induction false} JobsRemain(cfg: Settings, now: int, ctx: Context, st: Loop, k: nat, key: Key)
    requires HasJob(st.jobs, key)
    ensures HasJob(PrepareFrom(cfg, now, ctx, st, k).jobs, key)
    decreases |st.results| - k
  {
    if k < |st.results| && !st.failed && !ctx(k) {
      OneStepKeepsJobs(cfg, now, st, k, key);
      JobsRemain(cfg, now, ctx, PrepareOne(cfg, now, st, k), k + 1, key);
    }
  }

  lemma OneStepKeepsJobs(cfg: Settings, now: int, st: Loop, k: nat, key: Key)
    requires HasJob(st.jobs, key) && k < |st.results|
    ensures HasJob(PrepareOne(cfg, now, st, k).jobs, key)
  {
    var a :| 0 <= a < |st.jobs| && st.jobs[a].key == key;
    assert PrepareOne(cfg, now, st, k).jobs[a].key == key;
  }

  /** Result `k` is decided to be submitted, which makes it the one job of its device. */
  lemma OneDecision(cfg: Settings, t: B.Rename, now: int, start: seq<ApplyResult>, st: Loop, k: nat, s: Pr.System,
          h: B.History)
    requires LoopMatches(now, start, st, k, s) && !st.failed && k < |start| && DistinctItems(start)
    ensures var e, next := EventFor(start[k].item), PrepareOne(cfg, now, st, k);
            && B.Watch(ConfigOf(cfg), t, s, e, h).submits
               == h.submits + Decides(now, st.jobs, next.jobs, t.key)
            && (HasJob(st.jobs, t.key) ==> HasJob(next.jobs, t.key))
  {
    var item, next := start[k].item, PrepareOne(cfg, now, st, k);
    NotYetPrepared(start, k);
    NoJobYet(start, st.jobs, k);
    if item.status == P.Rename {
      assert RequestFor(cfg, now, item) == Pr.RequestOf(ConfigOf(cfg), s, EventFor(item));
    }
    if next.jobs != st.jobs {
      assert next.jobs[|st.jobs|].key == ItemKey(item);
      assert forall a | 0 <= a < |st.jobs| :: next.jobs[a] == st.jobs[a];
    }
    assert HasJob(next.jobs, t.key) <==> HasJob(st.jobs, t.key) || (next.jobs != st.jobs && ItemKey(item) == t.key);
  }

  lemma HistoryOne(cfg: Pr.Config, t: B.Rename, s: Pr.System, e: Pr.Event, rest: seq<Pr.Event>, h: B.History)
    requires Pr.Step(cfg, s, e).Some?
    ensures B.RunHistory(cfg, t, s, [e] + rest, h)
            == B.RunHistory(cfg, t, Pr.Step(cfg, s, e).value, rest, B.Watch(cfg, t, s, e, h))
  {
    assert ([e] + rest)[1..] == rest;
  }

  /** The instant, if a job of this device has come up. */
  ghost function Decides(now: int, before: seq<Job>, after: seq<Job>, key: Key): seq<int> {
    if HasJob(after, key) && !HasJob(before, key) then [now] else []
  }

  lemma {:induction false} PreparingDecides(cfg: Settings, t: B.Rename, now: int, ctx: Context, start: seq<ApplyResult>,
          st: Loop, k: nat, s: Pr.System, h: B.History)
    requires LoopMatches(now, start, st, k, s) && DistinctItems(start)
    ensures B.RunHistory(ConfigOf(cfg), t, s, PrepareEvents(cfg, now, ctx, st, k), h).submits
            == h.submits + Decides(now, st.jobs, PrepareFrom(cfg, now, ctx, st, k).jobs, t.key)
    decreases |start| - k
  {
    if k < |st.results| && !st.failed {
      if ctx(k) {
        UndecidedKeeps(ConfigOf(cfg), t, s, [Pr.AbortCycle], h);
      } else {
        var e, next := EventFor(start[k].item), PrepareOne(cfg, now, st, k);
        ItemMatches(cfg, now, start, st, k, s);
        var after := Pr.Step(ConfigOf(cfg), s, e).value;
        PreparingDecides(cfg, t, now, ctx, start, next, k + 1, after, B.Watch(ConfigOf(cfg), t, s, e, h));
        HistoryOne(ConfigOf(cfg), t, s, e, PrepareEvents(cfg, now, ctx, next, k + 1), h);
        DecidesFirst(cfg, t, now, ctx, start, st, k, s, h);
      }
    }
  }

  lemma DecidesFirst(cfg: Settings, t: B.Rename, now: int, ctx: Context, start: seq<ApplyResult>, st: Loop, k: nat,
          s: Pr.System, h: B.History)
    requires LoopMatches(now, start, st, k, s) && !st.failed && k < |start| && DistinctItems(start)
    ensures var next := PrepareOne(cfg, now, st, k);
            var last := PrepareFrom(cfg, now, ctx, next, k + 1).jobs;
            B.Watch(ConfigOf(cfg), t, s, EventFor(start[k].item), h).submits + Decides(now, next.jobs, last, t.key)
            == h.submits + Decides(now, st.jobs, last, t.key)
  {
    OneDecision(cfg, t, now, start, st, k, s, h);
    DecidesOnce(cfg, now, ctx, st.jobs, PrepareOne(cfg, now, st, k), k + 1, t.key);
  }

  lemma DecidesOnce(cfg: Settings, now: int, ctx: Context, before: seq<Job>, next: Loop, k: nat, key: Key)
    requires HasJob(before, key) ==> HasJob(next.jobs, key)
    ensures var last := PrepareFrom(cfg, now, ctx, next, k).jobs;
            Decides(now, before, next.jobs, key) + Decides(now, next.jobs, last, key) == Decides(now, before, last, key)
  {
    if HasJob(next.jobs, key) {
      JobsRemain(cfg, now, ctx, next, k, key);
    }
  }

  lemma CycleDecides(cfg: Settings, t: B.Rename, c: Cycle, s: Pr.System, h: B.History)
    requires s.phase == Pr.Idle && Pr.Safe(s) && CanRun(cfg, s.m, c)
    ensures B.RunHistory(ConfigOf(cfg), t, s, EventsOf(cfg, s.m, c), h).submits
            == h.submits + Decides(c.now, [], PreparedBy(cfg, s.m, c).jobs, t.key)
  {
    var first, st := Loop(c.results, s.m, [], false), PreparedBy(cfg, s.m, c);
    var preparing, rest := PrepareEvents(cfg, c.now, c.ctx, first, 0), WorkEvents(c, st) + LastEvents(c, st);
    BeginMatches(cfg, c, s);
    RunOne(ConfigOf(cfg), s, Pr.BeginCycle(c.now));
    HistoryOne(ConfigOf(cfg), t, s, Pr.BeginCycle(c.now), preparing + rest, h);
    var begun := Pr.System(s.m, Pr.Preparing, c.now, {}, map[]);
    PreparingDecides(cfg, t, c.now, c.ctx, c.results, first, 0, begun, h);
    var n := PrepareSimulates(cfg, c.now, c.ctx, c.results, first, 0, begun);
    HistoryAppend(ConfigOf(cfg), t, begun, preparing, rest, h);
    WorkCalls(cfg, s.m, c, t.key);
    UndecidedKeeps(ConfigOf(cfg), t, n, rest, B.RunHistory(ConfigOf(cfg), t, begun, preparing, h));
  }

  lemma FirstCycleDecides(cfg: Settings, m: Machine, cycles: seq<Cycle>, key: Key, before: seq<int>)
    requires cycles != [] && CanRunAll(cfg, m, cycles)
    ensures before + Decides(cycles[0].now, [], PreparedBy(cfg, m, cycles[0]).jobs, key)
            + SubmitTimes(cfg, Left(cfg, m, cycles[0]), cycles[1..], key)
            == before + SubmitTimes(cfg, m, cycles, key)
  {
  }

  lemma {:induction false} CyclesDecide(cfg: Settings, t: B.Rename, cycles: seq<Cycle>, s: Pr.System, h: B.History)
    requires s.phase == Pr.Idle && Pr.Safe(s) && CanRunAll(cfg, s.m, cycles)
    ensures B.RunHistory(ConfigOf(cfg), t, s, AllEvents(cfg, s.m, cycles), h).submits
            == h.submits + SubmitTimes(cfg, s.m, cycles, t.key)
    decreases |cycles|
  {
    if cycles != [] {
      var next := CycleIsARun(cfg, cycles[0], s);
      var events, rest := EventsOf(cfg, s.m, cycles[0]), AllEvents(cfg, next.m, cycles[1..]);
      var after := B.RunHistory(ConfigOf(cfg), t, s, events, h);
      CycleDecides(cfg, t, cycles[0], s, h);
      CyclesDecide(cfg, t, cycles[1..], next, after);
      HistoryAppend(ConfigOf(cfg), t, s, events, rest, h);
      assert AllEvents(cfg, s.m, cycles) == events + rest;
      FirstCycleDecides(cfg, s.m, cycles, t.key, h.submits);
    }
  }

  // Cycles that keep wanting a rename.

  /** Every item of this device wants the name for the same serial number, and does not see it yet. */
  ghost predicate WantedIn(t: B.Rename, results: seq<ApplyResult>) {
    forall i | 0 <= i < |results| && ItemKey(results[i].item) == t.key ::
      var item := results[i].item;
      && StateSerialNumber(item.id, item.serialNumber) == t.serialNumber && item.currentName != t.desiredName
      && (item.status == P.Rename ==> item.desiredName == t.desiredName)
  }

  ghost predicate WantedByAll(t: B.Rename, cycles: seq<Cycle>) {
    forall i | 0 <= i < |cycles| :: WantedIn(t, cycles[i].results)
  }

  lemma WantedAppend(t: B.Rename, first: seq<Pr.Event>, second: seq<Pr.Event>)
    requires B.AllWanted(t, first) && B.AllWanted(t, second)
    ensures B.AllWanted(t, first + second)
  {
  }

  lemma {:induction false} PreparingWants(cfg: Settings, t: B.Rename, now: int, ctx: Context, start: seq<ApplyResult>,
          st: Loop, k: nat)
    requires WantedIn(t, start) && SameItems(start, st.results)
    ensures B.AllWanted(t, PrepareEvents(cfg, now, ctx, st, k))
    decreases |start| - k
  {
    if k < |st.results| && !st.failed && !ctx(k) {
      var next := PrepareOne(cfg, now, st, k);
      assert SameItems(start, next.results);
      PreparingWants(cfg, t, now, ctx, start, next, k + 1);
      WantedAppend(t, [EventFor(st.results[k].item)], PrepareEvents(cfg, now, ctx, next, k + 1));
    }
  }

  lemma UndecidedIsWanted(t: B.Rename, events: seq<Pr.Event>)
    requires forall i | 0 <= i < |events| :: !events[i].PrepareDevice? && !events[i].ObserveDevice?
    ensures B.AllWanted(t, events)
  {
  }

  lemma {:induction false} MovesWant(workers: nat, jobs: seq<Job>, provider: Job -> Reply, pool: Pool, moves: seq<Move>,
          t: B.Rename)
    requires Schedule(workers, jobs, provider, pool, moves)
    ensures B.AllWanted(t, MovesEvents(workers, jobs, provider, pool, moves))
    decreases |moves|
  {
    if moves != [] {
      var n := Moved(workers, jobs, provider, pool, moves[0]);
      MovesWant(workers, jobs, provider, n, moves[1..], t);
      UndecidedIsWanted(t, MoveEvents(jobs, pool, moves[0]));
      WantedAppend(t, MoveEvents(jobs, pool, moves[0]), MovesEvents(workers, jobs, provider, n, moves[1..]));
    }
  }

  lemma CycleWants(cfg: Settings, t: B.Rename, m: Machine, c: Cycle)
    requires CanRun(cfg, m, c) && WantedIn(t, c.results)
    ensures B.AllWanted(t, EventsOf(cfg, m, c))
  {
    var st := PreparedBy(cfg, m, c);
    var preparing := PrepareEvents(cfg, c.now, c.ctx, Loop(c.results, m, [], false), 0);
    PreparingWants(cfg, t, c.now, c.ctx, c.results, Loop(c.results, m, [], false), 0);
    if !st.failed {
      MovesWant(c.workers, st.jobs, c.provider, StartOf(st), c.moves, t);
      UndecidedIsWanted(t, [Pr.StartWorkers]);
      WantedAppend(t, [Pr.StartWorkers], MovesEvents(c.workers, st.jobs, c.provider, StartOf(st), c.moves));
    }
    UndecidedIsWanted(t, LastEvents(c, st));
    WantedAppend(t, WorkEvents(c, st), LastEvents(c, st));
    WantedAppend(t, preparing, WorkEvents(c, st) + LastEvents(c, st));
    UndecidedIsWanted(t, [Pr.BeginCycle(c.now)]);
    WantedAppend(t, [Pr.BeginCycle(c.now)], preparing + (WorkEvents(c, st) + LastEvents(c, st)));
  }

  lemma {:induction false} CyclesWant(cfg: Settings, t: B.Rename, m: Machine, cycles: seq<Cycle>)
    requires CanRunAll(cfg, m, cycles) && WantedByAll(t, cycles)
    ensures B.AllWanted(t, AllEvents(cfg, m, cycles))
    decreases |cycles|
  {
    if cycles != [] {
      assert WantedIn(t, cycles[0].results);
      CycleWants(cfg, t, m, cycles[0]);
      CyclesWant(cfg, t, Left(cfg, m, cycles[0]), cycles[1..]);
      WantedAppend(t, EventsOf(cfg, m, cycles[0]), AllEvents(cfg, Left(cfg, m, cycles[0]), cycles[1..]));
    }
  }

  // The laws of the protocol, for the service.

  function Fresh(script: seq<SaveOutcome>): Machine {
    Machine(map[], [], script)
  }

  /** The history of the cycles' events, and where they lead. */
  lemma CyclesHistory(cfg: Settings, t: B.Rename, cycles: seq<Cycle>, s: Pr.System) returns (events: seq<Pr.Event>)
    requires s.phase == Pr.Idle && Pr.Safe(s) && CanRunAll(cfg, s.m, cycles) && WantedByAll(t, cycles)
    ensures B.AllWanted(t, events)
    ensures var n, h := Pr.RunEvents(ConfigOf(cfg), s, events),
                        B.RunHistory(ConfigOf(cfg), t, s, events, B.NOTHING_YET);
            && n.Some? && n.value.m == LeftByAll(cfg, s.m, cycles)
            && h.calls == TotalCalls(cfg, s.m, cycles, t.key)
            && h.submits == SubmitTimes(cfg, s.m, cycles, t.key)
  {
    events := AllEvents(cfg, s.m, cycles);
    var n := CyclesAreARun(cfg, cycles, s);
    CyclesWant(cfg, t, s.m, cycles);
    HistoryCounts(ConfigOf(cfg), t, s, events, B.NOTHING_YET);
    AllCyclesCount(cfg, s.m, cycles, t.key);
    CyclesDecide(cfg, t, cycles, s, B.NOTHING_YET);
  }

  /**
   * Over any number of applications from an empty store that keep wanting a rename, with any number
   * of workers, any interleaving, failing saves, cancelled contexts and crashes at any point: the
   * provider is called no more often than attempts are recorded in the store, nor than the limit
   * says, and the cycles that decide to submit are at least the retry interval apart.
   */
  lemma CyclesAreBounded(cfg: Settings, t: B.Rename, script: seq<SaveOutcome>, cycles: seq<Cycle>)
    requires cfg.retryAfter > 0 && cfg.maxAttempts > 0
    requires CanRunAll(cfg, Fresh(script), cycles) && WantedByAll(t, cycles)
    ensures var calls := TotalCalls(cfg, Fresh(script), cycles, t.key);
            var stored := Load(LeftByAll(cfg, Fresh(script), cycles).disk);
            && calls <= cfg.maxAttempts && stored.Some?
            && (calls > 0 ==> t.key in stored.value && calls <= stored.value[t.key].attempts)
            && (t.key in stored.value ==> stored.value[t.key].attempts <= cfg.maxAttempts)
    ensures B.Spaced(SubmitTimes(cfg, Fresh(script), cycles, t.key), cfg.retryAfter)
  {
    Pr.FreshIsSafe(script);
    var events := CyclesHistory(cfg, t, cycles, Pr.Fresh(script));
    B.SubmissionsAreBounded(ConfigOf(cfg), t, script, events);
  }

  // Final answers.

  /** The job has been answered finally, and the mark of that has been saved. */
  ghost predicate FinallyMarked(jobs: seq<Job>, provider: Job -> Reply, pool: Pool, a: nat)
    requires a < |jobs| == |pool.stages|
  {
    Recorded(pool.stages[a]) && !OutcomeOf(provider(jobs[a])).Transient?
  }

  lemma {:induction false} SettledRemains(cfg: Pr.Config, t: B.Rename, s: Pr.System, events: seq<Pr.Event>,
          h: B.History)
    requires h.settled
    ensures B.RunHistory(cfg, t, s, events, h).settled
    decreases |events|
  {
    if events != [] && Pr.Step(cfg, s, events[0]).Some? {
      SettledRemains(cfg, t, Pr.Step(cfg, s, events[0]).value, events[1..], B.Watch(cfg, t, s, events[0], h));
    }
  }

  lemma OnlyMarkingRecords(workers: nat, jobs: seq<Job>, provider: Job -> Reply, pool: Pool, move: Move, a: nat)
    requires Enabled(workers, jobs, pool, move) && a < |jobs| && !Recorded(pool.stages[a])
    requires move.Take? ==> pool.stages[pool.next] == Queued
    requires Recorded(Moved(workers, jobs, provider, pool, move).stages[a])
    ensures move == MarkIt(a)
    ensures var t, o := jobs[a], OutcomeOf(pool.stages[a].reply);
            Mark(pool.m, t.key, t.serialNumber, t.desiredName, o).1
  {
  }

  lemma WatchSettles(cfg: Settings, t: B.Rename, jobs: seq<Job>, pool: Pool, s: Pr.System, h: B.History, a: nat)
    requires PoolMatches(jobs, pool, s) && a < |jobs| && jobs[a].key == t.key && pool.stages[a].Replied?
    requires var o := OutcomeOf(pool.stages[a].reply);
             !o.Transient? && Mark(pool.m, t.key, jobs[a].serialNumber, jobs[a].desiredName, o).1
    ensures B.Watch(ConfigOf(cfg), t, s, Pr.MarkJob(t.key, OutcomeOf(pool.stages[a].reply)), h).settled
  {
    assert Unsettled(pool.stages[a]);
  }

  /** The move that records a final answer is the one that settles the history. */
  lemma MarkSettles(cfg: Settings, t: B.Rename, workers: nat, jobs: seq<Job>, provider: Job -> Reply, start: Pool,
          pool: Pool, move: Move, s: Pr.System, h: B.History, a: nat)
    requires Consistent(jobs, provider, start, pool) && Enabled(workers, jobs, pool, move) && PoolMatches(jobs, pool, s)
    requires a < |jobs| && jobs[a].key == t.key && !FinallyMarked(jobs, provider, pool, a)
    requires FinallyMarked(jobs, provider, Moved(workers, jobs, provider, pool, move), a)
    ensures B.RunHistory(ConfigOf(cfg), t, s, MoveEvents(jobs, pool, move), h).settled
  {
    if move.Take? {
      NextIsQueued(jobs, provider, start, pool);
    }
    OnlyMarkingRecords(workers, jobs, provider, pool, move, a);
    ReplyIsProviders(jobs, provider, start, pool, a);
    WatchSettles(cfg, t, jobs, pool, s, h, a);
    DisjointKeys(jobs, start.results, start.m);
    var n := MarkSimulates(cfg, workers, jobs, provider, pool, a, s);
    var e := Pr.MarkJob(t.key, OutcomeOf(pool.stages[a].reply));
    HistoryOne(ConfigOf(cfg), t, s, e, [], h);
    assert [e] + [] == [e] == MoveEvents(jobs, pool, move);
  }

  lemma ReplyIsProviders(jobs: seq<Job>, provider: Job -> Reply, start: Pool, pool: Pool, a: nat)
    requires Consistent(jobs, provider, start, pool) && a < |jobs| && pool.stages[a].Replied?
    ensures pool.stages[a].reply == provider(jobs[a])
  {
    assert OnTrack(jobs, provider, start, pool, a);
  }

  lemma MoveSettles(cfg: Settings, t: B.Rename, workers: nat, jobs: seq<Job>, provider: Job -> Reply, start: Pool,
          pool: Pool, move: Move, s: Pr.System, h: B.History, a: nat)
    requires Consistent(jobs, provider, start, pool) && Enabled(workers, jobs, pool, move) && PoolMatches(jobs, pool, s)
    requires a < |jobs| && jobs[a].key == t.key && (FinallyMarked(jobs, provider, pool, a) ==> h.settled)
    ensures FinallyMarked(jobs, provider, Moved(workers, jobs, provider, pool, move), a) ==>
              B.RunHistory(ConfigOf(cfg), t, s, MoveEvents(jobs, pool, move), h).settled
  {
    if FinallyMarked(jobs, provider, Moved(workers, jobs, provider, pool, move), a) {
      if FinallyMarked(jobs, provider, pool, a) {
        SettledRemains(ConfigOf(cfg), t, s, MoveEvents(jobs, pool, move), h);
      } else {
        MarkSettles(cfg, t, workers, jobs, provider, start, pool, move, s, h, a);
      }
    }
  }

  lemma {:induction false} MovesSettle(cfg: Settings, t: B.Rename, workers: nat, jobs: seq<Job>, provider: Job -> Reply,
          start: Pool, pool: Pool, moves: seq<Move>, s: Pr.System, h: B.History, a: nat)
    requires Consistent(jobs, provider, start, pool) && Schedule(workers, jobs, provider, pool, moves)
    requires PoolMatches(jobs, pool, s)
    requires a < |jobs| && jobs[a].key == t.key && (FinallyMarked(jobs, provider, pool, a) ==> h.settled)
    requires |RunSchedule(workers, jobs, provider, pool, moves).stages| == |jobs|
    ensures FinallyMarked(jobs, provider, RunSchedule(workers, jobs, provider, pool, moves), a) ==>
              B.RunHistory(ConfigOf(cfg), t, s, MovesEvents(workers, jobs, provider, pool, moves), h).settled
    decreases |moves|
  {
    if moves != [] {
      var n, events := Moved(workers, jobs, provider, pool, moves[0]), MoveEvents(jobs, pool, moves[0]);
      DisjointKeys(jobs, start.results, start.m);
      if moves[0].Take? {
        NextIsQueued(jobs, provider, start, pool);
      }
      var next := MoveSimulates(cfg, workers, jobs, provider, pool, moves[0], s);
      MovesStayConsistent(workers, jobs, provider, start, pool, moves[0]);
      MoveSettles(cfg, t, workers, jobs, provider, start, pool, moves[0], s, h, a);
      var after := B.RunHistory(ConfigOf(cfg), t, s, events, h);
      MovesSettle(cfg, t, workers, jobs, provider, start, n, moves[1..], next, after, a);
      HistoryAppend(ConfigOf(cfg), t, s, events, MovesEvents(workers, jobs, provider, n, moves[1..]), h);
    }
  }

  /** In this cycle an acceptance or a permanent rejection of the device's rename has been saved. */
  ghost predicate Settles(cfg: Settings, m: Machine, c: Cycle, key: Key)
    requires CanRun(cfg, m, c)
  {
    var st := PreparedBy(cfg, m, c);
    !st.failed
    && var pool := RunSchedule(c.workers, st.jobs, c.provider, StartOf(st), c.moves);
       |pool.stages| == |st.jobs|
       && exists a: nat :: a < |st.jobs| && st.jobs[a].key == key && FinallyMarked(st.jobs, c.provider, pool, a)
  }

  lemma WorkersSettle(cfg: Settings, t: B.Rename, workers: nat, jobs: seq<Job>, provider: Job -> Reply,
          results: seq<ApplyResult>, m: Machine, moves: seq<Move>, s: Pr.System, h: B.History, a: nat)
    requires Disjoint(jobs, results, m) && Schedule(workers, jobs, provider, Start(jobs, results, m), moves)
    requires PoolMatches(jobs, Start(jobs, results, m), s) && a < |jobs| && jobs[a].key == t.key
    requires var pool := RunSchedule(workers, jobs, provider, Start(jobs, results, m), moves);
             |pool.stages| == |jobs| && FinallyMarked(jobs, provider, pool, a)
    ensures B.RunHistory(ConfigOf(cfg), t, s,
                         MovesEvents(workers, jobs, provider, Start(jobs, results, m), moves), h).settled
  {
    var start := Start(jobs, results, m);
    StartIsConsistent(jobs, provider, results, m);
    MovesSettle(cfg, t, workers, jobs, provider, start, start, moves, s, h, a);
  }

  lemma WorkSettles(cfg: Settings, t: B.Rename, c: Cycle, m: Machine, s: Pr.System, h: B.History)
    requires CanRun(cfg, m, c) && Settles(cfg, m, c, t.key) && Pr.Safe(s)
    requires LoopMatches(c.now, c.results, PreparedBy(cfg, m, c), |c.results|, s)
    ensures B.RunHistory(ConfigOf(cfg), t, s, WorkEvents(c, PreparedBy(cfg, m, c)), h).settled
  {
    var st := PreparedBy(cfg, m, c);
    var pool := RunSchedule(c.workers, st.jobs, c.provider, StartOf(st), c.moves);
    var a: nat :| a < |st.jobs| && st.jobs[a].key == t.key && FinallyMarked(st.jobs, c.provider, pool, a);
    StartedSettles(cfg, t, c, st, s, h, a);
  }

  lemma StartedSettles(cfg: Settings, t: B.Rename, c: Cycle, st: Loop, s: Pr.System, h: B.History, a: nat)
    requires LoopMatches(c.now, c.results, st, |c.results|, s) && !st.failed && Pr.Safe(s) && DistinctItems(c.results)
    requires Schedule(c.workers, st.jobs, c.provider, StartOf(st), c.moves) && a < |st.jobs| && st.jobs[a].key == t.key
    requires var pool := RunSchedule(c.workers, st.jobs, c.provider, StartOf(st), c.moves);
             |pool.stages| == |st.jobs| && FinallyMarked(st.jobs, c.provider, pool, a)
    ensures B.RunHistory(ConfigOf(cfg), t, s, WorkEvents(c, st), h).settled
  {
    MatchIsDisjoint(c.now, c.results, st, s);
    WorkersStart(c.now, c.results, st, s);
    WorkersSettle(cfg, t, c.workers, st.jobs, c.provider, st.results, st.m, c.moves, s.(phase := Pr.Working),
                  B.Watch(ConfigOf(cfg), t, s, Pr.StartWorkers, h), a);
    HistoryOne(ConfigOf(cfg), t, s, Pr.StartWorkers,
               MovesEvents(c.workers, st.jobs, c.provider, StartOf(st), c.moves), h);
  }

  lemma CycleSettles(cfg: Settings, t: B.Rename, c: Cycle, s: Pr.System, h: B.History)
    requires s.phase == Pr.Idle && Pr.Safe(s) && CanRun(cfg, s.m, c) && Settles(cfg, s.m, c, t.key)
    ensures B.RunHistory(ConfigOf(cfg), t, s, EventsOf(cfg, s.m, c), h).settled
  {
    var first, st := Loop(c.results, s.m, [], false), PreparedBy(cfg, s.m, c);
    var preparing, rest := PrepareEvents(cfg, c.now, c.ctx, first, 0), WorkEvents(c, st) + LastEvents(c, st);
    BeginMatches(cfg, c, s);
    RunOne(ConfigOf(cfg), s, Pr.BeginCycle(c.now));
    HistoryOne(ConfigOf(cfg), t, s, Pr.BeginCycle(c.now), preparing + rest, h);
    var begun := Pr.System(s.m, Pr.Preparing, c.now, {}, map[]);
    Pr.RunsStaySafe(ConfigOf(cfg), s, [Pr.BeginCycle(c.now)]);
    var n := PrepareSimulates(cfg, c.now, c.ctx, c.results, first, 0, begun);
    Pr.RunsStaySafe(ConfigOf(cfg), begun, preparing);
    HistoryAppend(ConfigOf(cfg), t, begun, preparing, rest, h);
    var prepared := B.RunHistory(ConfigOf(cfg), t, begun, preparing, h);
    WorkSettles(cfg, t, c, s.m, n, prepared);
    var worked := WorkSimulates(cfg, c, st, n);
    HistoryAppend(ConfigOf(cfg), t, n, WorkEvents(c, st), LastEvents(c, st), prepared);
    SettledRemains(ConfigOf(cfg), t, worked, LastEvents(c, st),
                   B.RunHistory(ConfigOf(cfg), t, n, WorkEvents(c, st), prepared));
  }

  /** The run up to and including a cycle that settles the rename. */
  lemma SettledRun(cfg: Settings, t: B.Rename, cycles: seq<Cycle>, c: Cycle, s: Pr.System)
      returns (events: seq<Pr.Event>, n: Pr.System)
    requires s.phase == Pr.Idle && Pr.Safe(s) && CanRunAll(cfg, s.m, cycles) && WantedByAll(t, cycles)
    requires WantedIn(t, c.results)
    requires CanRun(cfg, LeftByAll(cfg, s.m, cycles), c) && Settles(cfg, LeftByAll(cfg, s.m, cycles), c, t.key)
    ensures Pr.RunEvents(ConfigOf(cfg), s, events) == Some(n) && n.phase == Pr.Idle && Pr.Safe(n)
    ensures n.m == Left(cfg, LeftByAll(cfg, s.m, cycles), c) && B.AllWanted(t, events)
    ensures B.RunHistory(ConfigOf(cfg), t, s, events, B.NOTHING_YET).settled
  {
    var first := AllEvents(cfg, s.m, cycles);
    var middle := CyclesAreARun(cfg, cycles, s);
    CyclesWant(cfg, t, s.m, cycles);
    CycleWants(cfg, t, middle.m, c);
    n := CycleIsARun(cfg, c, middle);
    events := first + EventsOf(cfg, middle.m, c);
    WantedAppend(t, first, EventsOf(cfg, middle.m, c));
    RunAppend(ConfigOf(cfg), s, first, EventsOf(cfg, middle.m, c));
    HistoryAppend(ConfigOf(cfg), t, s, first, EventsOf(cfg, middle.m, c), B.NOTHING_YET);
    CycleSettles(cfg, t, c, middle, B.RunHistory(ConfigOf(cfg), t, s, first, B.NOTHING_YET));
  }

  /**
   * Once a cycle has saved an acceptance or a permanent rejection, no later cycle that keeps wanting
   * the rename decides to submit it or calls the provider for it.
   */
  lemma FinalAnswersAreFinal(cfg: Settings, t: B.Rename, script: seq<SaveOutcome>, cycles: seq<Cycle>, c: Cycle,
          more: seq<Cycle>)
    requires cfg.retryAfter > 0 && cfg.maxAttempts > 0
    requires CanRunAll(cfg, Fresh(script), cycles) && WantedByAll(t, cycles) && WantedIn(t, c.results)
    requires WantedByAll(t, more)
    requires var m := LeftByAll(cfg, Fresh(script), cycles);
             CanRun(cfg, m, c) && Settles(cfg, m, c, t.key) && CanRunAll(cfg, Left(cfg, m, c), more)
    ensures var m := Left(cfg, LeftByAll(cfg, Fresh(script), cycles), c);
            TotalCalls(cfg, m, more, t.key) == 0 && SubmitTimes(cfg, m, more, t.key) == []
  {
    Pr.FreshIsSafe(script);
    var events, n := SettledRun(cfg, t, cycles, c, Pr.Fresh(script));
    var later := AllEvents(cfg, n.m, more);
    var last := CyclesAreARun(cfg, more, n);
    CyclesWant(cfg, t, n.m, more);
    B.SettledStaysSettled(ConfigOf(cfg), t, script, events, later);
    var h := B.RunHistory(ConfigOf(cfg), t, Pr.Fresh(script), events, B.NOTHING_YET);
    HistoryCounts(ConfigOf(cfg), t, n, later, h);
    AllCyclesCount(cfg, n.m, more, t.key);
    CyclesDecide(cfg, t, more, n, h);
  }
}
