/** Whole cycles of the service are runs of the protocol, so its laws hold of them (internal/app/service.go:271-429). */
module ServiceRun {
  import opened Basics
  import P = PlannerModel
  import opened LedgerModel
  import opened ServiceModel
  import opened WorkerPool
  import opened ServiceReport
  import Pr = Protocol

  function ConfigOf(cfg: Settings): Pr.Config {
    Pr.Config(cfg.retryAfter, cfg.maxAttempts)
  }

  // Runs of events.

  lemma RunOne(cfg: Pr.Config, s: Pr.System, e: Pr.Event)
    ensures Pr.RunEvents(cfg, s, [e]) == Pr.Step(cfg, s, e)
  {
    assert [e][1..] == [];
  }

  lemma {:induction false} RunAppend(cfg: Pr.Config, s: Pr.System, first: seq<Pr.Event>, second: seq<Pr.Event>)
    requires Pr.RunEvents(cfg, s, first).Some?
    ensures Pr.RunEvents(cfg, s, first + second) == Pr.RunEvents(cfg, Pr.RunEvents(cfg, s, first).value, second)
    decreases |first|
  {
    if first == [] {
      assert first + second == second;
    } else {
      RunAppend(cfg, Pr.Step(cfg, s, first[0]).value, first[1..], second);
      assert (first + second)[1..] == first[1..] + second;
    }
  }

  // The prepare loop.

  function EventFor(i: P.Item): Pr.Event {
    var serial := StateSerialNumber(i.id, i.serialNumber);
    if i.status == P.Rename then Pr.PrepareDevice(ItemKey(i), serial, i.currentName, i.desiredName)
    else Pr.ObserveDevice(ItemKey(i), serial, i.currentName)
  }

  ghost function PrepareEvents(cfg: Settings, now: int, ctx: Context, st: Loop, k: nat): seq<Pr.Event>
    decreases |st.results| - k
  {
    if k >= |st.results| || st.failed then []
    else if ctx(k) then [Pr.AbortCycle]
    else [EventFor(st.results[k].item)] + PrepareEvents(cfg, now, ctx, PrepareOne(cfg, now, st, k), k + 1)
  }

  ghost function KeysUpTo(results: seq<ApplyResult>, k: nat): set<Key>
    requires k <= |results|
  {
    set i | 0 <= i < k :: ItemKey(results[i].item)
  }

  /** The jobs are about some of the first `k` results, in order. */
  ghost predicate JobsOrdered(results: seq<ApplyResult>, jobs: seq<Job>, k: nat)
    requires k <= |results|
  {
    && (forall a, b | 0 <= a < b < |jobs| :: jobs[a].index < jobs[b].index)
    && (forall a | 0 <= a < |jobs| :: jobs[a].index < k && jobs[a].key == ItemKey(results[jobs[a].index].item))
  }

  /** The protocol's jobs are these, none of which has been called. */
  ghost predicate SameJobs(jobs: seq<Job>, named: map<Key, Pr.Job>) {
    && (forall key | key in named :: exists a :: 0 <= a < |jobs| && jobs[a].key == key)
    && (forall a | 0 <= a < |jobs| ::
          jobs[a].key in named && named[jobs[a].key] == Pr.Job(jobs[a].serialNumber, jobs[a].desiredName, false))
  }

  /** The loop's state before result `k` and the protocol's. */
  ghost predicate LoopMatches(now: int, start: seq<ApplyResult>, st: Loop, k: nat, s: Pr.System) {
    && SameItems(start, st.results) && s.m == st.m
    && if st.failed then s.phase == Pr.Idle && s.jobs == map[]
       else
         && k <= |start| && s.phase == Pr.Preparing && s.now == now
         && s.prepared == KeysUpTo(start, k)
         && JobsOrdered(start, st.jobs, k) && SameJobs(st.jobs, s.jobs)
  }

  lemma NotYetPrepared(start: seq<ApplyResult>, k: nat)
    requires DistinctItems(start) && k < |start|
    ensures ItemKey(start[k].item) !in KeysUpTo(start, k)
    ensures KeysUpTo(start, k + 1) == KeysUpTo(start, k) + {ItemKey(start[k].item)}
  {
  }

  lemma ObserveMatches(cfg: Settings, now: int, start: seq<ApplyResult>, st: Loop, k: nat, s: Pr.System)
    requires LoopMatches(now, start, st, k, s) && !st.failed && k < |start| && DistinctItems(start)
    requires start[k].item.status != P.Rename
    ensures var next := Pr.Step(ConfigOf(cfg), s, EventFor(start[k].item));
            next.Some? && LoopMatches(now, start, PrepareOne(cfg, now, st, k), k + 1, next.value)
  {
    NotYetPrepared(start, k);
  }

  lemma NoJobYet(start: seq<ApplyResult>, jobs: seq<Job>, k: nat)
    requires DistinctItems(start) && k < |start| && JobsOrdered(start, jobs, k)
    ensures forall a | 0 <= a < |jobs| :: jobs[a].key != ItemKey(start[k].item)
  {
    forall a | 0 <= a < |jobs| ensures jobs[a].key != ItemKey(start[k].item) {
      assert ItemKey(start[jobs[a].index].item) != ItemKey(start[k].item);
    }
  }

  lemma OneMoreOrdered(start: seq<ApplyResult>, jobs: seq<Job>, k: nat, t: Job)
    requires k < |start| && JobsOrdered(start, jobs, k) && t.index == k && t.key == ItemKey(start[k].item)
    ensures JobsOrdered(start, jobs + [t], k + 1)
  {
  }

  lemma OneMoreNamed(jobs: seq<Job>, named: map<Key, Pr.Job>, t: Job)
    requires SameJobs(jobs, named) && forall a | 0 <= a < |jobs| :: jobs[a].key != t.key
    ensures SameJobs(jobs + [t], named[t.key := Pr.Job(t.serialNumber, t.desiredName, false)])
  {
    var more, renamed := jobs + [t], named[t.key := Pr.Job(t.serialNumber, t.desiredName, false)];
    forall key | key in renamed ensures exists a :: 0 <= a < |more| && more[a].key == key {
      if key == t.key {
        assert more[|jobs|].key == key;
      } else {
        var a :| 0 <= a < |jobs| && jobs[a].key == key;
        assert more[a].key == key;
      }
    }
  }

  lemma PrepareMatches(cfg: Settings, now: int, start: seq<ApplyResult>, st: Loop, k: nat, s: Pr.System)
    requires LoopMatches(now, start, st, k, s) && !st.failed && k < |start| && DistinctItems(start)
    requires start[k].item.status == P.Rename
    ensures var next := Pr.Step(ConfigOf(cfg), s, EventFor(start[k].item));
            next.Some? && LoopMatches(now, start, PrepareOne(cfg, now, st, k), k + 1, next.value)
  {
    NotYetPrepared(start, k);
    var item := start[k].item;
    var r := RequestFor(cfg, now, item);
    assert r == Pr.RequestOf(ConfigOf(cfg), s, EventFor(item));
    var (m, answer) := Prepare(s.m, r);
    AnswerMatches(now, start, st, k, s, m, answer);
  }

  lemma AnswerMatches(now: int, start: seq<ApplyResult>, st: Loop, k: nat, s: Pr.System, m: Machine, answer: Answer)
    requires LoopMatches(now, start, st, k, s) && !st.failed && k < |start| && DistinctItems(start)
    requires start[k].item.status == P.Rename
    ensures LoopMatches(now, start, Concluded(st, k, m, answer), k + 1,
                        Pr.AfterPrepare(s, EventFor(start[k].item), m, answer))
  {
    NotYetPrepared(start, k);
    if answer.Decided? && answer.decision.disposition == DispositionSubmit {
      var t := JobOf(k, start[k].item, answer.decision.retryAt);
      NoJobYet(start, st.jobs, k);
      OneMoreOrdered(start, st.jobs, k, t);
      OneMoreNamed(st.jobs, s.jobs, t);
    }
  }

  lemma ItemMatches(cfg: Settings, now: int, start: seq<ApplyResult>, st: Loop, k: nat, s: Pr.System)
    requires LoopMatches(now, start, st, k, s) && !st.failed && k < |start| && DistinctItems(start)
    ensures var next := Pr.Step(ConfigOf(cfg), s, EventFor(start[k].item));
            next.Some? && LoopMatches(now, start, PrepareOne(cfg, now, st, k), k + 1, next.value)
  {
    if start[k].item.status == P.Rename {
      PrepareMatches(cfg, now, start, st, k, s);
    } else {
      ObserveMatches(cfg, now, start, st, k, s);
    }
  }

  lemma {:induction false} PrepareSimulates(cfg: Settings, now: int, ctx: Context, start: seq<ApplyResult>, st: Loop,
          k: nat, s: Pr.System) returns (n: Pr.System)
    requires LoopMatches(now, start, st, k, s) && DistinctItems(start)
    ensures Pr.RunEvents(ConfigOf(cfg), s, PrepareEvents(cfg, now, ctx, st, k)) == Some(n)
    ensures LoopMatches(now, start, PrepareFrom(cfg, now, ctx, st, k), |start|, n)
    decreases |start| - k
  {
    if k >= |st.results| || st.failed {
      n := s;
    } else if ctx(k) {
      RunOne(ConfigOf(cfg), s, Pr.AbortCycle);
      n := Pr.Step(ConfigOf(cfg), s, Pr.AbortCycle).value;
    } else {
      var e, next := EventFor(start[k].item), PrepareOne(cfg, now, st, k);
      ItemMatches(cfg, now, start, st, k, s);
      n := PrepareSimulates(cfg, now, ctx, start, next, k + 1, Pr.Step(ConfigOf(cfg), s, e).value);
      RunOne(ConfigOf(cfg), s, e);
      RunAppend(ConfigOf(cfg), s, [e], PrepareEvents(cfg, now, ctx, next, k + 1));
    }
  }

  // The workers.

  /** The job has been neither marked nor skipped. */
  predicate Unsettled(s: Stage) {
    s.Queued? || s.Taken? || s.Replied?
  }

  ghost predicate DistinctKeys(jobs: seq<Job>) {
    forall a, b | 0 <= a < b < |jobs| :: jobs[a].key != jobs[b].key
  }

  /** The protocol's jobs are those neither marked nor skipped, and it knows which have been called. */
  ghost predicate PoolMatches(jobs: seq<Job>, pool: Pool, s: Pr.System) {
    && |pool.stages| == |jobs| && s.phase == Pr.Working && s.m == pool.m
    && (forall key | key in s.jobs :: exists j :: 0 <= j < |jobs| && jobs[j].key == key && Unsettled(pool.stages[j]))
    && (forall j | 0 <= j < |jobs| && Unsettled(pool.stages[j]) ::
          && jobs[j].key in s.jobs
          && s.jobs[jobs[j].key] == Pr.Job(jobs[j].serialNumber, jobs[j].desiredName, pool.stages[j].Replied?))
  }

  ghost function MoveEvents(jobs: seq<Job>, pool: Pool, move: Move): seq<Pr.Event>
    requires move.Skip? || move.Call? || move.MarkIt? ==> move.job < |jobs| == |pool.stages|
    requires move.MarkIt? ==> pool.stages[move.job].Replied?
  {
    match move
    case Take(_) => []
    case Skip(j) => [Pr.SkipJob(jobs[j].key)]
    case Call(j) => [Pr.CallProvider(jobs[j].key)]
    case MarkIt(j) => [Pr.MarkJob(jobs[j].key, OutcomeOf(pool.stages[j].reply))]
    case Write(_) => []
  }

  /** Nothing happens to the protocol's jobs when job `j` keeps its status there. */
  lemma StageKeeps(jobs: seq<Job>, pool: Pool, n: Pool, s: Pr.System, j: nat)
    requires PoolMatches(jobs, pool, s) && j < |jobs| && |n.stages| == |jobs| && n.m == pool.m
    requires n.stages == pool.stages[j := n.stages[j]]
    requires Unsettled(n.stages[j]) == Unsettled(pool.stages[j])
    requires n.stages[j].Replied? == pool.stages[j].Replied? || !Unsettled(n.stages[j])
    ensures PoolMatches(jobs, n, s)
  {
    forall key | key in s.jobs ensures exists i :: 0 <= i < |jobs| && jobs[i].key == key && Unsettled(n.stages[i]) {
      var i :| 0 <= i < |jobs| && jobs[i].key == key && Unsettled(pool.stages[i]);
      assert Unsettled(n.stages[i]);
    }
  }

  /** Job `j` is settled: the protocol forgets it. */
  lemma StageSettles(jobs: seq<Job>, pool: Pool, n: Pool, s: Pr.System, m: Machine, j: nat)
    requires PoolMatches(jobs, pool, s) && DistinctKeys(jobs) && j < |jobs| && |n.stages| == |jobs| && n.m == m
    requires n.stages == pool.stages[j := n.stages[j]] && Unsettled(pool.stages[j]) && !Unsettled(n.stages[j])
    ensures PoolMatches(jobs, n, s.(m := m, jobs := s.jobs - {jobs[j].key}))
  {
    var named := s.jobs - {jobs[j].key};
    forall key | key in named ensures exists i :: 0 <= i < |jobs| && jobs[i].key == key && Unsettled(n.stages[i]) {
      var i :| 0 <= i < |jobs| && jobs[i].key == key && Unsettled(pool.stages[i]);
      assert i != j && Unsettled(n.stages[i]);
    }
    forall i | 0 <= i < |jobs| && Unsettled(n.stages[i])
      ensures jobs[i].key in named
      ensures named[jobs[i].key] == Pr.Job(jobs[i].serialNumber, jobs[i].desiredName, n.stages[i].Replied?)
    {
      assert i < j || j < i;
    }
  }

  lemma CallMatches(jobs: seq<Job>, pool: Pool, n: Pool, s: Pr.System, j: nat)
    requires PoolMatches(jobs, pool, s) && DistinctKeys(jobs) && j < |jobs| && |n.stages| == |jobs| && n.m == pool.m
    requires n.stages == pool.stages[j := n.stages[j]] && pool.stages[j].Taken? && n.stages[j].Replied?
    ensures PoolMatches(jobs, n, s.(jobs := s.jobs[jobs[j].key := s.jobs[jobs[j].key].(called := true)]))
  {
    var named := s.jobs[jobs[j].key := s.jobs[jobs[j].key].(called := true)];
    forall key | key in named ensures exists i :: 0 <= i < |jobs| && jobs[i].key == key && Unsettled(n.stages[i]) {
      var i :| 0 <= i < |jobs| && jobs[i].key == key && Unsettled(pool.stages[i]);
      assert Unsettled(n.stages[i]);
    }
    forall i | 0 <= i < |jobs| && Unsettled(n.stages[i])
      ensures jobs[i].key in named
      ensures named[jobs[i].key] == Pr.Job(jobs[i].serialNumber, jobs[i].desiredName, n.stages[i].Replied?)
    {
      assert i < j || j < i || i == j;
    }
  }

  lemma SkipSimulates(cfg: Settings, workers: nat, jobs: seq<Job>, provider: Job -> Reply, pool: Pool, j: nat,
          s: Pr.System) returns (n: Pr.System)
    requires PoolMatches(jobs, pool, s) && DistinctKeys(jobs) && Enabled(workers, jobs, pool, Skip(j))
    ensures Pr.Step(ConfigOf(cfg), s, Pr.SkipJob(jobs[j].key)) == Some(n)
    ensures PoolMatches(jobs, Moved(workers, jobs, provider, pool, Skip(j)), n)
  {
    var after := Moved(workers, jobs, provider, pool, Skip(j));
    StageSettles(jobs, pool, after, s, s.m, j);
    n := s.(jobs := s.jobs - {jobs[j].key});
  }

  lemma CallSimulates(cfg: Settings, workers: nat, jobs: seq<Job>, provider: Job -> Reply, pool: Pool, j: nat,
          s: Pr.System) returns (n: Pr.System)
    requires PoolMatches(jobs, pool, s) && DistinctKeys(jobs) && Enabled(workers, jobs, pool, Call(j))
    ensures Pr.Step(ConfigOf(cfg), s, Pr.CallProvider(jobs[j].key)) == Some(n)
    ensures PoolMatches(jobs, Moved(workers, jobs, provider, pool, Call(j)), n)
  {
    var after := Moved(workers, jobs, provider, pool, Call(j));
    CallMatches(jobs, pool, after, s, j);
    n := s.(jobs := s.jobs[jobs[j].key := s.jobs[jobs[j].key].(called := true)]);
  }

  lemma MarkSimulates(cfg: Settings, workers: nat, jobs: seq<Job>, provider: Job -> Reply, pool: Pool, j: nat,
          s: Pr.System) returns (n: Pr.System)
    requires PoolMatches(jobs, pool, s) && DistinctKeys(jobs) && Enabled(workers, jobs, pool, MarkIt(j))
    ensures Pr.Step(ConfigOf(cfg), s, Pr.MarkJob(jobs[j].key, OutcomeOf(pool.stages[j].reply))) == Some(n)
    ensures PoolMatches(jobs, Moved(workers, jobs, provider, pool, MarkIt(j)), n)
  {
    var after := Moved(workers, jobs, provider, pool, MarkIt(j));
    StageSettles(jobs, pool, after, s, after.m, j);
    n := s.(m := after.m, jobs := s.jobs - {jobs[j].key});
  }

  /** A move of the pool is at most one event of the protocol. */
  lemma MoveSimulates(cfg: Settings, workers: nat, jobs: seq<Job>, provider: Job -> Reply, pool: Pool, move: Move,
          s: Pr.System) returns (n: Pr.System)
    requires PoolMatches(jobs, pool, s) && DistinctKeys(jobs) && Enabled(workers, jobs, pool, move)
    requires move.Take? ==> pool.stages[pool.next] == Queued
    ensures Pr.RunEvents(ConfigOf(cfg), s, MoveEvents(jobs, pool, move)) == Some(n)
    ensures PoolMatches(jobs, Moved(workers, jobs, provider, pool, move), n)
  {
    n := s;
    match move
    case Take(_) => StageKeeps(jobs, pool, Moved(workers, jobs, provider, pool, move), s, pool.next);
    case Write(j) => StageKeeps(jobs, pool, Moved(workers, jobs, provider, pool, move), s, j);
    case Skip(j) =>
      n := SkipSimulates(cfg, workers, jobs, provider, pool, j, s);
      RunOne(ConfigOf(cfg), s, Pr.SkipJob(jobs[j].key));
    case Call(j) =>
      n := CallSimulates(cfg, workers, jobs, provider, pool, j, s);
      RunOne(ConfigOf(cfg), s, Pr.CallProvider(jobs[j].key));
    case MarkIt(j) =>
      n := MarkSimulates(cfg, workers, jobs, provider, pool, j, s);
      RunOne(ConfigOf(cfg), s, Pr.MarkJob(jobs[j].key, OutcomeOf(pool.stages[j].reply)));
  }

  ghost function MovesEvents(workers: nat, jobs: seq<Job>, provider: Job -> Reply, pool: Pool, moves: seq<Move>):
      seq<Pr.Event>
    requires Schedule(workers, jobs, provider, pool, moves)
    decreases |moves|
  {
    if moves == [] then []
    else MoveEvents(jobs, pool, moves[0])
         + MovesEvents(workers, jobs, provider, Moved(workers, jobs, provider, pool, moves[0]), moves[1..])
  }

  lemma DisjointKeys(jobs: seq<Job>, results: seq<ApplyResult>, m: Machine)
    requires Disjoint(jobs, results, m)
    ensures DistinctKeys(jobs)
  {
  }

  lemma {:induction false} MovesSimulate(cfg: Settings, workers: nat, jobs: seq<Job>, provider: Job -> Reply,
          start: Pool, pool: Pool, moves: seq<Move>, s: Pr.System) returns (n: Pr.System)
    requires Consistent(jobs, provider, start, pool) && Schedule(workers, jobs, provider, pool, moves)
    requires PoolMatches(jobs, pool, s)
    ensures Pr.RunEvents(ConfigOf(cfg), s, MovesEvents(workers, jobs, provider, pool, moves)) == Some(n)
    ensures PoolMatches(jobs, RunSchedule(workers, jobs, provider, pool, moves), n)
    decreases |moves|
  {
    n := s;
    if moves != [] {
      DisjointKeys(jobs, start.results, start.m);
      if moves[0].Take? {
        NextIsQueued(jobs, provider, start, pool);
      }
      var after := Moved(workers, jobs, provider, pool, moves[0]);
      var next := MoveSimulates(cfg, workers, jobs, provider, pool, moves[0], s);
      MovesStayConsistent(workers, jobs, provider, start, pool, moves[0]);
      n := MovesSimulate(cfg, workers, jobs, provider, start, after, moves[1..], next);
      RunAppend(ConfigOf(cfg), s, MoveEvents(jobs, pool, moves[0]),
                MovesEvents(workers, jobs, provider, after, moves[1..]));
    }
  }

  // Whole cycles.

  /**
   * One application: when, under which context and with which results it prepares, how the workers
   * move, and whether the process dies afterwards, or at any point of the schedule given.
   */
  datatype Cycle = Cycle(now: int, ctx: Context, results: seq<ApplyResult>, workers: nat, provider: Job -> Reply,
                         moves: seq<Move>, crash: bool)

  ghost function PreparedBy(cfg: Settings, m: Machine, c: Cycle): Loop {
    PrepareAll(cfg, c.now, c.ctx, c.results, m)
  }

  ghost function StartOf(st: Loop): Pool {
    Start(st.jobs, st.results, st.m)
  }

  /** The cycle can go like this: its workers finish all jobs unless the process dies. */
  ghost predicate CanRun(cfg: Settings, m: Machine, c: Cycle) {
    var st := PreparedBy(cfg, m, c);
    && c.now != ZERO_TIME && DistinctItems(c.results)
    && (st.failed ||
        (&& Schedule(c.workers, st.jobs, c.provider, StartOf(st), c.moves)
         && (c.crash || Drained(RunSchedule(c.workers, st.jobs, c.provider, StartOf(st), c.moves)))))
  }

  ghost function MachineAfter(cfg: Settings, m: Machine, c: Cycle): Machine
    requires CanRun(cfg, m, c)
  {
    var st := PreparedBy(cfg, m, c);
    if st.failed then st.m else RunSchedule(c.workers, st.jobs, c.provider, StartOf(st), c.moves).m
  }

  /** What the next process starts with: after a crash, what the store holds. */
  ghost function Left(cfg: Settings, m: Machine, c: Cycle): Machine
    requires CanRun(cfg, m, c)
  {
    var n := MachineAfter(cfg, m, c);
    if c.crash && Load(n.disk).Some? then n.(intents := Load(n.disk).value) else n
  }

  ghost function WorkEvents(c: Cycle, st: Loop): seq<Pr.Event>
    requires !st.failed ==> Schedule(c.workers, st.jobs, c.provider, StartOf(st), c.moves)
  {
    if st.failed then []
    else [Pr.StartWorkers] + MovesEvents(c.workers, st.jobs, c.provider, StartOf(st), c.moves)
  }

  ghost function LastEvents(c: Cycle, st: Loop): seq<Pr.Event> {
    if c.crash then [Pr.Crash] else if st.failed then [] else [Pr.EndCycle]
  }

  ghost function EventsOf(cfg: Settings, m: Machine, c: Cycle): seq<Pr.Event>
    requires CanRun(cfg, m, c)
  {
    var st := PreparedBy(cfg, m, c);
    [Pr.BeginCycle(c.now)]
    + (PrepareEvents(cfg, c.now, c.ctx, Loop(c.results, m, [], false), 0) + (WorkEvents(c, st) + LastEvents(c, st)))
  }

  /** What the prepare loop leaves written ahead are jobs as the workers need them. */
  lemma MatchIsDisjoint(now: int, start: seq<ApplyResult>, st: Loop, s: Pr.System)
    requires LoopMatches(now, start, st, |start|, s) && !st.failed && Pr.Safe(s) && DistinctItems(start)
    ensures Disjoint(st.jobs, st.results, st.m)
  {
    forall a, b | 0 <= a < b < |st.jobs|
      ensures st.jobs[a].index != st.jobs[b].index && st.jobs[a].key != st.jobs[b].key
    {
      assert ItemKey(start[st.jobs[a].index].item) != ItemKey(start[st.jobs[b].index].item);
    }
    forall a | 0 <= a < |st.jobs|
      ensures Current(st.m.intents, st.jobs[a].key, st.jobs[a].serialNumber, st.jobs[a].desiredName)
    {
      assert Pr.WrittenAhead(s.m.intents, st.jobs[a].key, s.jobs[st.jobs[a].key]);
    }
  }

  lemma WorkersStart(now: int, start: seq<ApplyResult>, st: Loop, s: Pr.System)
    requires LoopMatches(now, start, st, |start|, s) && !st.failed
    ensures PoolMatches(st.jobs, StartOf(st), s.(phase := Pr.Working))
  {
    var pool := StartOf(st);
    forall key | key in s.jobs
      ensures exists j :: 0 <= j < |st.jobs| && st.jobs[j].key == key && Unsettled(pool.stages[j])
    {
      var a :| 0 <= a < |st.jobs| && st.jobs[a].key == key;
      assert Unsettled(pool.stages[a]);
    }
  }

  lemma WorkSimulates(cfg: Settings, c: Cycle, st: Loop, s: Pr.System) returns (n: Pr.System)
    requires LoopMatches(c.now, c.results, st, |c.results|, s) && !st.failed && Pr.Safe(s) && DistinctItems(c.results)
    requires Schedule(c.workers, st.jobs, c.provider, StartOf(st), c.moves)
    ensures Pr.RunEvents(ConfigOf(cfg), s, WorkEvents(c, st)) == Some(n)
    ensures PoolMatches(st.jobs, RunSchedule(c.workers, st.jobs, c.provider, StartOf(st), c.moves), n)
  {
    MatchIsDisjoint(c.now, c.results, st, s);
    WorkersStart(c.now, c.results, st, s);
    StartIsConsistent(st.jobs, c.provider, st.results, st.m);
    var working := s.(phase := Pr.Working);
    n := MovesSimulate(cfg, c.workers, st.jobs, c.provider, StartOf(st), StartOf(st), c.moves, working);
    RunOne(ConfigOf(cfg), s, Pr.StartWorkers);
    RunAppend(ConfigOf(cfg), s, [Pr.StartWorkers],
              MovesEvents(c.workers, st.jobs, c.provider, StartOf(st), c.moves));
  }

  /** With all jobs written or skipped the protocol has none left. */
  lemma DrainedMeansDone(jobs: seq<Job>, pool: Pool, s: Pr.System)
    requires PoolMatches(jobs, pool, s) && Drained(pool)
    ensures s.jobs == map[]
  {
    assert forall j | 0 <= j < |jobs| :: Done(pool.stages[j]) ==> !Unsettled(pool.stages[j]);
    assert s.jobs.Keys == {};
  }

  /** However far the cycle got, the protocol is where the ledger is. */
  lemma EndSimulates(cfg: Settings, m: Machine, c: Cycle, s: Pr.System) returns (n: Pr.System)
    requires CanRun(cfg, m, c) && Pr.Safe(s) && s.m == MachineAfter(cfg, m, c)
    requires var st := PreparedBy(cfg, m, c);
             if st.failed then s.phase == Pr.Idle
             else PoolMatches(st.jobs, RunSchedule(c.workers, st.jobs, c.provider, StartOf(st), c.moves), s)
    ensures Pr.RunEvents(ConfigOf(cfg), s, LastEvents(c, PreparedBy(cfg, m, c))) == Some(n)
    ensures n.phase == Pr.Idle && n.m == Left(cfg, m, c)
  {
    var st := PreparedBy(cfg, m, c);
    n := s;
    if c.crash {
      RunOne(ConfigOf(cfg), s, Pr.Crash);
      n := Pr.Step(ConfigOf(cfg), s, Pr.Crash).value;
    } else if !st.failed {
      DrainedMeansDone(st.jobs, RunSchedule(c.workers, st.jobs, c.provider, StartOf(st), c.moves), s);
      RunOne(ConfigOf(cfg), s, Pr.EndCycle);
      n := Pr.Step(ConfigOf(cfg), s, Pr.EndCycle).value;
    }
  }

  lemma BeginMatches(cfg: Settings, c: Cycle, s: Pr.System)
    requires s.phase == Pr.Idle && c.now != ZERO_TIME
    ensures Pr.RunEvents(ConfigOf(cfg), s, [Pr.BeginCycle(c.now)])
            == Some(Pr.System(s.m, Pr.Preparing, c.now, {}, map[]))
    ensures LoopMatches(c.now, c.results, Loop(c.results, s.m, [], false), 0,
                        Pr.System(s.m, Pr.Preparing, c.now, {}, map[]))
  {
    RunOne(ConfigOf(cfg), s, Pr.BeginCycle(c.now));
  }

  /** The prepare loop and the workers, after the cycle has begun. */
  lemma BodySimulates(cfg: Settings, c: Cycle, s: Pr.System) returns (n: Pr.System)
    requires CanRun(cfg, s.m, c) && Pr.Safe(s)
    requires LoopMatches(c.now, c.results, Loop(c.results, s.m, [], false), 0, s)
    ensures Pr.RunEvents(ConfigOf(cfg), s,
                         PrepareEvents(cfg, c.now, c.ctx, Loop(c.results, s.m, [], false), 0)
                         + (WorkEvents(c, PreparedBy(cfg, s.m, c)) + LastEvents(c, PreparedBy(cfg, s.m, c)))) == Some(n)
    ensures n.phase == Pr.Idle && n.m == Left(cfg, s.m, c)
  {
    var st := PreparedBy(cfg, s.m, c);
    var preparing := PrepareEvents(cfg, c.now, c.ctx, Loop(c.results, s.m, [], false), 0);
    var prepared := PrepareSimulates(cfg, c.now, c.ctx, c.results, Loop(c.results, s.m, [], false), 0, s);
    Pr.RunsStaySafe(ConfigOf(cfg), s, preparing);
    var worked := prepared;
    if !st.failed {
      worked := WorkSimulates(cfg, c, st, prepared);
    }
    Pr.RunsStaySafe(ConfigOf(cfg), prepared, WorkEvents(c, st));
    n := EndSimulates(cfg, s.m, c, worked);
    RunAppend(ConfigOf(cfg), prepared, WorkEvents(c, st), LastEvents(c, st));
    RunAppend(ConfigOf(cfg), s, preparing, WorkEvents(c, st) + LastEvents(c, st));
  }

  /**
   * One application, however it ends and wherever it is interrupted, is a run of the protocol from
   * the ledger's state to the state it leaves.
   */
  lemma CycleIsARun(cfg: Settings, c: Cycle, s: Pr.System) returns (n: Pr.System)
    requires s.phase == Pr.Idle && Pr.Safe(s) && CanRun(cfg, s.m, c)
    ensures Pr.RunEvents(ConfigOf(cfg), s, EventsOf(cfg, s.m, c)) == Some(n)
    ensures n.phase == Pr.Idle && Pr.Safe(n) && n.m == Left(cfg, s.m, c)
  {
    BeginMatches(cfg, c, s);
    var begun := Pr.System(s.m, Pr.Preparing, c.now, {}, map[]);
    Pr.RunsStaySafe(ConfigOf(cfg), s, [Pr.BeginCycle(c.now)]);
    n := BodySimulates(cfg, c, begun);
    RunAppend(ConfigOf(cfg), s, [Pr.BeginCycle(c.now)],
              PrepareEvents(cfg, c.now, c.ctx, Loop(c.results, s.m, [], false), 0)
              + (WorkEvents(c, PreparedBy(cfg, s.m, c)) + LastEvents(c, PreparedBy(cfg, s.m, c))));
    Pr.RunsStaySafe(ConfigOf(cfg), s, EventsOf(cfg, s.m, c));
  }

  // Many cycles.

  ghost predicate CanRunAll(cfg: Settings, m: Machine, cycles: seq<Cycle>)
    decreases |cycles|
  {
    cycles != [] ==> CanRun(cfg, m, cycles[0]) && CanRunAll(cfg, Left(cfg, m, cycles[0]), cycles[1..])
  }

  ghost function AllEvents(cfg: Settings, m: Machine, cycles: seq<Cycle>): seq<Pr.Event>
    requires CanRunAll(cfg, m, cycles)
    decreases |cycles|
  {
    if cycles == [] then []
    else EventsOf(cfg, m, cycles[0]) + AllEvents(cfg, Left(cfg, m, cycles[0]), cycles[1..])
  }

  ghost function LeftByAll(cfg: Settings, m: Machine, cycles: seq<Cycle>): Machine
    requires CanRunAll(cfg, m, cycles)
    decreases |cycles|
  {
    if cycles == [] then m else LeftByAll(cfg, Left(cfg, m, cycles[0]), cycles[1..])
  }

  lemma {:induction false} CyclesAreARun(cfg: Settings, cycles: seq<Cycle>, s: Pr.System) returns (n: Pr.System)
    requires s.phase == Pr.Idle && Pr.Safe(s) && CanRunAll(cfg, s.m, cycles)
    ensures Pr.RunEvents(ConfigOf(cfg), s, AllEvents(cfg, s.m, cycles)) == Some(n)
    ensures n.phase == Pr.Idle && Pr.Safe(n) && n.m == LeftByAll(cfg, s.m, cycles)
    decreases |cycles|
  {
    n := s;
    if cycles != [] {
      var next := CycleIsARun(cfg, cycles[0], s);
      n := CyclesAreARun(cfg, cycles[1..], next);
      RunAppend(ConfigOf(cfg), s, EventsOf(cfg, s.m, cycles[0]), AllEvents(cfg, next.m, cycles[1..]));
    }
  }
}
