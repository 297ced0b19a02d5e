/** Applying a plan in place: the prepare loop, one submission, and the workers (internal/app/service.go:271-429). */
module ServiceProgram {
  import opened Basics
  import P = PlannerModel
  import opened LedgerModel
  import opened LedgerProgram
  import opened ServiceModel
  import opened WorkerPool
  import opened ServiceReport
  import opened ServiceOutcome
  import Run = ServiceRun

  /** One pass of that loop. */
  method PrepareResult(cfg: Settings, now: int, ledger: Ledger, results: array<ApplyResult>, index: nat,
          listed: seq<Job>)
    returns (jobs: seq<Job>, failed: bool)
    requires ledger.Valid() && index < results.Length
    modifies ledger, ledger.store, results
    ensures ledger.Valid()
    ensures Loop(results[..], ledger.State(), jobs, failed)
            == PrepareOne(cfg, now, Loop(old(results[..]), old(ledger.State()), listed, false), index)
  {
    var result := results[index];
    jobs, failed := listed, false;
    if result.item.status != P.Rename {
      var serial := StateSerialNumber(result.item.id, result.item.serialNumber);
      var cleared, ok := ledger.Observe(ItemKey(result.item), serial, result.item.currentName);
      if !ok {
        results[index] := result.(error := SAVE_ERROR);
        failed := true;
      }
      return;
    }
    var answer := ledger.Prepare(RequestFor(cfg, now, result.item));
    if answer == BadRequest {
      results[index] := result.(error := REQUEST_ERROR);
      return listed, true;
    }
    if answer == SaveFailed {
      results[index] := result.(error := SAVE_ERROR);
      return listed, true;
    }
    var decision := answer.decision;
    results[index] := result.(attempts := decision.attempts, retryAt := decision.retryAt);
    match decision.disposition
    case DispositionFailed =>
      results[index] := results[index].(action := ActionFailed, error := decision.failure);
    case DispositionPending =>
      results[index] := results[index].(action := ActionPending);
    case DispositionSubmit =>
      jobs := jobs + [JobOf(index, result.item, decision.retryAt)];
    case DispositionObserved =>
      results[index] := results[index].(action := NoAction);
  }

  /** Observes or prepares each result in turn; the first error, or a cancelled context, ends the loop. */
  method PrepareRenames(cfg: Settings, now: int, ctx: Context, ledger: Ledger, results: array<ApplyResult>)
      returns (jobs: seq<Job>, failed: bool)
    requires ledger.Valid()
    modifies ledger, ledger.store, results
    ensures ledger.Valid()
    ensures Loop(results[..], ledger.State(), jobs, failed)
            == PrepareAll(cfg, now, ctx, old(results[..]), old(ledger.State()))
  {
    jobs, failed := [], false;
    var index := 0;
    while index < results.Length && !failed
      invariant 0 <= index <= results.Length && ledger.Valid()
      invariant PrepareFrom(cfg, now, ctx, Loop(results[..], ledger.State(), jobs, failed), index)
                == PrepareAll(cfg, now, ctx, old(results[..]), old(ledger.State()))
      decreases results.Length - index, !failed
    {
      if ctx(index) {
        return jobs, true;
      }
      jobs, failed := PrepareResult(cfg, now, ledger, results, index, jobs);
      index := index + 1;
    }
  }

  /** One provider call and the single mark that follows it. */
  method SubmitRename(ledger: Ledger, results: array<ApplyResult>, job: Job, reply: Reply)
    requires ledger.Valid() && job.index < results.Length
    modifies ledger, ledger.store, results
    ensures ledger.Valid()
    ensures var o := OutcomeOf(reply);
            var (m, saved) := LedgerModel.Mark(old(ledger.State()), job.key, job.serialNumber, job.desiredName, o);
            && ledger.State() == m
            && results[..] == old(results[..])[job.index := Report(old(results[job.index]), job, o, saved)]
  {
    var index := job.index;
    if reply == Renamed {
      var saved := ledger.Mark(job.key, job.serialNumber, job.desiredName, Accepted);
      results[index] := results[index].(action := ActionSubmitted);
      if !saved {
        results[index] := results[index].(error := "record submitted rename: " + SAVE_ERROR);
        return;
      }
      results[index] := results[index].(retryAt := ZERO_TIME);
      return;
    }
    results[index] := results[index].(error := reply.text, action := ActionPending);
    if reply.status.Some? && PermanentStatus(reply.status.value) {
      var saved := ledger.Mark(job.key, job.serialNumber, job.desiredName, Rejected(reply.text));
      if !saved {
        results[index] := results[index].(error := reply.text + "\n" + SAVE_ERROR);
        return;
      }
      results[index] := results[index].(action := ActionFailed, retryAt := ZERO_TIME);
      return;
    }
    var saved := ledger.Mark(job.key, job.serialNumber, job.desiredName, Transient(reply.text));
    if !saved {
      results[index] := results[index].(error := reply.text + "\n" + SAVE_ERROR);
    }
    results[index] := results[index].(retryAt := job.retryAt);
  }

  /** The moves of a worker that takes the next job and deals with it undisturbed. */
  function MovesFor(worker: nat, j: nat, cancelled: bool): seq<Move> {
    if cancelled then [Take(worker), Skip(j)] else [Take(worker), Call(j), MarkIt(j), Write(j)]
  }

  /** What those moves come to: nothing but a report, or one call, one mark and the report of both. */
  ghost function JobDone(jobs: seq<Job>, provider: Job -> Reply, pool: Pool, cancelled: bool): Pool
    requires pool.next < |jobs| == |pool.stages| == |pool.calls| && jobs[pool.next].index < |pool.results|
  {
    var j, t := pool.next, jobs[pool.next];
    var r, o := pool.results[t.index], OutcomeOf(provider(t));
    if cancelled then
      pool.(next := j + 1, stages := pool.stages[j := Skipped], results := pool.results[t.index := Skipping(r, t)])
    else
      var (m, saved) := LedgerModel.Mark(pool.m, t.key, t.serialNumber, t.desiredName, o);
      Pool(j + 1, pool.stages[j := Written(saved)], pool.calls[j := pool.calls[j] + 1],
           pool.results[t.index := Report(r, t, o, saved)], m)
  }

  lemma RunOne(workers: nat, jobs: seq<Job>, provider: Job -> Reply, pool: Pool, move: Move, rest: seq<Move>)
    requires Enabled(workers, jobs, pool, move)
    requires Schedule(workers, jobs, provider, Moved(workers, jobs, provider, pool, move), rest)
    ensures Schedule(workers, jobs, provider, pool, [move] + rest)
    ensures RunSchedule(workers, jobs, provider, pool, [move] + rest)
            == RunSchedule(workers, jobs, provider, Moved(workers, jobs, provider, pool, move), rest)
  {
    assert ([move] + rest)[1..] == rest;
  }

  /** A submission is the call, the mark and the report of one worker in sequence. */
  lemma SubmissionIsItsMoves(workers: nat, jobs: seq<Job>, provider: Job -> Reply, pool: Pool, worker: nat,
          cancelled: bool)
    requires pool.next < |jobs| == |pool.stages| == |pool.calls| && jobs[pool.next].index < |pool.results|
    requires worker < workers && !Busy(pool.stages, worker)
    ensures var moves := MovesFor(worker, pool.next, cancelled);
            && Schedule(workers, jobs, provider, pool, moves)
            && RunSchedule(workers, jobs, provider, pool, moves) == JobDone(jobs, provider, pool, cancelled)
  {
    var j := pool.next;
    var taken := Moved(workers, jobs, provider, pool, Take(worker));
    if cancelled {
      RunOne(workers, jobs, provider, taken, Skip(j), []);
      RunOne(workers, jobs, provider, pool, Take(worker), [Skip(j)]);
      assert MovesFor(worker, j, cancelled) == [Take(worker)] + [Skip(j)];
      assert taken.stages[j := Skipped] == pool.stages[j := Skipped];
    } else {
      var called := Moved(workers, jobs, provider, taken, Call(j));
      var marked := Moved(workers, jobs, provider, called, MarkIt(j));
      RunOne(workers, jobs, provider, marked, Write(j), []);
      RunOne(workers, jobs, provider, called, MarkIt(j), [Write(j)]);
      RunOne(workers, jobs, provider, taken, Call(j), [MarkIt(j), Write(j)]);
      RunOne(workers, jobs, provider, pool, Take(worker), [Call(j), MarkIt(j), Write(j)]);
      assert [MarkIt(j)] + [Write(j)] == [MarkIt(j), Write(j)];
      assert [Call(j)] + [MarkIt(j), Write(j)] == [Call(j), MarkIt(j), Write(j)];
      assert MovesFor(worker, j, cancelled) == [Take(worker)] + [Call(j), MarkIt(j), Write(j)];
      StagesSettle(pool.stages, j, taken.stages[j], called.stages[j], marked.stages[j],
                   Written(marked.stages[j].saved));
    }
  }

  lemma StagesSettle(stages: seq<Stage>, j: nat, a: Stage, b: Stage, c: Stage, d: Stage)
    requires j < |stages|
    ensures stages[j := a][j := b][j := c][j := d] == stages[j := d]
  {
  }

  // The workers.

  /** The pool these objects make up. */
  ghost function PoolOf(next: nat, stages: seq<Stage>, calls: seq<nat>, ledger: Ledger,
          results: array<ApplyResult>): Pool
    reads ledger, ledger.store, results
  {
    Pool(next, stages, calls, results[..], ledger.State())
  }

  /** A worker that holds job `j` takes the next step of its body. */
  method Advance(workers: nat, jobs: seq<Job>, provider: Job -> Reply, ctx: Context, ledger: Ledger,
          results: array<ApplyResult>, j: nat, next: nat, stages: seq<Stage>, calls: seq<nat>)
    returns (stage: Stage, called: nat, ghost move: Move)
    requires ledger.Valid() && |stages| == |jobs| == |calls| && j < |jobs| && jobs[j].index < results.Length
    requires stages[j].Taken? || stages[j].Replied? || stages[j].Marked?
    modifies ledger, ledger.store, results
    ensures ledger.Valid() && (move.Skip? ==> move.job == j && ctx(j))
    ensures Enabled(workers, jobs, old(PoolOf(next, stages, calls, ledger, results)), move)
    ensures PoolOf(next, stages[j := stage], calls[j := called], ledger, results)
            == Moved(workers, jobs, provider, old(PoolOf(next, stages, calls, ledger, results)), move)
  {
    var job := jobs[j];
    called := calls[j];
    match stages[j]
    case Taken(w) =>
      if ctx(j) {
        move := Skip(j);
        results[job.index] := results[job.index].(action := ActionPending, error := CANCELLED, retryAt := job.retryAt);
        stage := Skipped;
        assert calls[j := called] == calls;
      } else {
        move := Call(j);
        stage, called := Replied(w, provider(job)), called + 1;
      }
    case Replied(w, reply) =>
      move := MarkIt(j);
      var saved := ledger.Mark(job.key, job.serialNumber, job.desiredName, OutcomeOf(reply));
      stage := Marked(w, reply, saved);
    case Marked(w, reply, saved) =>
      move := Write(j);
      results[job.index] := Report(results[job.index], job, OutcomeOf(reply), saved);
      stage := Written(saved);
  }

  ghost predicate InOrder(jobs: seq<Job>, next: nat, stages: seq<Stage>, calls: seq<nat>, room: nat) {
    && |stages| == |jobs| == |calls|
    && (forall j | 0 <= j < |jobs| :: jobs[j].index < room)
    && (forall j | 0 <= j < |jobs| :: stages[j] == Queued <==> next <= j)
  }

  lemma ConsistentInOrder(jobs: seq<Job>, provider: Job -> Reply, start: Pool, pool: Pool)
    requires Consistent(jobs, provider, start, pool)
    ensures InOrder(jobs, pool.next, pool.stages, pool.calls, |pool.results|)
  {
    forall j: nat | j < |jobs| ensures pool.stages[j] == Queued <==> pool.next <= j {
      assert OnTrack(jobs, provider, start, pool, j);
    }
  }

  /** Some worker, whichever it is, takes the next job or takes the next step of the one it holds. */
  method Turn(workers: nat, jobs: seq<Job>, provider: Job -> Reply, ctx: Context, ledger: Ledger,
          results: array<ApplyResult>, next: nat, stages: seq<Stage>, calls: seq<nat>)
    returns (later: nat, moved: seq<Stage>, counted: seq<nat>, ghost move: Move)
    requires workers > 0 && ledger.Valid() && InOrder(jobs, next, stages, calls, results.Length)
    requires exists j :: 0 <= j < |stages| && !Done(stages[j])
    modifies ledger, ledger.store, results
    ensures ledger.Valid() && (move.Skip? ==> ctx(move.job))
    ensures Enabled(workers, jobs, old(PoolOf(next, stages, calls, ledger, results)), move)
    ensures PoolOf(later, moved, counted, ledger, results)
            == Moved(workers, jobs, provider, old(PoolOf(next, stages, calls, ledger, results)), move)
  {
    var j: nat :| j < |stages| && !Done(stages[j]);
    var worker: nat := 0;
    if stages[j] == Queued {
      worker :| worker < workers;
      if Busy(stages, worker) {
        j :| j < |stages| && Holds(stages[j], worker);
      }
    }
    if stages[j] == Queued {
      move := Take(worker);
      return next + 1, stages[next := Taken(worker)], calls, move;
    }
    var stage: Stage, called: nat;
    stage, called, move := Advance(workers, jobs, provider, ctx, ledger, results, j, next, stages, calls);
    return next, stages[j := stage], calls[j := called], move;
  }

  /** Every job's entry and result are what its reply makes of them; nothing else has changed. */
  ghost predicate Finished(jobs: seq<Job>, provider: Job -> Reply, start: Pool, pool: Pool) {
    Consistent(jobs, provider, start, pool) && Drained(pool)
  }

  ghost predicate NeverCancelled(ctx: Context) {
    forall k :: !ctx(k)
  }

  /** The moves lead from `start` to `pool`, and skip only jobs whose turn finds the context cancelled. */
  ghost predicate LeadsTo(workers: nat, jobs: seq<Job>, provider: Job -> Reply, ctx: Context, start: Pool,
          moves: seq<Move>, pool: Pool) {
    && Schedule(workers, jobs, provider, start, moves)
    && RunSchedule(workers, jobs, provider, start, moves) == pool
    && forall i | 0 <= i < |moves| && moves[i].Skip? :: ctx(moves[i].job)
  }

  /** Drains the channel: as long as a job is unfinished, some worker moves. */
  method RunWorkers(workers: nat, jobs: seq<Job>, provider: Job -> Reply, ctx: Context, ledger: Ledger,
          results: array<ApplyResult>)
    returns (ghost moves: seq<Move>, ghost pool: Pool)
    requires workers > 0 && ledger.Valid() && Disjoint(jobs, results[..], ledger.State())
    modifies ledger, ledger.store, results
    ensures ledger.Valid()
    ensures LeadsTo(workers, jobs, provider, ctx, old(Start(jobs, results[..], ledger.State())), moves, pool)
    ensures Finished(jobs, provider, old(Start(jobs, results[..], ledger.State())), pool)
    ensures results[..] == pool.results && ledger.State() == pool.m
  {
    ghost var start := Start(jobs, results[..], ledger.State());
    StartIsConsistent(jobs, provider, results[..], ledger.State());
    var next: nat, stages: seq<Stage>, calls: seq<nat> := 0, seq(|jobs|, _ => Queued), seq(|jobs|, _ => 0);
    moves, pool := [], start;
    while exists j :: 0 <= j < |stages| && !Done(stages[j])
      invariant ledger.Valid() && pool == PoolOf(next, stages, calls, ledger, results)
      invariant Consistent(jobs, provider, start, pool)
      invariant LeadsTo(workers, jobs, provider, ctx, start, moves, pool)
      decreases Remaining(stages)
    {
      ConsistentInOrder(jobs, provider, start, pool);
      ghost var move: Move;
      next, stages, calls, move := Turn(workers, jobs, provider, ctx, ledger, results, next, stages, calls);
      MovesShrink(workers, jobs, provider, start, pool, move);
      LeadsFurther(workers, jobs, provider, ctx, start, moves, pool, move);
      moves, pool := moves + [move], Moved(workers, jobs, provider, pool, move);
    }
  }

  lemma LeadsFurther(workers: nat, jobs: seq<Job>, provider: Job -> Reply, ctx: Context, start: Pool,
          moves: seq<Move>, pool: Pool, move: Move)
    requires LeadsTo(workers, jobs, provider, ctx, start, moves, pool) && Enabled(workers, jobs, pool, move)
    requires move.Skip? ==> ctx(move.job)
    ensures LeadsTo(workers, jobs, provider, ctx, start, moves + [move], Moved(workers, jobs, provider, pool, move))
  {
    OneMoreMove(workers, jobs, provider, start, moves, move);
  }

  /** The body of a worker's loop. */
  method TakeJob(jobs: seq<Job>, provider: Job -> Reply, ctx: Context, ledger: Ledger, results: array<ApplyResult>,
          j: nat, ghost pool: Pool)
    returns (ghost after: Pool)
    requires ledger.Valid() && pool.results == results[..] && pool.m == ledger.State()
    requires pool.next == j < |jobs| == |pool.stages| == |pool.calls| && jobs[j].index < |pool.results|
    modifies ledger, ledger.store, results
    ensures ledger.Valid() && after == JobDone(jobs, provider, pool, ctx(j))
    ensures after.results == results[..] && after.m == ledger.State()
  {
    after := JobDone(jobs, provider, pool, ctx(j));
    var job := jobs[j];
    if ctx(j) {
      results[job.index] := results[job.index].(action := ActionPending, error := CANCELLED, retryAt := job.retryAt);
    } else {
      SubmitRename(ledger, results, job, provider(job));
    }
  }

  /** One worker alone drains the channel with whole submissions; its outcome is that of the pool. */
  method WorkAlone(jobs: seq<Job>, provider: Job -> Reply, ctx: Context, ledger: Ledger, results: array<ApplyResult>)
    returns (ghost pool: Pool)
    requires ledger.Valid() && Disjoint(jobs, results[..], ledger.State())
    modifies ledger, ledger.store, results
    ensures ledger.Valid()
    ensures Finished(jobs, provider, old(Start(jobs, results[..], ledger.State())), pool)
    ensures results[..] == pool.results && ledger.State() == pool.m
  {
    ghost var start := Start(jobs, results[..], ledger.State());
    StartIsConsistent(jobs, provider, results[..], ledger.State());
    pool := start;
    for j := 0 to |jobs|
      invariant ledger.Valid() && pool.results == results[..] && pool.m == ledger.State()
      invariant Consistent(jobs, provider, start, pool) && pool.next == j
      invariant forall i | 0 <= i < j :: Done(pool.stages[i])
    {
      OnlyQueuedLeft(jobs, provider, start, pool);
      SubmissionIsItsMoves(1, jobs, provider, pool, 0, ctx(j));
      SchedulesStayConsistent(1, jobs, provider, start, pool, MovesFor(0, j, ctx(j)));
      pool := TakeJob(jobs, provider, ctx, ledger, results, j, pool);
    }
  }

  lemma OnlyQueuedLeft(jobs: seq<Job>, provider: Job -> Reply, start: Pool, pool: Pool)
    requires Consistent(jobs, provider, start, pool) && pool.next < |jobs|
    requires forall i | 0 <= i < pool.next :: Done(pool.stages[i])
    ensures !Busy(pool.stages, 0) && jobs[pool.next].index < |pool.results|
  {
    forall i | 0 <= i < |pool.stages| ensures !Holds(pool.stages[i], 0) {
      assert OnTrack(jobs, provider, start, pool, i);
    }
    assert OnTrack(jobs, provider, start, pool, pool.next);
  }

  lemma MovesShrink(workers: nat, jobs: seq<Job>, provider: Job -> Reply, start: Pool, pool: Pool, move: Move)
    requires Consistent(jobs, provider, start, pool) && Enabled(workers, jobs, pool, move)
    ensures Consistent(jobs, provider, start, Moved(workers, jobs, provider, pool, move))
    ensures Remaining(Moved(workers, jobs, provider, pool, move).stages) < Remaining(pool.stages)
  {
    MovesStayConsistent(workers, jobs, provider, start, pool, move);
    if move.Take? {
      NextIsQueued(jobs, provider, start, pool);
    }
    MoveDrops(workers, jobs, provider, pool, move);
  }

  method JoinErrors(results: array<ApplyResult>) returns (joined: seq<(Key, string)>)
    ensures ListsErrors(results[..], joined) && (joined == [] <==> NoErrors(results[..]))
  {
    ghost var all := results[..];
    joined := [];
    var index := 0;
    while index < results.Length
      invariant 0 <= index <= results.Length
      invariant joined + JoinedFrom(all, index) == JoinedFrom(all, 0)
    {
      assert results[index] == all[index];
      if results[index].error != "" {
        joined := joined + [(ItemKey(results[index].item), results[index].error)];
      }
      index := index + 1;
    }
    JoinedExactly(all);
  }

  /** Over a store whose saves succeed, and unless cancelled, the prepare loop runs to its end. */
  lemma {:induction false} PrepareSucceeds(cfg: Settings, now: int, ctx: Context, start: seq<ApplyResult>, st: Loop,
          k: nat)
    requires LoopTells(cfg, start, st, k) && now > ZERO_TIME && !st.failed && st.m.script == [] && NeverCancelled(ctx)
    requires DistinctItems(start) && Unapplied(start) && Requestable(cfg, now, start)
    ensures !PrepareFrom(cfg, now, ctx, st, k).failed && PrepareFrom(cfg, now, ctx, st, k).m.script == []
    decreases |start| - k
  {
    if k < |start| {
      if start[k].item.status == P.Rename {
        PrepareStepTells(cfg, now, start, st, k);
        PrepareSaves(st.m, RequestFor(cfg, now, start[k].item));
      } else {
        ObserveStepTells(cfg, now, start, st, k);
      }
      PrepareSucceeds(cfg, now, ctx, start, PrepareOne(cfg, now, st, k), k + 1);
    }
  }

  lemma PrepareSaves(m: Machine, r: Request)
    requires m.script == [] && ValidRequest(r)
    ensures LedgerModel.Prepare(m, r).1.Decided? && LedgerModel.Prepare(m, r).0.script == []
  {
  }

  /**
   * Every rename has left its planned state and is accounted for; over sound saves it tells what the
   * ledger holds. Every other device has been observed, and no intent that came true is left for it.
   */
  ghost predicate Reported(cfg: Settings, start: seq<ApplyResult>, results: seq<ApplyResult>, intents: map<Key, Intent>,
          sound: bool) {
    && |results| == |start|
    && (forall i | 0 <= i < |start| && start[i].item.status != P.Rename ::
          results[i] == start[i] && Cleared(start[i].item, intents))
    && forall i | 0 <= i < |start| && start[i].item.status == P.Rename ::
         && results[i].item == start[i].item
         && Accounted(cfg, results[i], intents)
         && (sound ==> Told(cfg, results[i], intents))
  }

  /**
   * A whole cycle after planning. If the prepare loop fails, at `stop`, no worker starts and its
   * results stand; otherwise every rename is reported. `before` and `during` are the context as the
   * loop and the workers see it.
   */
  method Apply(cfg: Settings, now: int, before: Context, during: Context, workers: nat, provider: Job -> Reply,
          ledger: Ledger, results: array<ApplyResult>)
    returns (failed: bool, joined: seq<(Key, string)>, ghost prepared: Loop, ghost stop: nat, ghost moves: seq<Move>)
    requires workers > 0 && ledger.Valid() && Clocked(cfg, ledger.State()) && now > ZERO_TIME
    requires DistinctItems(results[..]) && Unapplied(results[..]) && Requestable(cfg, now, results[..])
    modifies ledger, ledger.store, results
    ensures ledger.Valid() && failed == prepared.failed
    ensures prepared == PrepareAll(cfg, now, before, old(results[..]), old(ledger.State()))
    ensures LoopTells(cfg, old(results[..]), prepared, stop)
    ensures if failed then StopsAt(before, old(results[..]), prepared, stop) else stop == results.Length
    ensures failed ==> results[..] == prepared.results && ledger.State() == prepared.m && joined == []
    ensures !failed ==>
              && ListsErrors(results[..], joined) && (joined == [] <==> NoErrors(results[..]))
              && Reported(cfg, old(results[..]), results[..], ledger.intents,
                          old(ledger.State()).script == [] && NeverCancelled(before) && NeverCancelled(during))
    ensures !failed ==>
              && Schedule(workers, prepared.jobs, provider, Start(prepared.jobs, prepared.results, prepared.m), moves)
              && var pool := RunSchedule(workers, prepared.jobs, provider,
                                         Start(prepared.jobs, prepared.results, prepared.m), moves);
                 Drained(pool) && results[..] == pool.results && ledger.State() == pool.m
    ensures var c := Run.Cycle(now, before, old(results[..]), workers, provider, moves, false);
            Run.CanRun(cfg, old(ledger.State()), c) && ledger.State() == Run.Left(cfg, old(ledger.State()), c)
    ensures old(ledger.State()).script == [] && NeverCancelled(before) ==> !failed
  {
    ghost var first, m := results[..], ledger.State();
    ghost var sound := m.script == [] && NeverCancelled(before);
    stop := PrepareAllIsDisjoint(cfg, now, before, first, m);
    if sound {
      PrepareSucceeds(cfg, now, before, first, Loop(first, m, [], false), 0);
    }
    var jobs;
    jobs, failed := PrepareRenames(cfg, now, before, ledger, results);
    prepared := PrepareAll(cfg, now, before, first, m);
    if failed {
      return failed, [], prepared, stop, [];
    }
    ghost var start := Start(jobs, results[..], ledger.State());
    ghost var pool: Pool;
    moves, pool := RunWorkers(workers, jobs, provider, during, ledger, results);
    if sound && NeverCancelled(during) {
      assert Uncancelled(moves);
      SchedulesStayClean(workers, jobs, provider, start, moves);
    }
    PoolReports(cfg, first, prepared, provider, pool);
    joined := JoinErrors(results);
  }

  lemma PoolReports(cfg: Settings, start: seq<ApplyResult>, st: Loop, provider: Job -> Reply, pool: Pool)
    requires LoopTells(cfg, start, st, |start|) && Disjoint(st.jobs, st.results, st.m)
    requires DistinctItems(start) && Unapplied(start)
    requires Finished(st.jobs, provider, Start(st.jobs, st.results, st.m), pool)
    ensures Reported(cfg, start, pool.results, pool.m.intents, Clean(pool))
  {
    assert |pool.results| == |start|;
    forall i: nat | i < |start| && start[i].item.status == P.Rename
      ensures pool.results[i].item == start[i].item && Accounted(cfg, pool.results[i], pool.m.intents)
      ensures Clean(pool) ==> Told(cfg, pool.results[i], pool.m.intents)
    {
      PoolTells(cfg, start, st, provider, pool, i);
    }
    forall i: nat | i < |start| && start[i].item.status != P.Rename
      ensures pool.results[i] == start[i] && Cleared(start[i].item, pool.m.intents)
    {
      ObservedStays(cfg, start, st, provider, pool, i);
    }
  }
}
