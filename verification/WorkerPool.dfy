/** The worker pool: any number of workers, any interleaving (internal/app/service.go:346-429). */
module WorkerPool {
  import opened LedgerModel
  import opened ServiceModel

  /** Where a job is: in the channel, with a worker at some point of its body, or finished. */
  datatype Stage =
    | Queued
    | Taken(worker: nat)
    | Replied(worker: nat, reply: Reply)
    | Marked(worker: nat, reply: Reply, saved: bool)
    | Written(saved: bool)
    | Skipped

  /** Jobs before `next` have left the channel; `calls` counts provider calls. */
  datatype Pool = Pool(next: nat, stages: seq<Stage>, calls: seq<nat>, results: seq<ApplyResult>, m: Machine)

  /** A worker skips the job it has taken if it finds the context cancelled. */
  datatype Move = Take(worker: nat) | Skip(job: nat) | Call(job: nat) | MarkIt(job: nat) | Write(job: nat)

  /** The worker is somewhere in the body of its loop with this job. */
  predicate Holds(s: Stage, worker: nat) {
    (s.Taken? || s.Replied? || s.Marked?) && s.worker == worker
  }

  predicate Done(s: Stage) {
    s.Written? || s.Skipped?
  }

  predicate Busy(stages: seq<Stage>, worker: nat) {
    exists j | 0 <= j < |stages| :: Holds(stages[j], worker)
  }

  ghost predicate Enabled(workers: nat, jobs: seq<Job>, pool: Pool, move: Move) {
    && |pool.stages| == |jobs| == |pool.calls|
    && match move
       case Take(w) => w < workers && !Busy(pool.stages, w) && pool.next < |jobs|
       case Skip(j) => j < |jobs| && pool.stages[j].Taken? && jobs[j].index < |pool.results|
       case Call(j) => j < |jobs| && pool.stages[j].Taken?
       case MarkIt(j) => j < |jobs| && pool.stages[j].Replied?
       case Write(j) => j < |jobs| && pool.stages[j].Marked? && jobs[j].index < |pool.results|
  }

  ghost function Moved(workers: nat, jobs: seq<Job>, provider: Job -> Reply, pool: Pool, move: Move): Pool
    requires Enabled(workers, jobs, pool, move)
  {
    match move
    case Take(w) => pool.(next := pool.next + 1, stages := pool.stages[pool.next := Taken(w)])
    case Skip(j) =>
      var t := jobs[j];
      pool.(stages := pool.stages[j := Skipped], results := pool.results[t.index := Skipping(pool.results[t.index], t)])
    case Call(j) =>
      pool.(stages := pool.stages[j := Replied(pool.stages[j].worker, provider(jobs[j]))],
            calls := pool.calls[j := pool.calls[j] + 1])
    case MarkIt(j) =>
      var t, s := jobs[j], pool.stages[j];
      var (m, ok) := Mark(pool.m, t.key, t.serialNumber, t.desiredName, OutcomeOf(s.reply));
      pool.(stages := pool.stages[j := Marked(s.worker, s.reply, ok)], m := m)
    case Write(j) =>
      var t, s := jobs[j], pool.stages[j];
      pool.(stages := pool.stages[j := Written(s.saved)],
            results := pool.results[t.index := Report(pool.results[t.index], t, OutcomeOf(s.reply), s.saved)])
  }

  ghost function Start(jobs: seq<Job>, results: seq<ApplyResult>, m: Machine): Pool {
    Pool(0, seq(|jobs|, _ => Queued), seq(|jobs|, _ => 0), results, m)
  }

  /** Distinct results and ledger entries, each entry waiting for exactly this submission. */
  ghost predicate Disjoint(jobs: seq<Job>, results: seq<ApplyResult>, m: Machine) {
    && (forall i, j | 0 <= i < j < |jobs| :: jobs[i].index != jobs[j].index && jobs[i].key != jobs[j].key)
    && (forall i | 0 <= i < |jobs| :: jobs[i].index < |results|
          && Current(m.intents, jobs[i].key, jobs[i].serialNumber, jobs[i].desiredName))
  }

  /** What job `j` makes of its ledger entry and of its result. */
  function EntryAfter(jobs: seq<Job>, provider: Job -> Reply, m: Machine, j: nat): Intent
    requires j < |jobs| && jobs[j].key in m.intents
  {
    MarkedIntent(m.intents[jobs[j].key], OutcomeOf(provider(jobs[j])))
  }

  function ResultAfter(jobs: seq<Job>, provider: Job -> Reply, results: seq<ApplyResult>, s: Stage, j: nat):
      ApplyResult
    requires j < |jobs| && jobs[j].index < |results|
  {
    var t, r := jobs[j], results[jobs[j].index];
    match s
    case Written(saved) => Report(r, t, OutcomeOf(provider(t)), saved)
    case Skipped => Skipping(r, t)
    case _ => r
  }

  predicate Called(s: Stage) {
    s.Replied? || s.Marked? || s.Written?
  }

  /** The outcome of the call has been saved. */
  predicate Recorded(s: Stage) {
    (s.Marked? || s.Written?) && s.saved
  }

  /** Job `j` alone: its stage tells what its entry, its result and its call count are. */
  ghost predicate OnTrack(jobs: seq<Job>, provider: Job -> Reply, start: Pool, pool: Pool, j: nat)
    requires Disjoint(jobs, start.results, start.m) && j < |jobs| == |pool.stages| == |pool.calls|
  {
    var t, s := jobs[j], pool.stages[j];
    && (s.Queued? <==> pool.next <= j)
    && (s.Replied? || s.Marked? ==> s.reply == provider(t))
    && pool.calls[j] == (if Called(s) then 1 else 0)
    && t.key in pool.m.intents
    && pool.m.intents[t.key] == (if Recorded(s) then EntryAfter(jobs, provider, start.m, j) else start.m.intents[t.key])
    && t.index < |pool.results|
    && pool.results[t.index] == ResultAfter(jobs, provider, start.results, s, j)
  }

  /** The results and entries no job is about. */
  ghost predicate Bystanders(jobs: seq<Job>, start: Pool, pool: Pool) {
    && |pool.results| == |start.results| && pool.m.intents.Keys == start.m.intents.Keys
    && (forall i | 0 <= i < |pool.results| && (forall j | 0 <= j < |jobs| :: jobs[j].index != i) ::
          pool.results[i] == start.results[i])
    && (forall k | k in pool.m.intents && (forall j | 0 <= j < |jobs| :: jobs[j].key != k) ::
          pool.m.intents[k] == start.m.intents[k])
  }

  ghost predicate Consistent(jobs: seq<Job>, provider: Job -> Reply, start: Pool, pool: Pool) {
    && Disjoint(jobs, start.results, start.m)
    && |pool.stages| == |jobs| == |pool.calls| && pool.next <= |jobs|
    && (forall j: nat | j < |jobs| :: OnTrack(jobs, provider, start, pool, j))
    && Bystanders(jobs, start, pool)
  }

  lemma MarkTakesEffect(m: Machine, t: Job, o: Outcome)
    requires Current(m.intents, t.key, t.serialNumber, t.desiredName)
    ensures var (n, saved) := Mark(m, t.key, t.serialNumber, t.desiredName, o);
            && n.intents == (if saved then m.intents[t.key := MarkedIntent(m.intents[t.key], o)] else m.intents)
            && n.script == RestOf(m.script) && (saved <==> NextSave(m.script) == Saved)
  {
  }

  lemma MarkMoves(workers: nat, jobs: seq<Job>, provider: Job -> Reply, start: Pool, pool: Pool, j: nat)
    requires Consistent(jobs, provider, start, pool) && Enabled(workers, jobs, pool, MarkIt(j))
    ensures Consistent(jobs, provider, start, Moved(workers, jobs, provider, pool, MarkIt(j)))
  {
    var n := Moved(workers, jobs, provider, pool, MarkIt(j));
    assert OnTrack(jobs, provider, start, pool, j);
    MarkTakesEffect(pool.m, jobs[j], OutcomeOf(pool.stages[j].reply));
    forall i: nat | i < |jobs| ensures OnTrack(jobs, provider, start, n, i) {
      assert OnTrack(jobs, provider, start, pool, i);
      assert i != j ==> jobs[i].key != jobs[j].key;
    }
  }

  lemma WriteMoves(workers: nat, jobs: seq<Job>, provider: Job -> Reply, start: Pool, pool: Pool, j: nat)
    requires Consistent(jobs, provider, start, pool) && Enabled(workers, jobs, pool, Write(j))
    ensures Consistent(jobs, provider, start, Moved(workers, jobs, provider, pool, Write(j)))
  {
    var n := Moved(workers, jobs, provider, pool, Write(j));
    assert OnTrack(jobs, provider, start, pool, j);
    forall i: nat | i < |jobs| ensures OnTrack(jobs, provider, start, n, i) {
      assert OnTrack(jobs, provider, start, pool, i);
      assert i != j ==> jobs[i].index != jobs[j].index;
    }
  }

  lemma SkipMoves(workers: nat, jobs: seq<Job>, provider: Job -> Reply, start: Pool, pool: Pool, j: nat)
    requires Consistent(jobs, provider, start, pool) && Enabled(workers, jobs, pool, Skip(j))
    ensures Consistent(jobs, provider, start, Moved(workers, jobs, provider, pool, Skip(j)))
  {
    var n := Moved(workers, jobs, provider, pool, Skip(j));
    assert OnTrack(jobs, provider, start, pool, j);
    forall i: nat | i < |jobs| ensures OnTrack(jobs, provider, start, n, i) {
      assert OnTrack(jobs, provider, start, pool, i);
      assert i != j ==> jobs[i].index != jobs[j].index;
    }
  }

  lemma CallMoves(workers: nat, jobs: seq<Job>, provider: Job -> Reply, start: Pool, pool: Pool, j: nat)
    requires Consistent(jobs, provider, start, pool) && Enabled(workers, jobs, pool, Call(j))
    ensures Consistent(jobs, provider, start, Moved(workers, jobs, provider, pool, Call(j)))
  {
    var n := Moved(workers, jobs, provider, pool, Call(j));
    forall i: nat | i < |jobs| ensures OnTrack(jobs, provider, start, n, i) {
      assert OnTrack(jobs, provider, start, pool, i);
    }
  }

  lemma TakeMoves(workers: nat, jobs: seq<Job>, provider: Job -> Reply, start: Pool, pool: Pool, w: nat)
    requires Consistent(jobs, provider, start, pool) && Enabled(workers, jobs, pool, Take(w))
    ensures Consistent(jobs, provider, start, Moved(workers, jobs, provider, pool, Take(w)))
  {
    var n := Moved(workers, jobs, provider, pool, Take(w));
    forall i: nat | i < |jobs| ensures OnTrack(jobs, provider, start, n, i) {
      assert OnTrack(jobs, provider, start, pool, i);
    }
  }

  lemma MovesStayConsistent(workers: nat, jobs: seq<Job>, provider: Job -> Reply, start: Pool, pool: Pool,
          move: Move)
    requires Consistent(jobs, provider, start, pool) && Enabled(workers, jobs, pool, move)
    ensures Consistent(jobs, provider, start, Moved(workers, jobs, provider, pool, move))
  {
    match move
    case Take(w) => TakeMoves(workers, jobs, provider, start, pool, w);
    case Skip(j) => SkipMoves(workers, jobs, provider, start, pool, j);
    case Call(j) => CallMoves(workers, jobs, provider, start, pool, j);
    case MarkIt(j) => MarkMoves(workers, jobs, provider, start, pool, j);
    case Write(j) => WriteMoves(workers, jobs, provider, start, pool, j);
  }

  /** A schedule picks one enabled move after another. */
  ghost predicate Schedule(workers: nat, jobs: seq<Job>, provider: Job -> Reply, pool: Pool, moves: seq<Move>)
    decreases |moves|
  {
    moves == []
    || (Enabled(workers, jobs, pool, moves[0])
        && Schedule(workers, jobs, provider, Moved(workers, jobs, provider, pool, moves[0]), moves[1..]))
  }

  ghost function RunSchedule(workers: nat, jobs: seq<Job>, provider: Job -> Reply, pool: Pool,
          moves: seq<Move>): Pool
    requires Schedule(workers, jobs, provider, pool, moves)
    decreases |moves|
  {
    if moves == [] then pool
    else RunSchedule(workers, jobs, provider, Moved(workers, jobs, provider, pool, moves[0]), moves[1..])
  }

  lemma {:induction false} OneMoreMove(workers: nat, jobs: seq<Job>, provider: Job -> Reply, pool: Pool,
          moves: seq<Move>, move: Move)
    requires Schedule(workers, jobs, provider, pool, moves)
    requires Enabled(workers, jobs, RunSchedule(workers, jobs, provider, pool, moves), move)
    ensures Schedule(workers, jobs, provider, pool, moves + [move])
    ensures RunSchedule(workers, jobs, provider, pool, moves + [move])
            == Moved(workers, jobs, provider, RunSchedule(workers, jobs, provider, pool, moves), move)
    decreases |moves|
  {
    if moves == [] {
      assert [] + [move] == [move] && [move][1..] == [];
    } else {
      OneMoreMove(workers, jobs, provider, Moved(workers, jobs, provider, pool, moves[0]), moves[1..], move);
      assert (moves + [move])[1..] == moves[1..] + [move];
    }
  }

  ghost predicate Drained(pool: Pool) {
    forall j | 0 <= j < |pool.stages| :: Done(pool.stages[j])
  }

  lemma {:induction false} SchedulesStayConsistent(workers: nat, jobs: seq<Job>, provider: Job -> Reply,
          start: Pool, pool: Pool, moves: seq<Move>)
    requires Consistent(jobs, provider, start, pool) && Schedule(workers, jobs, provider, pool, moves)
    ensures Consistent(jobs, provider, start, RunSchedule(workers, jobs, provider, pool, moves))
    decreases |moves|
  {
    if moves != [] {
      MovesStayConsistent(workers, jobs, provider, start, pool, moves[0]);
      var n := Moved(workers, jobs, provider, pool, moves[0]);
      SchedulesStayConsistent(workers, jobs, provider, start, n, moves[1..]);
    }
  }

  lemma StartIsConsistent(jobs: seq<Job>, provider: Job -> Reply, results: seq<ApplyResult>, m: Machine)
    requires Disjoint(jobs, results, m)
    ensures Consistent(jobs, provider, Start(jobs, results, m), Start(jobs, results, m))
  {
  }

  lemma JobAgrees(jobs: seq<Job>, provider: Job -> Reply, start: Pool, a: Pool, b: Pool, j: nat)
    requires Disjoint(jobs, start.results, start.m)
    requires j < |jobs| == |a.stages| == |a.calls| && a.stages == b.stages && |b.calls| == |jobs|
    requires OnTrack(jobs, provider, start, a, j) && OnTrack(jobs, provider, start, b, j) && Done(a.stages[j])
    ensures a.calls[j] == b.calls[j] == if a.stages[j].Skipped? then 0 else 1
    ensures a.results[jobs[j].index] == b.results[jobs[j].index]
    ensures a.m.intents[jobs[j].key] == b.m.intents[jobs[j].key]
  {
  }

  lemma ResultsAgree(jobs: seq<Job>, start: Pool, a: Pool, b: Pool)
    requires Bystanders(jobs, start, a) && Bystanders(jobs, start, b)
    requires forall j | 0 <= j < |jobs| ::
               jobs[j].index < |start.results| && a.results[jobs[j].index] == b.results[jobs[j].index]
    ensures a.results == b.results
  {
    forall i | 0 <= i < |a.results| ensures a.results[i] == b.results[i] {
      if forall j | 0 <= j < |jobs| :: jobs[j].index != i {
        assert a.results[i] == start.results[i] == b.results[i];
      }
    }
  }

  lemma EntriesAgree(jobs: seq<Job>, start: Pool, a: Pool, b: Pool)
    requires Bystanders(jobs, start, a) && Bystanders(jobs, start, b)
    requires forall j | 0 <= j < |jobs| ::
               jobs[j].key in start.m.intents && a.m.intents[jobs[j].key] == b.m.intents[jobs[j].key]
    ensures a.m.intents == b.m.intents
  {
    forall k | k in a.m.intents ensures a.m.intents[k] == b.m.intents[k] {
      if forall j | 0 <= j < |jobs| :: jobs[j].key != k {
        assert a.m.intents[k] == start.m.intents[k] == b.m.intents[k];
      }
    }
  }

  /** Two drained pools whose jobs met the same fates agree on every result and every ledger entry. */
  lemma DrainedAgree(jobs: seq<Job>, provider: Job -> Reply, start: Pool, a: Pool, b: Pool)
    requires Consistent(jobs, provider, start, a) && Consistent(jobs, provider, start, b)
    requires Drained(a) && a.stages == b.stages
    ensures a.results == b.results && a.m.intents == b.m.intents && a.calls == b.calls
    ensures forall j | 0 <= j < |jobs| :: a.calls[j] == if a.stages[j].Skipped? then 0 else 1
  {
    forall j: nat | j < |jobs|
      ensures a.calls[j] == b.calls[j] == if a.stages[j].Skipped? then 0 else 1
      ensures jobs[j].index < |start.results| && a.results[jobs[j].index] == b.results[jobs[j].index]
      ensures jobs[j].key in start.m.intents && a.m.intents[jobs[j].key] == b.m.intents[jobs[j].key]
    {
      assert OnTrack(jobs, provider, start, a, j) && OnTrack(jobs, provider, start, b, j);
      JobAgrees(jobs, provider, start, a, b, j);
    }
    ResultsAgree(jobs, start, a, b);
    EntriesAgree(jobs, start, a, b);
  }

  /**
   * Whatever the number of workers and however they interleave, the results, the joined error, the
   * ledger map and the provider calls depend only on which jobs were skipped and which marks saved.
   */
  lemma FatesDecide(w1: nat, w2: nat, jobs: seq<Job>, provider: Job -> Reply, results: seq<ApplyResult>, m: Machine,
          first: seq<Move>, second: seq<Move>)
    requires Disjoint(jobs, results, m)
    requires Schedule(w1, jobs, provider, Start(jobs, results, m), first)
    requires Schedule(w2, jobs, provider, Start(jobs, results, m), second)
    requires Drained(RunSchedule(w1, jobs, provider, Start(jobs, results, m), first))
    requires RunSchedule(w1, jobs, provider, Start(jobs, results, m), first).stages
             == RunSchedule(w2, jobs, provider, Start(jobs, results, m), second).stages
    ensures var a := RunSchedule(w1, jobs, provider, Start(jobs, results, m), first);
            var b := RunSchedule(w2, jobs, provider, Start(jobs, results, m), second);
            && a.results == b.results
            && JoinedFrom(a.results, 0) == JoinedFrom(b.results, 0)
            && a.m.intents == b.m.intents
            && a.calls == b.calls && |a.calls| == |jobs| == |a.stages|
            && forall j | 0 <= j < |jobs| :: a.calls[j] == if a.stages[j].Skipped? then 0 else 1
  {
    var start := Start(jobs, results, m);
    StartIsConsistent(jobs, provider, results, m);
    SchedulesStayConsistent(w1, jobs, provider, start, start, first);
    SchedulesStayConsistent(w2, jobs, provider, start, start, second);
    DrainedAgree(jobs, provider, start, RunSchedule(w1, jobs, provider, start, first),
                 RunSchedule(w2, jobs, provider, start, second));
  }

  /** No save has failed or will fail, and no job has been skipped. */
  ghost predicate Clean(pool: Pool) {
    && pool.m.script == []
    && forall j | 0 <= j < |pool.stages| ::
         var s := pool.stages[j]; !s.Skipped? && (s.Marked? || s.Written? ==> s.saved)
  }

  ghost predicate Uncancelled(moves: seq<Move>) {
    forall i | 0 <= i < |moves| :: !moves[i].Skip?
  }

  lemma {:induction false} SchedulesStayClean(workers: nat, jobs: seq<Job>, provider: Job -> Reply, pool: Pool,
          moves: seq<Move>)
    requires Clean(pool) && Schedule(workers, jobs, provider, pool, moves) && Uncancelled(moves)
    ensures Clean(RunSchedule(workers, jobs, provider, pool, moves))
    ensures |RunSchedule(workers, jobs, provider, pool, moves).stages| == |pool.stages|
    decreases |moves|
  {
    if moves != [] {
      assert !moves[0].Skip?;
      SchedulesStayClean(workers, jobs, provider, Moved(workers, jobs, provider, pool, moves[0]), moves[1..]);
    }
  }

  lemma CleanStages(a: Pool, b: Pool)
    requires Clean(a) && Clean(b) && Drained(a) && Drained(b) && |a.stages| == |b.stages|
    ensures a.stages == b.stages && forall j | 0 <= j < |a.stages| :: a.stages[j] == Written(true)
  {
    forall j | 0 <= j < |a.stages| ensures a.stages[j] == Written(true) == b.stages[j] {
      assert Done(a.stages[j]) && Done(b.stages[j]);
    }
  }

  /**
   * Over a store whose saves succeed and unless the context is cancelled, all schedules of any number
   * of workers end in the same results, joined error and ledger map, with one provider call per job.
   */
  lemma ScheduleIndependence(w1: nat, w2: nat, jobs: seq<Job>, provider: Job -> Reply, results: seq<ApplyResult>,
          m: Machine, first: seq<Move>, second: seq<Move>)
    requires Disjoint(jobs, results, m) && m.script == [] && Uncancelled(first) && Uncancelled(second)
    requires Schedule(w1, jobs, provider, Start(jobs, results, m), first)
    requires Schedule(w2, jobs, provider, Start(jobs, results, m), second)
    requires Drained(RunSchedule(w1, jobs, provider, Start(jobs, results, m), first))
    requires Drained(RunSchedule(w2, jobs, provider, Start(jobs, results, m), second))
    ensures var a := RunSchedule(w1, jobs, provider, Start(jobs, results, m), first);
            var b := RunSchedule(w2, jobs, provider, Start(jobs, results, m), second);
            && a.results == b.results
            && JoinedFrom(a.results, 0) == JoinedFrom(b.results, 0)
            && a.m.intents == b.m.intents
            && |a.calls| == |jobs|
            && forall j | 0 <= j < |jobs| :: a.calls[j] == 1
  {
    var start := Start(jobs, results, m);
    SchedulesStayClean(w1, jobs, provider, start, first);
    SchedulesStayClean(w2, jobs, provider, start, second);
    CleanStages(RunSchedule(w1, jobs, provider, start, first), RunSchedule(w2, jobs, provider, start, second));
    FatesDecide(w1, w2, jobs, provider, results, m, first, second);
  }

  // Progress.

  function Rank(s: Stage): nat {
    match s
    case Queued => 4
    case Taken(_) => 3
    case Replied(_, _) => 2
    case Marked(_, _, _) => 1
    case Written(_) => 0
    case Skipped => 0
  }

  function Remaining(stages: seq<Stage>): nat {
    if stages == [] then 0 else Rank(stages[0]) + Remaining(stages[1..])
  }

  lemma {:induction false} RemainingDrops(stages: seq<Stage>, j: nat, s: Stage)
    requires j < |stages| && Rank(s) < Rank(stages[j])
    ensures Remaining(stages[j := s]) < Remaining(stages)
  {
    if j == 0 {
      assert stages[j := s][1..] == stages[1..];
    } else {
      RemainingDrops(stages[1..], j - 1, s);
      assert stages[j := s][1..] == stages[1..][j - 1 := s];
    }
  }

  lemma {:induction false} RemainingAtStart(n: nat)
    ensures Remaining(seq(n, _ => Queued)) == 4 * n
  {
    if n > 0 {
      assert seq(n, _ => Queued)[1..] == seq(n - 1, _ => Queued);
      RemainingAtStart(n - 1);
    }
  }

  lemma NextIsQueued(jobs: seq<Job>, provider: Job -> Reply, start: Pool, pool: Pool)
    requires Consistent(jobs, provider, start, pool) && pool.next < |jobs|
    ensures pool.stages[pool.next] == Queued
  {
    assert OnTrack(jobs, provider, start, pool, pool.next);
  }

  lemma MoveDrops(workers: nat, jobs: seq<Job>, provider: Job -> Reply, pool: Pool, move: Move)
    requires Enabled(workers, jobs, pool, move) && (move.Take? ==> pool.stages[pool.next] == Queued)
    ensures Remaining(Moved(workers, jobs, provider, pool, move).stages) < Remaining(pool.stages)
  {
    match move
    case Take(w) => RemainingDrops(pool.stages, pool.next, Taken(w));
    case Skip(j) => RemainingDrops(pool.stages, j, Skipped);
    case Call(j) => RemainingDrops(pool.stages, j, Replied(pool.stages[j].worker, provider(jobs[j])));
    case MarkIt(j) =>
      var n := Moved(workers, jobs, provider, pool, move);
      RemainingDrops(pool.stages, j, n.stages[j]);
    case Write(j) => RemainingDrops(pool.stages, j, Written(pool.stages[j].saved));
  }

  lemma {:induction false} SchedulesEnd(workers: nat, jobs: seq<Job>, provider: Job -> Reply, start: Pool,
          pool: Pool, moves: seq<Move>)
    requires Consistent(jobs, provider, start, pool) && Schedule(workers, jobs, provider, pool, moves)
    ensures |moves| <= Remaining(pool.stages)
    decreases |moves|
  {
    if moves != [] {
      MovesStayConsistent(workers, jobs, provider, start, pool, moves[0]);
      if moves[0].Take? {
        NextIsQueued(jobs, provider, start, pool);
      }
      MoveDrops(workers, jobs, provider, pool, moves[0]);
      SchedulesEnd(workers, jobs, provider, start, Moved(workers, jobs, provider, pool, moves[0]), moves[1..]);
    }
  }

  /** No schedule of a pool runs for more than four moves per job. */
  lemma FourMovesPerJob(workers: nat, jobs: seq<Job>, provider: Job -> Reply, results: seq<ApplyResult>, m: Machine,
          moves: seq<Move>)
    requires Disjoint(jobs, results, m) && Schedule(workers, jobs, provider, Start(jobs, results, m), moves)
    ensures |moves| <= 4 * |jobs|
  {
    var start := Start(jobs, results, m);
    StartIsConsistent(jobs, provider, results, m);
    SchedulesEnd(workers, jobs, provider, start, start, moves);
    RemainingAtStart(|jobs|);
  }

  /** With at least one worker, a pool that is not drained can move: no schedule gets stuck. */
  lemma NeverStuck(workers: nat, jobs: seq<Job>, provider: Job -> Reply, start: Pool, pool: Pool)
      returns (move: Move)
    requires Consistent(jobs, provider, start, pool) && workers > 0 && !Drained(pool)
    ensures Enabled(workers, jobs, pool, move)
  {
    var j: nat :| j < |pool.stages| && !Done(pool.stages[j]);
    assert OnTrack(jobs, provider, start, pool, j);
    match pool.stages[j]
    case Taken(_) => move := Call(j);
    case Replied(_, _) => move := MarkIt(j);
    case Marked(_, _, _) => move := Write(j);
    case Queued =>
      if Busy(pool.stages, 0) {
        var b: nat :| b < |pool.stages| && Holds(pool.stages[b], 0);
        assert OnTrack(jobs, provider, start, pool, b);
        move := if pool.stages[b].Taken? then Call(b) else if pool.stages[b].Replied? then MarkIt(b) else Write(b);
      } else {
        move := Take(0);
      }
  }
}
