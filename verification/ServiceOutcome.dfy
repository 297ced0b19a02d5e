/** What one submission reports, and what the error of a cycle lists (internal/app/service.go:325-429). */
module ServiceOutcome {
  import opened Basics
  import P = PlannerModel
  import opened LedgerModel
  import opened ServiceModel
  import opened WorkerPool
  import opened ServiceReport

  // One submission.

  /** A rename is submitted under its device, and is to be retried one interval from now. */
  ghost predicate SubmitsItem(cfg: Settings, now: int, i: P.Item, t: Job) {
    && t.key == Key(i.source, i.namespace, i.id) && t.desiredName == i.desiredName
    && t.serialNumber == (if i.serialNumber != "" then i.serialNumber else "provider-id:" + i.id)
    && t.retryAt == now + cfg.retryAfter
  }

  lemma {:induction false} JobsAreTimed(cfg: Settings, now: int, ctx: Context, st: Loop, k: nat)
    requires forall a | 0 <= a < |st.jobs| :: st.jobs[a].retryAt == now + cfg.retryAfter
    ensures forall a | 0 <= a < |PrepareFrom(cfg, now, ctx, st, k).jobs| ::
              PrepareFrom(cfg, now, ctx, st, k).jobs[a].retryAt == now + cfg.retryAfter
    decreases |st.results| - k
  {
    if k < |st.results| && !st.failed && !ctx(k) {
      if st.results[k].item.status == P.Rename && Submits(Prepare(st.m, RequestFor(cfg, now, st.results[k].item)).1) {
        SubmissionIsEntered(st.m, RequestFor(cfg, now, st.results[k].item));
      }
      JobsAreTimed(cfg, now, ctx, PrepareOne(cfg, now, st, k), k + 1);
    }
  }

  /**
   * The report of a rename whose call was answered by `reply`, and whether its mark was saved. An
   * acceptance is submitted, a final refusal failed, anything else pending until the retry time; a
   * mark that was not saved shows in the error and leaves a refusal pending.
   */
  ghost predicate ReportOf(reply: Reply, saved: bool, retryAt: int, r: ApplyResult) {
    match reply
    case Renamed =>
      && r.action == ActionSubmitted
      && r.retryAt == (if saved then 0 else retryAt)
      && r.error == (if saved then "" else "record submitted rename: save rename intent")
    case Refused(text, _) =>
      if saved && FinalReply(reply) then r.action == ActionFailed && r.retryAt == 0 && r.error == text
      else
        && r.action == ActionPending && r.retryAt == retryAt
        && r.error == (if saved then text else text + "\n" + "save rename intent")
  }

  /** The whole way from a plan item to its report and its ledger entry. */
  ghost predicate Accomplished(cfg: Settings, now: int, i: P.Item, t: Job, s: Stage, reply: Reply, r: ApplyResult,
          e: Intent) {
    && SubmitsItem(cfg, now, i, t) && r.item == i && r.attempts == e.attempts
    && match s
       case Written(saved) =>
         && ReportOf(reply, saved, now + cfg.retryAfter, r)
         && e.status == (if !saved then IntentRetrying else if reply.Renamed? then IntentSubmitted
                         else if FinalReply(reply) then IntentFailed else IntentRetrying)
         && (saved && reply.Refused? ==> e.failure == reply.text)
       case Skipped =>
         && r.action == ActionPending && r.retryAt == now + cfg.retryAfter && r.error == "context canceled"
         && e.status == IntentRetrying
       case _ => false
  }

  /** The result is planned and its entry awaits the reply. */
  ghost predicate Prepared(cfg: Settings, now: int, r: ApplyResult, t: Job, e: Intent) {
    && t == JobOf(t.index, r.item, now + cfg.retryAfter) && r.retryAt == now + cfg.retryAfter && r.error == ""
    && r.attempts == e.attempts && e.status == IntentRetrying
  }

  lemma WrittenIsDone(cfg: Settings, now: int, r: ApplyResult, t: Job, e: Intent, reply: Reply, saved: bool)
    requires Prepared(cfg, now, r, t, e)
    ensures Accomplished(cfg, now, r.item, t, Written(saved), reply, Report(r, t, OutcomeOf(reply), saved),
                    if saved then MarkedIntent(e, OutcomeOf(reply)) else e)
  {
  }

  lemma SkippedIsDone(cfg: Settings, now: int, r: ApplyResult, t: Job, e: Intent, reply: Reply)
    requires Prepared(cfg, now, r, t, e)
    ensures Accomplished(cfg, now, r.item, t, Skipped, reply, Skipping(r, t), e)
  {
  }

  lemma JobWasPrepared(cfg: Settings, now: int, start: seq<ApplyResult>, st: Loop, a: nat)
    requires LoopTells(cfg, start, st, |start|) && Disjoint(st.jobs, st.results, st.m) && Unapplied(start)
    requires a < |st.jobs| && st.jobs[a].retryAt == now + cfg.retryAfter
    ensures var t := st.jobs[a];
            && t.index < |start| && st.results[t.index].item == start[t.index].item
            && Prepared(cfg, now, st.results[t.index], t, st.m.intents[t.key])
  {
    var t := st.jobs[a];
    assert start[t.index].item.status == P.Rename && st.results[t.index].action == ActionPlanned;
    assert Waits(cfg, st.results[t.index], st.m.intents);
  }

  lemma JobIsDone(cfg: Settings, now: int, start: Pool, jobs: seq<Job>, provider: Job -> Reply, pool: Pool, a: nat)
    requires Consistent(jobs, provider, start, pool) && Drained(pool) && a < |jobs|
    requires Prepared(cfg, now, start.results[jobs[a].index], jobs[a], start.m.intents[jobs[a].key])
    ensures var t := jobs[a];
            && t.index < |pool.results| && t.key in pool.m.intents
            && Accomplished(cfg, now, start.results[t.index].item, t, pool.stages[a], provider(t),
                            pool.results[t.index], pool.m.intents[t.key])
  {
    var t := jobs[a];
    assert OnTrack(jobs, provider, start, pool, a);
    assert Done(pool.stages[a]);
    var r, e := start.results[t.index], start.m.intents[t.key];
    match pool.stages[a]
    case Written(saved) => WrittenIsDone(cfg, now, r, t, e, provider(t), saved);
    case Skipped => SkippedIsDone(cfg, now, r, t, e, provider(t));
  }

  /**
   * In a full cycle every job submits its item and reports what its reply and its mark come to, however
   * the workers are interleaved.
   */
  lemma JobsReportExactly(cfg: Settings, now: int, ctx: Context, results: seq<ApplyResult>, m: Machine, workers: nat,
                          provider: Job -> Reply, moves: seq<Move>, a: nat)
    requires Clocked(cfg, m) && now > ZERO_TIME
    requires DistinctItems(results) && Unapplied(results) && Requestable(cfg, now, results)
    requires var st := PrepareAll(cfg, now, ctx, results, m);
             && !st.failed && a < |st.jobs|
             && Schedule(workers, st.jobs, provider, Start(st.jobs, st.results, st.m), moves)
             && Drained(RunSchedule(workers, st.jobs, provider, Start(st.jobs, st.results, st.m), moves))
    ensures var st := PrepareAll(cfg, now, ctx, results, m);
            var pool := RunSchedule(workers, st.jobs, provider, Start(st.jobs, st.results, st.m), moves);
            var t := st.jobs[a];
            && t.index < |results| == |pool.results| && |pool.stages| == |st.jobs| && t.key in pool.m.intents
            && Accomplished(cfg, now, results[t.index].item, t, pool.stages[a], provider(t), pool.results[t.index],
                            pool.m.intents[t.key])
  {
    var st := PrepareAll(cfg, now, ctx, results, m);
    var stop := PrepareAllIsDisjoint(cfg, now, ctx, results, m);
    JobsAreTimed(cfg, now, ctx, Loop(results, m, [], false), 0);
    var start := Start(st.jobs, st.results, st.m);
    StartIsConsistent(st.jobs, provider, st.results, st.m);
    SchedulesStayConsistent(workers, st.jobs, provider, start, start, moves);
    JobWasPrepared(cfg, now, results, st, a);
    JobIsDone(cfg, now, start, st.jobs, provider, RunSchedule(workers, st.jobs, provider, start, moves), a);
  }

  // The error of a cycle.

  /** How many of the first `n` results carry an error. */
  function Errors(results: seq<ApplyResult>, n: nat): nat
    requires n <= |results|
  {
    if n == 0 then 0 else Errors(results, n - 1) + if results[n - 1].error == "" then 0 else 1
  }

  function EntryOf(r: ApplyResult): (Key, string) {
    (Key(r.item.source, r.item.namespace, r.item.id), r.error)
  }

  /** One entry for every result with an error, at the position the errors before it give it. */
  ghost predicate ListsErrors(results: seq<ApplyResult>, joined: seq<(Key, string)>) {
    && |joined| == Errors(results, |results|)
    && forall i: nat | i < |results| && results[i].error != "" ::
         Errors(results, i) < |joined| && joined[Errors(results, i)] == EntryOf(results[i])
  }

  predicate NoErrors(results: seq<ApplyResult>) {
    forall i | 0 <= i < |results| :: results[i].error == ""
  }

  lemma {:induction false} JoinedCount(results: seq<ApplyResult>, k: nat)
    requires k <= |results|
    ensures |JoinedFrom(results, k)| == Errors(results, |results|) - Errors(results, k)
    decreases |results| - k
  {
    if k < |results| {
      JoinedCount(results, k + 1);
    }
  }

  lemma {:induction false} JoinedAt(results: seq<ApplyResult>, k: nat, i: nat)
    requires k <= i < |results| && results[i].error != ""
    ensures 0 <= Errors(results, i) - Errors(results, k) < |JoinedFrom(results, k)|
    ensures JoinedFrom(results, k)[Errors(results, i) - Errors(results, k)] == EntryOf(results[i])
    decreases i - k
  {
    if k < i {
      JoinedAt(results, k + 1, i);
    }
  }

  lemma {:induction false} ErrorsCount(results: seq<ApplyResult>, n: nat)
    requires n <= |results|
    ensures Errors(results, n) == 0 <==> forall i | 0 <= i < n :: results[i].error == ""
  {
    if n > 0 {
      ErrorsCount(results, n - 1);
    }
  }

  /**
   * The error of a cycle lists the results that carry one, in order, each with its device and its text;
   * it is empty exactly if none does.
   */
  lemma JoinedExactly(results: seq<ApplyResult>)
    ensures ListsErrors(results, JoinedFrom(results, 0))
    ensures JoinedFrom(results, 0) == [] <==> NoErrors(results)
  {
    JoinedCount(results, 0);
    forall i: nat | i < |results| && results[i].error != ""
      ensures Errors(results, i) < |JoinedFrom(results, 0)|
      ensures JoinedFrom(results, 0)[Errors(results, i)] == EntryOf(results[i])
    {
      JoinedAt(results, 0, i);
    }
    ErrorsCount(results, |results|);
  }
}
