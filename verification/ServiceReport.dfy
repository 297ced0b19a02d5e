/** What a cycle reports about each rename agrees with the ledger it leaves (internal/app/service.go). */
module ServiceReport {
  import opened Basics
  import P = PlannerModel
  import opened LedgerModel
  import opened LedgerLaws
  import opened ServiceModel
  import opened WorkerPool

  /** The ledger's entry is about exactly this rename, which has not taken effect. */
  ghost predicate Entered(r: ApplyResult, intents: map<Key, Intent>) {
    && Current(intents, ItemKey(r.item), StateSerialNumber(r.item.id, r.item.serialNumber), r.item.desiredName)
    && r.item.currentName != r.item.desiredName
  }

  /** The report counts the attempts the entry has. */
  ghost predicate Counted(r: ApplyResult, intents: map<Key, Intent>) {
    Entered(r, intents) && r.attempts == intents[ItemKey(r.item)].attempts
  }

  /** The entry awaits its next attempt, which may start one interval after the last. */
  ghost predicate Waits(cfg: Settings, r: ApplyResult, intents: map<Key, Intent>) {
    && Counted(r, intents)
    && intents[ItemKey(r.item)].status == IntentRetrying
    && r.retryAt == intents[ItemKey(r.item)].attemptedAt + cfg.retryAfter
  }

  /** The report of one rename next to its ledger entry. */
  ghost predicate Told(cfg: Settings, r: ApplyResult, intents: map<Key, Intent>) {
    match r.action
    case ActionFailed =>
      && Counted(r, intents) && r.retryAt == ZERO_TIME
      && intents[ItemKey(r.item)].status == IntentFailed && intents[ItemKey(r.item)].failure == r.error
    case ActionSubmitted => Counted(r, intents) && intents[ItemKey(r.item)].status == IntentSubmitted
    case ActionPending =>
      if r.retryAt == ZERO_TIME then Counted(r, intents) && intents[ItemKey(r.item)].status == IntentSubmitted
      else Waits(cfg, r, intents)
    case ActionPlanned => Waits(cfg, r, intents)
    case NoAction => ItemKey(r.item) !in intents && r.attempts == 0 && r.retryAt == ZERO_TIME
  }

  /** Accepted, but with an error: the one report that does not tell what the ledger holds. */
  predicate SubmittedWithError(r: ApplyResult) {
    r.action == ActionSubmitted && r.error != ""
  }

  /** The clock runs after the zero instant, and stored intents were validated. */
  ghost predicate Clocked(cfg: Settings, m: Machine) {
    && cfg.retryAfter > 0 && cfg.maxAttempts > 0
    && Keyed(m.intents) && AllValid(m.intents)
    && forall k | k in m.intents :: m.intents[k].attemptedAt > ZERO_TIME
  }

  lemma CommitStaysClocked(cfg: Settings, m: Machine, next: map<Key, Intent>)
    requires Clocked(cfg, m) && Keyed(next) && AllValid(next)
    requires forall k | k in next :: next[k].attemptedAt > ZERO_TIME
    ensures Clocked(cfg, Commit(m, next).0)
    ensures Commit(m, next).0.intents == if Commit(m, next).1 then next else m.intents
  {
  }

  lemma PutStaysClocked(cfg: Settings, m: Machine, key: Key, i: Intent)
    requires Clocked(cfg, m) && IntentKey(i) == key && ValidIntent(i) && i.attemptedAt > ZERO_TIME
    ensures Clocked(cfg, Put(m, key, i).0)
    ensures Put(m, key, i).0.intents == if Put(m, key, i).1 then m.intents[key := i] else m.intents
  {
    CommitStaysClocked(cfg, m, m.intents[key := i]);
  }

  lemma DeleteStaysClocked(cfg: Settings, m: Machine, key: Key)
    requires Clocked(cfg, m)
    ensures Clocked(cfg, Delete(m, key).0)
    ensures Delete(m, key).0.intents == if Delete(m, key).1 then m.intents - {key} else m.intents
  {
    CommitStaysClocked(cfg, m, m.intents - {key});
  }

  /** A decision is noted as the ledger holds it; a failed save leaves what is in `leftover`. */
  ghost predicate Answered(cfg: Settings, r: ApplyResult, leftover: map<Key, Intent>, after: Machine, answer: Answer) {
    && Clocked(cfg, after) && !answer.BadRequest?
    && (answer.SaveFailed? ==> after.intents == leftover)
    && (answer.Decided? ==>
          && Told(cfg, Noted(r, answer.decision), after.intents)
          && (Noted(r, answer.decision).action == ActionPlanned <==> answer.decision.disposition == DispositionSubmit))
  }

  lemma AgainTells(cfg: Settings, now: int, m: Machine, r: ApplyResult)
    requires Clocked(cfg, m) && now > ZERO_TIME && ValidRequest(RequestFor(cfg, now, r.item))
    requires Entered(r, m.intents) && r.action == ActionPlanned
    ensures var (n, answer) := PrepareAgain(m, RequestFor(cfg, now, r.item), m.intents[ItemKey(r.item)]);
            Answered(cfg, r, m.intents, n, answer)
  {
    var req, e := RequestFor(cfg, now, r.item), m.intents[ItemKey(r.item)];
    assert ValidIntent(e) && IntentKey(e) == req.key;
    if e.status == IntentRetrying && now >= e.attemptedAt + cfg.retryAfter {
      if e.attempts >= cfg.maxAttempts {
        PutStaysClocked(cfg, m, req.key, e.(status := IntentFailed, failure := ExhaustedFailure(e)));
      } else {
        PutStaysClocked(cfg, m, req.key,
                        e.(attemptedAt := now, attempts := e.attempts + 1, status := IntentRetrying, failure := ""));
      }
    }
  }

  lemma CurrentTells(cfg: Settings, now: int, m: Machine, r: ApplyResult)
    requires Clocked(cfg, m) && now > ZERO_TIME && ValidRequest(RequestFor(cfg, now, r.item))
    requires r.action == ActionPlanned
    requires ItemKey(r.item) in m.intents ==>
               m.intents[ItemKey(r.item)].serialNumber == StateSerialNumber(r.item.id, r.item.serialNumber)
    ensures var (n, answer) := PrepareCurrent(m, RequestFor(cfg, now, r.item));
            Answered(cfg, r, m.intents, n, answer)
  {
    var req := RequestFor(cfg, now, r.item);
    if req.currentName == req.desiredName {
      DeleteStaysClocked(cfg, m, req.key);
    } else if req.key !in m.intents || m.intents[req.key].desiredName != req.desiredName {
      PutStaysClocked(cfg, m, req.key, NewIntent(req));
    } else {
      AgainTells(cfg, now, m, r);
    }
  }

  /** The intent is for a device that has since been given another serial number. */
  ghost predicate Stale(r: ApplyResult, intents: map<Key, Intent>) {
    && ItemKey(r.item) in intents
    && intents[ItemKey(r.item)].serialNumber != StateSerialNumber(r.item.id, r.item.serialNumber)
  }

  /** What a failed prepare leaves: everything, unless the deletion of a stale intent was saved before the failure. */
  ghost function Leftover(m: Machine, r: ApplyResult): map<Key, Intent> {
    if Stale(r, m.intents) && NextSave(m.script) == Saved then m.intents - {ItemKey(r.item)} else m.intents
  }

  /** Preparing one rename notes exactly what the ledger now holds, or fails and leaves the rest of the ledger alone. */
  lemma PrepareTells(cfg: Settings, now: int, m: Machine, r: ApplyResult)
    requires Clocked(cfg, m) && now > ZERO_TIME && ValidRequest(RequestFor(cfg, now, r.item))
    requires r.action == ActionPlanned
    ensures var (n, answer) := Prepare(m, RequestFor(cfg, now, r.item));
            Answered(cfg, r, Leftover(m, r), n, answer)
  {
    var req := RequestFor(cfg, now, r.item);
    if req.key in m.intents && m.intents[req.key].serialNumber != req.serialNumber {
      DeleteStaysClocked(cfg, m, req.key);
      if Delete(m, req.key).1 {
        CurrentTells(cfg, now, Delete(m, req.key).0, r);
      }
    } else {
      CurrentTells(cfg, now, m, r);
    }
  }

  // The prepare loop.

  /** Whatever intent is left for the device is for its serial number and for a name it does not have. */
  ghost predicate Cleared(item: P.Item, intents: map<Key, Intent>) {
    ItemKey(item) in intents ==>
      && intents[ItemKey(item)].serialNumber == StateSerialNumber(item.id, item.serialNumber)
      && intents[ItemKey(item)].desiredName != item.currentName
  }

  lemma StaysCleared(item: P.Item, m: Machine, n: Machine, key: Key)
    requires Cleared(item, m.intents) && Touches(m, n, key, true) && ItemKey(item) != key
    ensures Cleared(item, n.intents)
  {
    var k := ItemKey(item);
    assert k in n.intents ==> k in n.intents - {key} && n.intents[k] == (n.intents - {key})[k];
    assert k in m.intents ==> k in m.intents - {key} && m.intents[k] == (m.intents - {key})[k];
  }

  lemma ObserveClears(m: Machine, item: P.Item)
    requires Observe(m, ItemKey(item), StateSerialNumber(item.id, item.serialNumber), item.currentName).2
    ensures var serial := StateSerialNumber(item.id, item.serialNumber);
            Cleared(item, Observe(m, ItemKey(item), serial, item.currentName).0.intents)
  {
  }

  ghost predicate DistinctItems(results: seq<ApplyResult>) {
    forall i, j | 0 <= i < j < |results| :: ItemKey(results[i].item) != ItemKey(results[j].item)
  }

  /** As Reconcile builds them from the plan. */
  ghost predicate Unapplied(results: seq<ApplyResult>) {
    forall i | 0 <= i < |results| ::
      results[i] == ApplyResult(results[i].item, if results[i].item.status == P.Rename then ActionPlanned else NoAction,
                                0, ZERO_TIME, "")
  }

  /** Every planned rename carries what the ledger demands of a request. */
  ghost predicate Requestable(cfg: Settings, now: int, results: seq<ApplyResult>) {
    forall i | 0 <= i < |results| && results[i].item.status == P.Rename ::
      ValidRequest(RequestFor(cfg, now, results[i].item))
  }

  ghost predicate SameItems(a: seq<ApplyResult>, b: seq<ApplyResult>) {
    |a| == |b| && forall i | 0 <= i < |a| :: a[i].item == b[i].item
  }

  /** The jobs are exactly the results still planned, in result order. */
  ghost predicate JobsListed(results: seq<ApplyResult>, jobs: seq<Job>, k: nat)
    requires k <= |results|
  {
    && (forall a, b | 0 <= a < b < |jobs| :: jobs[a].index < jobs[b].index)
    && (forall a | 0 <= a < |jobs| ::
          && jobs[a].index < k && results[jobs[a].index].action == ActionPlanned && results[jobs[a].index].error == ""
          && jobs[a] == JobOf(jobs[a].index, results[jobs[a].index].item, results[jobs[a].index].retryAt))
    && (forall i | 0 <= i < k && results[i].action == ActionPlanned ::
          exists a :: 0 <= a < |jobs| && jobs[a].index == i)
  }

  /** A rename is told as the ledger holds it; any other device is only observed. */
  ghost predicate Noticed(cfg: Settings, before: ApplyResult, r: ApplyResult, intents: map<Key, Intent>) {
    if before.item.status == P.Rename then Told(cfg, r, intents) && r.action != ActionSubmitted
    else r == before && Cleared(r.item, intents)
  }

  /**
   * Up to `k`, where it may have been stopped by a cancelled context or by the error it then notes,
   * the loop has written ahead every job and told every rename as the ledger holds it.
   */
  ghost predicate LoopTells(cfg: Settings, start: seq<ApplyResult>, st: Loop, k: nat) {
    && k <= |start| && SameItems(start, st.results) && Clocked(cfg, st.m) && (st.failed ==> k < |start|)
    && (forall i | k <= i < |start| ::
          st.results[i] == start[i] || (i == k && st.failed && Stopped(start[i], st.results[i])))
    && (forall i | 0 <= i < k :: Noticed(cfg, start[i], st.results[i], st.m.intents))
    && JobsListed(st.results, st.jobs, k)
  }

  ghost predicate Stopped(before: ApplyResult, after: ApplyResult) {
    after == before.(error := "save rename intent")
  }

  /** The context was cancelled, which no result shows, or a save failed, which the result at `k` says. */
  ghost predicate StopsAt(ctx: Context, start: seq<ApplyResult>, st: Loop, k: nat) {
    k < |start| && k < |st.results| && if ctx(k) then st.results[k] == start[k] else Stopped(start[k], st.results[k])
  }

  /** A change to one entry leaves what was told about the others true. */
  lemma OthersStayTold(cfg: Settings, r: ApplyResult, m: Machine, n: Machine, key: Key, clock: bool)
    requires Told(cfg, r, m.intents) && Touches(m, n, key, clock) && ItemKey(r.item) != key
    ensures Told(cfg, r, n.intents)
  {
    var k := ItemKey(r.item);
    assert k in m.intents <==> k in m.intents - {key};
    assert k in n.intents <==> k in n.intents - {key};
    if k in m.intents {
      assert m.intents[k] == (m.intents - {key})[k];
      assert n.intents[k] == (n.intents - {key})[k];
    }
  }

  lemma ObserveStaysClocked(cfg: Settings, m: Machine, key: Key, serial: string, current: string)
    requires Clocked(cfg, m)
    ensures Clocked(cfg, Observe(m, key, serial, current).0)
  {
    DeleteStaysClocked(cfg, m, key);
  }

  /** What was told of the renames before `k` survives an operation on the entry of item `k`. */
  lemma EarlierStayTold(cfg: Settings, start: seq<ApplyResult>, st: Loop, k: nat, n: Machine)
    requires LoopTells(cfg, start, st, k) && k < |start| && DistinctItems(start)
    requires Touches(st.m, n, ItemKey(start[k].item), true)
    ensures forall i | 0 <= i < k :: Noticed(cfg, start[i], st.results[i], n.intents)
  {
    forall i | 0 <= i < k ensures Noticed(cfg, start[i], st.results[i], n.intents) {
      assert ItemKey(st.results[i].item) != ItemKey(start[k].item);
      if start[i].item.status == P.Rename {
        OthersStayTold(cfg, st.results[i], st.m, n, ItemKey(start[k].item), true);
      } else {
        StaysCleared(st.results[i].item, st.m, n, ItemKey(start[k].item));
      }
    }
  }

  lemma ObserveStepTells(cfg: Settings, now: int, start: seq<ApplyResult>, st: Loop, k: nat)
    requires LoopTells(cfg, start, st, k) && k < |start| && !st.failed && DistinctItems(start) && Unapplied(start)
    requires start[k].item.status != P.Rename
    ensures var n := PrepareOne(cfg, now, st, k); LoopTells(cfg, start, n, if n.failed then k else k + 1)
    ensures var n := PrepareOne(cfg, now, st, k); n.failed ==> Stopped(start[k], n.results[k])
  {
    var item := start[k].item;
    var op := DoObserve(ItemKey(item), StateSerialNumber(item.id, item.serialNumber), item.currentName);
    ObserveStaysClocked(cfg, st.m, op.key, op.serialNumber, op.currentName);
    PerformTouches(st.m, op);
    var n := PrepareOne(cfg, now, st, k);
    EarlierStayTold(cfg, start, st, k, n.m);
    JobsStay(st.results, st.jobs, k, n.results[k]);
  }

  /** What is written at `k` does not matter to the jobs before it. */
  lemma JobsStay(results: seq<ApplyResult>, jobs: seq<Job>, k: nat, r: ApplyResult)
    requires k < |results| && JobsListed(results, jobs, k)
    ensures JobsListed(results[k := r], jobs, k)
  {
  }

  lemma JobsGrow(results: seq<ApplyResult>, jobs: seq<Job>, k: nat, r: ApplyResult)
    requires k < |results| && JobsListed(results, jobs, k) && (r.action == ActionPlanned ==> r.error == "")
    ensures r.action != ActionPlanned ==> JobsListed(results[k := r], jobs, k + 1)
    ensures r.action == ActionPlanned ==> JobsListed(results[k := r], jobs + [JobOf(k, r.item, r.retryAt)], k + 1)
  {
    var more := jobs + [JobOf(k, r.item, r.retryAt)];
    forall i | 0 <= i < k && results[i].action == ActionPlanned
      ensures exists a :: 0 <= a < |more| && more[a].index == i
    {
      var a :| 0 <= a < |jobs| && jobs[a].index == i;
      assert more[a].index == i;
    }
    assert more[|jobs|].index == k;
  }

  lemma AnswerTells(cfg: Settings, start: seq<ApplyResult>, st: Loop, k: nat, m: Machine, answer: Answer,
          leftover: map<Key, Intent>)
    requires LoopTells(cfg, start, st, k) && k < |start| && !st.failed && DistinctItems(start)
    requires start[k].item.status == P.Rename && Answered(cfg, start[k], leftover, m, answer) && start[k].error == ""
    requires Touches(st.m, m, ItemKey(start[k].item), true)
    ensures var n := Concluded(st, k, m, answer); LoopTells(cfg, start, n, if n.failed then k else k + 1)
    ensures var n := Concluded(st, k, m, answer); n.failed ==> Stopped(start[k], n.results[k])
  {
    var n := Concluded(st, k, m, answer);
    EarlierStayTold(cfg, start, st, k, m);
    JobsStay(st.results, st.jobs, k, n.results[k]);
    if !n.failed {
      JobsGrow(st.results, st.jobs, k, n.results[k]);
    }
  }

  lemma PrepareStepTells(cfg: Settings, now: int, start: seq<ApplyResult>, st: Loop, k: nat)
    requires LoopTells(cfg, start, st, k) && k < |start| && !st.failed && now > ZERO_TIME
    requires DistinctItems(start) && Unapplied(start) && Requestable(cfg, now, start)
    requires start[k].item.status == P.Rename
    ensures var n := PrepareOne(cfg, now, st, k); LoopTells(cfg, start, n, if n.failed then k else k + 1)
    ensures var n := PrepareOne(cfg, now, st, k); n.failed ==> Stopped(start[k], n.results[k])
  {
    var req := RequestFor(cfg, now, start[k].item);
    PrepareTells(cfg, now, st.m, start[k]);
    PerformTouches(st.m, DoPrepare(req));
    var (m, answer) := Prepare(st.m, req);
    AnswerTells(cfg, start, st, k, m, answer, Leftover(st.m, start[k]));
  }

  lemma {:induction false} LoopStaysTold(cfg: Settings, now: int, ctx: Context, start: seq<ApplyResult>, st: Loop,
          k: nat)
      returns (stop: nat)
    requires LoopTells(cfg, start, st, k) && now > ZERO_TIME && (k == |start| || !st.failed)
    requires DistinctItems(start) && Unapplied(start) && Requestable(cfg, now, start)
    ensures LoopTells(cfg, start, PrepareFrom(cfg, now, ctx, st, k), stop)
    ensures !PrepareFrom(cfg, now, ctx, st, k).failed ==> stop == |start|
    ensures PrepareFrom(cfg, now, ctx, st, k).failed ==> StopsAt(ctx, start, PrepareFrom(cfg, now, ctx, st, k), stop)
    decreases |start| - k
  {
    stop := k;
    if k < |start| && !ctx(k) {
      if start[k].item.status == P.Rename {
        PrepareStepTells(cfg, now, start, st, k);
      } else {
        ObserveStepTells(cfg, now, start, st, k);
      }
      var n := PrepareOne(cfg, now, st, k);
      if !n.failed {
        stop := LoopStaysTold(cfg, now, ctx, start, n, k + 1);
      }
    }
  }

  lemma JobsAreDisjoint(cfg: Settings, start: seq<ApplyResult>, st: Loop, k: nat)
    requires LoopTells(cfg, start, st, k) && DistinctItems(start) && Unapplied(start)
    ensures Disjoint(st.jobs, st.results, st.m)
  {
    forall a, b | 0 <= a < b < |st.jobs| ensures st.jobs[a].key != st.jobs[b].key {
      assert ItemKey(start[st.jobs[a].index].item) != ItemKey(start[st.jobs[b].index].item);
    }
    forall a | 0 <= a < |st.jobs|
      ensures Current(st.m.intents, st.jobs[a].key, st.jobs[a].serialNumber, st.jobs[a].desiredName)
    {
      var i := st.jobs[a].index;
      assert st.results[i].action == ActionPlanned && start[i].item.status == P.Rename;
      assert Told(cfg, st.results[i], st.m.intents);
    }
  }

  /**
   * However it ends, the prepare loop has told every rename up to `stop` as the ledger holds it, and
   * its jobs have distinct results and distinct, current entries.
   */
  lemma PrepareAllIsDisjoint(cfg: Settings, now: int, ctx: Context, results: seq<ApplyResult>, m: Machine)
      returns (stop: nat)
    requires Clocked(cfg, m) && now > ZERO_TIME
    requires DistinctItems(results) && Unapplied(results) && Requestable(cfg, now, results)
    ensures var st := PrepareAll(cfg, now, ctx, results, m);
            && LoopTells(cfg, results, st, stop)
            && (if st.failed then StopsAt(ctx, results, st, stop) else stop == |results|)
            && Disjoint(st.jobs, st.results, st.m)
  {
    var first := Loop(results, m, [], false);
    assert LoopTells(cfg, results, first, 0);
    stop := LoopStaysTold(cfg, now, ctx, results, first, 0);
    JobsAreDisjoint(cfg, results, PrepareAll(cfg, now, ctx, results, m), stop);
  }

  // The whole cycle.

  /**
   * The report tells what the ledger holds. An acceptance that could not be saved shows by its error:
   * the ledger then waits, and will submit again.
   */
  ghost predicate Accounted(cfg: Settings, r: ApplyResult, intents: map<Key, Intent>) {
    && r.action != ActionPlanned
    && (Told(cfg, r, intents) <==> !SubmittedWithError(r))
    && (SubmittedWithError(r) ==> Waits(cfg, r, intents))
  }

  /** A waiting rename's report tells what its mark records. */
  lemma ReportTells(cfg: Settings, r: ApplyResult, index: nat, before: map<Key, Intent>, after: map<Key, Intent>,
          o: Outcome, saved: bool)
    requires Waits(cfg, r, before) && before[ItemKey(r.item)].attemptedAt > ZERO_TIME && cfg.retryAfter > 0
    requires r.error == ""
    requires var key := ItemKey(r.item);
             key in after && after[key] == if saved then MarkedIntent(before[key], o) else before[key]
    ensures var told := Report(r, JobOf(index, r.item, r.retryAt), o, saved);
            Accounted(cfg, told, after) && (SubmittedWithError(told) <==> !saved && o.Accepted?)
  {
  }

  lemma SkipTells(cfg: Settings, r: ApplyResult, index: nat, before: map<Key, Intent>, after: map<Key, Intent>)
    requires Waits(cfg, r, before) && before[ItemKey(r.item)].attemptedAt > ZERO_TIME && cfg.retryAfter > 0
    requires ItemKey(r.item) in after && after[ItemKey(r.item)] == before[ItemKey(r.item)]
    ensures var told := Skipping(r, JobOf(index, r.item, r.retryAt));
            told.action == ActionPending && Told(cfg, told, after)
  {
  }

  /** The job was accepted, and the save of its mark failed. */
  ghost predicate AcceptedUnsaved(jobs: seq<Job>, provider: Job -> Reply, pool: Pool, a: nat)
    requires |jobs| == |pool.stages|
  {
    a < |jobs| && pool.stages[a] == Written(false) && provider(jobs[a]) == Renamed
  }

  lemma JobTells(cfg: Settings, start: seq<ApplyResult>, st: Loop, provider: Job -> Reply, pool: Pool, a: nat)
    requires LoopTells(cfg, start, st, |start|) && Disjoint(st.jobs, st.results, st.m) && Unapplied(start)
    requires Consistent(st.jobs, provider, Start(st.jobs, st.results, st.m), pool) && Drained(pool)
    requires a < |st.jobs|
    ensures var r := pool.results[st.jobs[a].index];
            && Accounted(cfg, r, pool.m.intents)
            && (SubmittedWithError(r) <==> AcceptedUnsaved(st.jobs, provider, pool, a))
  {
    var t, s := st.jobs[a], pool.stages[a];
    var r := st.results[t.index];
    assert OnTrack(st.jobs, provider, Start(st.jobs, st.results, st.m), pool, a);
    assert r.action == ActionPlanned && r.error == "" && start[t.index].item.status == P.Rename;
    assert Waits(cfg, r, st.m.intents) && t == JobOf(t.index, r.item, r.retryAt);
    if s.Written? {
      ReportTells(cfg, r, t.index, st.m.intents, pool.m.intents, OutcomeOf(provider(t)), s.saved);
    } else {
      assert Done(s);
      SkipTells(cfg, r, t.index, st.m.intents, pool.m.intents);
    }
  }

  /** No job is about a result that is not planned. */
  lemma NoJobAbout(start: seq<ApplyResult>, st: Loop, i: nat, a: nat)
    requires SameItems(start, st.results) && DistinctItems(start) && JobsListed(st.results, st.jobs, |start|)
    requires i < |start| && st.results[i].action != ActionPlanned && a < |st.jobs|
    ensures st.jobs[a].index != i && st.jobs[a].key != ItemKey(start[i].item)
  {
    var j := st.jobs[a].index;
    assert j < i || i < j;
  }

  lemma BystanderStays(jobs: seq<Job>, start: Pool, pool: Pool, i: nat, key: Key)
    requires Bystanders(jobs, start, pool) && i < |start.results|
    requires forall a | 0 <= a < |jobs| :: jobs[a].index != i && jobs[a].key != key
    ensures |pool.results| == |start.results| && pool.results[i] == start.results[i]
    ensures key in pool.m.intents <==> key in start.m.intents
    ensures key in start.m.intents ==> pool.m.intents[key] == start.m.intents[key]
  {
    assert key in pool.m.intents.Keys <==> key in start.m.intents.Keys;
  }

  lemma Untouched(cfg: Settings, start: seq<ApplyResult>, st: Loop, provider: Job -> Reply, pool: Pool, i: nat)
    requires LoopTells(cfg, start, st, |start|) && Disjoint(st.jobs, st.results, st.m) && DistinctItems(start)
    requires Consistent(st.jobs, provider, Start(st.jobs, st.results, st.m), pool)
    requires i < |start| && st.results[i].action != ActionPlanned
    ensures |pool.results| == |start| && pool.results[i] == st.results[i]
    ensures var key := ItemKey(start[i].item);
            (key in pool.m.intents <==> key in st.m.intents)
            && (key in st.m.intents ==> pool.m.intents[key] == st.m.intents[key])
  {
    forall a: nat | a < |st.jobs| ensures st.jobs[a].index != i && st.jobs[a].key != ItemKey(start[i].item) {
      NoJobAbout(start, st, i, a);
    }
    BystanderStays(st.jobs, Start(st.jobs, st.results, st.m), pool, i, ItemKey(start[i].item));
  }

  lemma OtherTells(cfg: Settings, start: seq<ApplyResult>, st: Loop, provider: Job -> Reply, pool: Pool, i: nat)
    requires LoopTells(cfg, start, st, |start|) && Disjoint(st.jobs, st.results, st.m) && DistinctItems(start)
    requires Consistent(st.jobs, provider, Start(st.jobs, st.results, st.m), pool)
    requires i < |start| && start[i].item.status == P.Rename && st.results[i].action != ActionPlanned
    ensures |pool.results| == |start| && pool.results[i] == st.results[i]
    ensures Accounted(cfg, pool.results[i], pool.m.intents) && !SubmittedWithError(pool.results[i])
  {
    Untouched(cfg, start, st, provider, pool, i);
    assert Noticed(cfg, start[i], st.results[i], st.m.intents);
  }

  /** What is only observed keeps its result and stays cleared. */
  lemma ObservedStays(cfg: Settings, start: seq<ApplyResult>, st: Loop, provider: Job -> Reply, pool: Pool, i: nat)
    requires LoopTells(cfg, start, st, |start|) && Disjoint(st.jobs, st.results, st.m) && DistinctItems(start)
    requires Consistent(st.jobs, provider, Start(st.jobs, st.results, st.m), pool) && Unapplied(start)
    requires i < |start| && start[i].item.status != P.Rename
    ensures |pool.results| == |start| && pool.results[i] == start[i] && Cleared(start[i].item, pool.m.intents)
  {
    assert Noticed(cfg, start[i], st.results[i], st.m.intents);
    Untouched(cfg, start, st, provider, pool, i);
  }

  /** The job of a result that is still planned. */
  lemma JobFor(cfg: Settings, results: seq<ApplyResult>, st: Loop, i: nat) returns (a: nat)
    requires LoopTells(cfg, results, st, |results|) && i < |results| && st.results[i].action == ActionPlanned
    ensures a < |st.jobs| && st.jobs[a].index == i
  {
    a :| a < |st.jobs| && st.jobs[a].index == i;
  }

  lemma JobKeepsItem(jobs: seq<Job>, provider: Job -> Reply, start: Pool, pool: Pool, a: nat)
    requires Disjoint(jobs, start.results, start.m) && a < |jobs| == |pool.stages| == |pool.calls|
    requires OnTrack(jobs, provider, start, pool, a)
    ensures pool.results[jobs[a].index].item == start.results[jobs[a].index].item
  {
  }

  lemma ItemsKept(jobs: seq<Job>, provider: Job -> Reply, start: Pool, pool: Pool, i: nat)
    requires Consistent(jobs, provider, start, pool) && i < |start.results|
    ensures |pool.results| == |start.results| && pool.results[i].item == start.results[i].item
  {
    if a: nat :| a < |jobs| && jobs[a].index == i {
      assert OnTrack(jobs, provider, start, pool, a);
      JobKeepsItem(jobs, provider, start, pool, a);
    } else {
      assert Bystanders(jobs, start, pool);
    }
  }

  /** Result `i` is that of a job which was accepted and whose mark was not saved. */
  ghost predicate AcceptanceLost(jobs: seq<Job>, provider: Job -> Reply, pool: Pool, i: nat)
    requires |jobs| == |pool.stages|
  {
    exists a: nat :: AcceptedUnsaved(jobs, provider, pool, a) && jobs[a].index == i
  }

  lemma PoolTells(cfg: Settings, results: seq<ApplyResult>, st: Loop, provider: Job -> Reply, pool: Pool, i: nat)
    requires LoopTells(cfg, results, st, |results|) && Disjoint(st.jobs, st.results, st.m)
    requires DistinctItems(results) && Unapplied(results)
    requires Consistent(st.jobs, provider, Start(st.jobs, st.results, st.m), pool) && Drained(pool)
    requires i < |results| && results[i].item.status == P.Rename
    ensures |pool.results| == |results| && pool.results[i].item == results[i].item
    ensures Accounted(cfg, pool.results[i], pool.m.intents)
    ensures SubmittedWithError(pool.results[i]) <==> AcceptanceLost(st.jobs, provider, pool, i)
    ensures Clean(pool) ==> Told(cfg, pool.results[i], pool.m.intents)
  {
    ItemsKept(st.jobs, provider, Start(st.jobs, st.results, st.m), pool, i);
    if st.results[i].action == ActionPlanned {
      var a := JobFor(cfg, results, st, i);
      JobTells(cfg, results, st, provider, pool, a);
      OnlyJobOf(st, i, a);
    } else {
      OtherTells(cfg, results, st, provider, pool, i);
      NoJobOf(st, i);
    }
  }

  lemma OnlyJobOf(st: Loop, i: nat, a: nat)
    requires Disjoint(st.jobs, st.results, st.m) && a < |st.jobs| && st.jobs[a].index == i
    ensures forall b: nat | b < |st.jobs| && st.jobs[b].index == i :: b == a
  {
    forall b: nat | b < |st.jobs| && b != a ensures st.jobs[b].index != i {
      assert b < a || a < b;
    }
  }

  lemma NoJobOf(st: Loop, i: nat)
    requires JobsListed(st.results, st.jobs, |st.results|) && i < |st.results| && st.results[i].action != ActionPlanned
    ensures forall b: nat | b < |st.jobs| :: st.jobs[b].index != i
  {
  }

  /**
   * After a full cycle every rename's report matches the ledger: failed, submitted, pending without a
   * retry time for accepted renames, and pending with the exact instant from which the ledger will
   * submit again for those still being retried. The one exception are reports of a submission with an
   * error, and these are exactly the acceptances that could not be saved; without failing saves and
   * cancellation there is none.
   */
  lemma ReportsMatchLedger(cfg: Settings, now: int, ctx: Context, results: seq<ApplyResult>, m: Machine, workers: nat,
                           provider: Job -> Reply, moves: seq<Move>, i: nat)
    requires Clocked(cfg, m) && now > ZERO_TIME
    requires DistinctItems(results) && Unapplied(results) && Requestable(cfg, now, results)
    requires var st := PrepareAll(cfg, now, ctx, results, m);
             && !st.failed
             && Schedule(workers, st.jobs, provider, Start(st.jobs, st.results, st.m), moves)
             && Drained(RunSchedule(workers, st.jobs, provider, Start(st.jobs, st.results, st.m), moves))
    requires i < |results| && results[i].item.status == P.Rename
    ensures var st := PrepareAll(cfg, now, ctx, results, m);
            var pool := RunSchedule(workers, st.jobs, provider, Start(st.jobs, st.results, st.m), moves);
            && |pool.results| == |results|
            && pool.results[i].item == results[i].item
            && Accounted(cfg, pool.results[i], pool.m.intents)
            && |pool.stages| == |st.jobs|
            && (SubmittedWithError(pool.results[i]) <==> AcceptanceLost(st.jobs, provider, pool, i))
            && (st.m.script == [] && Uncancelled(moves) ==> Told(cfg, pool.results[i], pool.m.intents))
  {
    var st := PrepareAll(cfg, now, ctx, results, m);
    var stop := PrepareAllIsDisjoint(cfg, now, ctx, results, m);
    var start := Start(st.jobs, st.results, st.m);
    StartIsConsistent(st.jobs, provider, st.results, st.m);
    SchedulesStayConsistent(workers, st.jobs, provider, start, start, moves);
    if st.m.script == [] && Uncancelled(moves) {
      SchedulesStayClean(workers, st.jobs, provider, start, moves);
    }
    PoolTells(cfg, results, st, provider, RunSchedule(workers, st.jobs, provider, start, moves), i);
  }

  // The instants reported.

  /** Whether an identical request, made at the instant `later`, is answered pending. */
  ghost predicate StillPending(cfg: Settings, m: Machine, item: P.Item, later: int) {
    var answer := Prepare(m, RequestFor(cfg, later, item)).1;
    answer.Decided? && answer.decision.disposition == DispositionPending
  }

  lemma WaitingUntil(cfg: Settings, r: ApplyResult, m: Machine, later: int)
    requires Waits(cfg, r, m.intents) && ValidRequest(RequestFor(cfg, later, r.item))
    ensures StillPending(cfg, m, r.item, later) <==> later < r.retryAt
  {
  }

  lemma SubmittedForEver(cfg: Settings, r: ApplyResult, m: Machine, later: int)
    requires Entered(r, m.intents) && m.intents[ItemKey(r.item)].status == IntentSubmitted
    requires ValidRequest(RequestFor(cfg, later, r.item))
    ensures StillPending(cfg, m, r.item, later)
  {
  }

  /**
   * The retry time reported by a full cycle is the first instant at which asking again for the same
   * rename stops being answered pending; a rename reported pending or submitted without one, and
   * without an error, is answered pending for ever.
   */
  lemma RetryTimesAreExact(cfg: Settings, now: int, ctx: Context, results: seq<ApplyResult>, m: Machine, workers: nat,
                           provider: Job -> Reply, moves: seq<Move>, i: nat, later: int)
    requires Clocked(cfg, m) && now > ZERO_TIME
    requires DistinctItems(results) && Unapplied(results) && Requestable(cfg, now, results)
    requires var st := PrepareAll(cfg, now, ctx, results, m);
             && !st.failed
             && Schedule(workers, st.jobs, provider, Start(st.jobs, st.results, st.m), moves)
             && Drained(RunSchedule(workers, st.jobs, provider, Start(st.jobs, st.results, st.m), moves))
    requires i < |results| && results[i].item.status == P.Rename
    ensures var st := PrepareAll(cfg, now, ctx, results, m);
            var pool := RunSchedule(workers, st.jobs, provider, Start(st.jobs, st.results, st.m), moves);
            && |pool.results| == |results|
            && var r := pool.results[i];
               && (r.action == ActionPending && r.retryAt != ZERO_TIME ==>
                     (StillPending(cfg, pool.m, results[i].item, later) <==> later < r.retryAt))
               && (SubmittedWithError(r) ==>
                     (StillPending(cfg, pool.m, results[i].item, later) <==> later < r.retryAt))
               && (r.action == ActionPending && r.retryAt == ZERO_TIME ==>
                     StillPending(cfg, pool.m, results[i].item, later))
               && (r.action == ActionSubmitted && r.error == "" ==> StillPending(cfg, pool.m, results[i].item, later))
               && (r.action == ActionFailed ==> !StillPending(cfg, pool.m, results[i].item, later))
  {
    ReportsMatchLedger(cfg, now, ctx, results, m, workers, provider, moves, i);
    var st := PrepareAll(cfg, now, ctx, results, m);
    var pool := RunSchedule(workers, st.jobs, provider, Start(st.jobs, st.results, st.m), moves);
    var r := pool.results[i];
    assert ValidRequest(RequestFor(cfg, now, r.item));
    if (r.action == ActionPending && r.retryAt != ZERO_TIME) || SubmittedWithError(r) {
      WaitingUntil(cfg, r, pool.m, later);
    } else if r.action == ActionPending || (r.action == ActionSubmitted && r.error == "") {
      SubmittedForEver(cfg, r, pool.m, later);
    }
  }
}
