/**
 * Applying a plan: the prepare loop and the report of one submission (internal/app/service.go, apply
 * and submitRename).
 */
module ServiceModel {
  import opened Basics
  import opened Decimal
  import P = PlannerModel
  import opened LedgerModel

  datatype Action = NoAction | ActionFailed | ActionPending | ActionPlanned | ActionSubmitted

  datatype ApplyResult = ApplyResult(item: P.Item, action: Action, attempts: int, retryAt: int, error: string)

  /** A provider's answer: an error carries its text and, if it has one, its HTTP status. */
  datatype Reply = Renamed | Refused(text: string, status: Option<int>)

  predicate PermanentStatus(code: int) {
    code == 400 || code == 404 || code == 405 || code == 410 || code == 422
  }

  /** Only a refusal with one of five statuses is final. */
  function OutcomeOf(reply: Reply): (o: Outcome)
    ensures o.Rejected? <==> reply.Refused? && reply.status.Some? && reply.status.value in {400, 404, 405, 410, 422}
    ensures o.Accepted? <==> reply.Renamed?
  {
    match reply
    case Renamed => Accepted
    case Refused(text, status) =>
      if status.Some? && PermanentStatus(status.value) then Rejected(text) else Transient(text)
  }

  datatype Settings = Settings(retryAfter: int, maxAttempts: int)

  /** A rename to submit: the position of its result and what its ledger entry is filed under. */
  datatype Job = Job(index: nat, key: Key, serialNumber: string, desiredName: string, retryAt: int)

  function ItemKey(i: P.Item): Key {
    Key(i.source, i.namespace, i.id)
  }

  function StateSerialNumber(id: string, serialNumber: string): string {
    if serialNumber != "" then serialNumber else "provider-id:" + id
  }

  const SAVE_ERROR := "save rename intent"
  const REQUEST_ERROR := "invalid rename request"
  const CANCELLED := "context canceled"

  /** Whether the context turns out to be cancelled when it is looked at before result or job `k`. */
  type Context = nat -> bool

  function JobOf(index: nat, i: P.Item, retryAt: int): Job {
    Job(index, ItemKey(i), StateSerialNumber(i.id, i.serialNumber), i.desiredName, retryAt)
  }

  function RequestFor(cfg: Settings, now: int, i: P.Item): Request {
    Request(ItemKey(i), StateSerialNumber(i.id, i.serialNumber), i.currentName, i.desiredName, now,
            cfg.retryAfter, cfg.maxAttempts)
  }

  /** The loop's state; `failed` once an error has ended it. */
  datatype Loop = Loop(results: seq<ApplyResult>, m: Machine, jobs: seq<Job>, failed: bool)

  /** How a decision shows in the result; a submission stays planned until a worker reports. */
  function Noted(r: ApplyResult, d: Decision): ApplyResult {
    var noted := r.(attempts := d.attempts, retryAt := d.retryAt);
    match d.disposition
    case DispositionFailed => noted.(action := ActionFailed, error := d.failure)
    case DispositionPending => noted.(action := ActionPending)
    case DispositionSubmit => noted
    case DispositionObserved => noted.(action := NoAction)
  }

  /** The loop's state after the ledger's answer about result `k`. */
  ghost function Concluded(st: Loop, k: nat, m: Machine, answer: Answer): (n: Loop)
    requires k < |st.results|
    ensures |n.results| == |st.results|
  {
    var r := st.results[k];
    match answer
    case BadRequest => st.(m := m, results := st.results[k := r.(error := REQUEST_ERROR)], failed := true)
    case SaveFailed => st.(m := m, results := st.results[k := r.(error := SAVE_ERROR)], failed := true)
    case Decided(d) =>
      Loop(st.results[k := Noted(r, d)], m,
           if d.disposition == DispositionSubmit then st.jobs + [JobOf(k, r.item, d.retryAt)] else st.jobs,
           false)
  }

  ghost function PrepareOne(cfg: Settings, now: int, st: Loop, k: nat): (n: Loop)
    requires k < |st.results|
    ensures |n.results| == |st.results|
  {
    var r := st.results[k];
    if r.item.status != P.Rename then
      var serial := StateSerialNumber(r.item.id, r.item.serialNumber);
      var (m, cleared, ok) := Observe(st.m, ItemKey(r.item), serial, r.item.currentName);
      if ok then st.(m := m) else st.(m := m, results := st.results[k := r.(error := SAVE_ERROR)], failed := true)
    else
      var (m, answer) := Prepare(st.m, RequestFor(cfg, now, r.item));
      Concluded(st, k, m, answer)
  }

  /** The first error, or a cancelled context, ends the loop. */
  ghost function PrepareFrom(cfg: Settings, now: int, ctx: Context, st: Loop, k: nat): (n: Loop)
    ensures |n.results| == |st.results|
    decreases |st.results| - k
  {
    if k >= |st.results| || st.failed then st
    else if ctx(k) then st.(failed := true)
    else PrepareFrom(cfg, now, ctx, PrepareOne(cfg, now, st, k), k + 1)
  }

  ghost function PrepareAll(cfg: Settings, now: int, ctx: Context, results: seq<ApplyResult>, m: Machine): Loop {
    PrepareFrom(cfg, now, ctx, Loop(results, m, [], false), 0)
  }

  /** What a worker writes into its result once the ledger has answered. */
  function Report(r: ApplyResult, job: Job, o: Outcome, saved: bool): ApplyResult {
    match o
    case Accepted =>
      if saved then r.(action := ActionSubmitted, retryAt := ZERO_TIME)
      else r.(action := ActionSubmitted, error := "record submitted rename: " + SAVE_ERROR)
    case Rejected(reason) =>
      if saved then r.(error := reason, action := ActionFailed, retryAt := ZERO_TIME)
      else r.(error := reason + "\n" + SAVE_ERROR, action := ActionPending)
    case Transient(reason) =>
      r.(error := if saved then reason else reason + "\n" + SAVE_ERROR, action := ActionPending, retryAt := job.retryAt)
  }

  /** What it writes when the context is cancelled before the job's turn. */
  function Skipping(r: ApplyResult, job: Job): ApplyResult {
    r.(action := ActionPending, error := CANCELLED, retryAt := job.retryAt)
  }

  /** The error of a cycle: one entry for each result that carries an error, in result order. */
  function JoinedFrom(results: seq<ApplyResult>, k: nat): seq<(Key, string)>
    decreases |results| - k
  {
    if k >= |results| then []
    else if results[k].error != "" then [(ItemKey(results[k].item), results[k].error)] + JoinedFrom(results, k + 1)
    else JoinedFrom(results, k + 1)
  }

  // Asking again.

  predicate Submits(answer: Answer) {
    answer.Decided? && answer.decision.disposition == DispositionSubmit
  }

  /** The ledger once the reply to a submission decided at `now` has been marked, and whether the mark was saved. */
  ghost function AfterReply(cfg: Settings, now: int, i: P.Item, m: Machine, reply: Reply): (Machine, bool) {
    var t := JobOf(0, i, now + cfg.retryAfter);
    Mark(Prepare(m, RequestFor(cfg, now, i)).0, t.key, t.serialNumber, t.desiredName, OutcomeOf(reply))
  }

  predicate FinalReply(reply: Reply) {
    reply.Refused? && reply.status.Some? && reply.status.value in {400, 404, 405, 410, 422}
  }

  /**
   * Asking again after a submission, in full. An acceptance that was marked is pending for ever, and a
   * refusal with one of the five final statuses has failed with its reason. Anything else, and whatever
   * was not marked, is waiting: pending until the retry interval is over, then submitted once more or,
   * with its attempts used up, failed for good with the reason that was marked or, without one, with
   * their number. What has to be saved must be saved for either to be answered.
   */
  lemma SubmittedAgainExactly(cfg: Settings, now: int, later: int, i: P.Item, m: Machine, reply: Reply)
    requires Submits(Prepare(m, RequestFor(cfg, now, i)).1)
    ensures var attempts := Prepare(m, RequestFor(cfg, now, i)).1.decision.attempts;
            var (marked, saved) := AfterReply(cfg, now, i, m, reply);
            var again := Prepare(marked, RequestFor(cfg, later, i)).1;
            if saved && reply.Renamed? then again == Decided(Decision(DispositionPending, attempts, 0, ""))
            else if saved && FinalReply(reply) then
              again == Decided(Decision(DispositionFailed, attempts, 0, reply.text))
            else if later < now + cfg.retryAfter then
              again == Decided(Decision(DispositionPending, attempts, now + cfg.retryAfter, ""))
            else if marked.script != [] && marked.script[0] != Saved then again == SaveFailed
            else if attempts < cfg.maxAttempts then
              again == Decided(Decision(DispositionSubmit, attempts + 1, later + cfg.retryAfter, ""))
            else
              && attempts > 0
              && again == Decided(Decision(DispositionFailed, attempts, 0,
                                           if saved && reply.text != "" then reply.text
                                           else "rename submission failed after " + Itoa(attempts) + " attempts"))
  {
    ReplyIsEntered(cfg, now, i, m, reply);
    EntryAnswers(AfterReply(cfg, now, i, m, reply).0, RequestFor(cfg, later, i));
  }

  /** What the entry of a rename that is asked for again answers. */
  lemma EntryAnswers(m: Machine, r: Request)
    requires ValidRequest(r) && r.currentName != r.desiredName
    requires Current(m.intents, r.key, r.serialNumber, r.desiredName)
    ensures var e, again := m.intents[r.key], Prepare(m, r).1;
            if e.status == IntentSubmitted then again == Decided(Decision(DispositionPending, e.attempts, 0, ""))
            else if e.status == IntentFailed then
              again == Decided(Decision(DispositionFailed, e.attempts, 0, e.failure))
            else if r.now < e.attemptedAt + r.retryAfter then
              again == Decided(Decision(DispositionPending, e.attempts, e.attemptedAt + r.retryAfter, ""))
            else if m.script != [] && m.script[0] != Saved then again == SaveFailed
            else if e.attempts < r.maxAttempts then
              again == Decided(Decision(DispositionSubmit, e.attempts + 1, r.now + r.retryAfter, ""))
            else again == Decided(Decision(DispositionFailed, e.attempts, 0, ExhaustedFailure(e)))
  {
  }

  /** What the reply leaves of the entry it is about. */
  lemma ReplyIsEntered(cfg: Settings, now: int, i: P.Item, m: Machine, reply: Reply)
    requires Submits(Prepare(m, RequestFor(cfg, now, i)).1)
    ensures var r, attempts := RequestFor(cfg, now, i), Prepare(m, RequestFor(cfg, now, i)).1.decision.attempts;
            var (marked, saved) := AfterReply(cfg, now, i, m, reply);
            && ValidRequest(r) && r.currentName != r.desiredName
            && Current(marked.intents, r.key, r.serialNumber, r.desiredName)
            && var e := marked.intents[r.key];
               && e.attemptedAt == now && e.attempts == attempts
               && if !saved then e.status == IntentRetrying && e.failure == ""
                  else if reply.Renamed? then e.status == IntentSubmitted
                  else e.failure == reply.text
                       && e.status == if FinalReply(reply) then IntentFailed else IntentRetrying
  {
    var r := RequestFor(cfg, now, i);
    SubmissionIsEntered(m, r);
    var prepared := Prepare(m, r).0;
    var entry := prepared.intents[r.key];
    var (marked, saved) := AfterReply(cfg, now, i, m, reply);
    assert marked.intents
           == if saved then prepared.intents[r.key := MarkedIntent(entry, OutcomeOf(reply))] else prepared.intents;
  }

  /** A decision to submit leaves the attempt in the ledger. */
  lemma SubmissionIsEntered(m: Machine, r: Request)
    requires Prepare(m, r).1.Decided? && Prepare(m, r).1.decision.disposition == DispositionSubmit
    ensures var n, d := Prepare(m, r).0, Prepare(m, r).1.decision;
            && ValidRequest(r) && r.currentName != r.desiredName
            && Current(n.intents, r.key, r.serialNumber, r.desiredName)
            && n.intents[r.key].attemptedAt == r.now && n.intents[r.key].attempts == d.attempts
            && n.intents[r.key].status == IntentRetrying && n.intents[r.key].failure == ""
            && d.retryAt == r.now + r.retryAfter
  {
  }
}
