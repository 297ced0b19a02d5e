/**
 * Reconcile cycles over the ledger as a state machine: prepare, call, mark, observe, save failures
 * and crashes at any point (internal/app/service.go with internal/state/ledger.go).
 */
module Protocol {
  import opened Basics
  import opened LedgerModel
  import opened LedgerLaws
  import opened LedgerAnswers

  datatype Config = Config(retryAfter: int, maxAttempts: int)

  datatype Phase = Idle | Preparing | Working

  datatype Job = Job(serialNumber: string, desiredName: string, called: bool)

  /** `prepared` holds the devices this cycle has dealt with: the planner gives each at most one item. */
  datatype System = System(m: Machine, phase: Phase, now: int, prepared: set<Key>, jobs: map<Key, Job>)

  datatype Event =
    | BeginCycle(now: int)
    | PrepareDevice(key: Key, serialNumber: string, currentName: string, desiredName: string)
    | ObserveDevice(key: Key, serialNumber: string, currentName: string)
    | AbortCycle
    | StartWorkers
    | CallProvider(key: Key)
    | SkipJob(key: Key)
    | MarkJob(key: Key, outcome: Outcome)
    | EndCycle
    | Crash

  function RequestOf(cfg: Config, s: System, e: Event): Request
    requires e.PrepareDevice?
  {
    Request(e.key, e.serialNumber, e.currentName, e.desiredName, s.now, cfg.retryAfter, cfg.maxAttempts)
  }

  predicate Submits(answer: Answer) {
    answer.Decided? && answer.decision.disposition == DispositionSubmit
  }

  /** An error while preparing or observing ends the cycle; jobs prepared so far are never run. */
  ghost function AfterPrepare(s: System, e: Event, m: Machine, answer: Answer): System
    requires e.PrepareDevice?
  {
    if !answer.Decided? then s.(m := m, phase := Idle, jobs := map[])
    else if Submits(answer) then
      s.(m := m, prepared := s.prepared + {e.key}, jobs := s.jobs[e.key := Job(e.serialNumber, e.desiredName, false)])
    else s.(m := m, prepared := s.prepared + {e.key})
  }

  /** None: the event cannot happen in this state. */
  ghost function Step(cfg: Config, s: System, e: Event): Option<System> {
    match e
    case BeginCycle(now) =>
      if s.phase == Idle && now != ZERO_TIME then Some(System(s.m, Preparing, now, {}, map[])) else None
    case PrepareDevice(key, serial, current, desired) =>
      if s.phase == Preparing && key !in s.prepared then
        var (m, answer) := Prepare(s.m, RequestOf(cfg, s, e));
        Some(AfterPrepare(s, e, m, answer))
      else None
    case ObserveDevice(key, serial, current) =>
      if s.phase == Preparing && key !in s.prepared then
        var (m, cleared, ok) := Observe(s.m, key, serial, current);
        if ok then Some(s.(m := m, prepared := s.prepared + {key})) else Some(s.(m := m, phase := Idle, jobs := map[]))
      else None
    case AbortCycle => if s.phase == Preparing then Some(s.(phase := Idle, jobs := map[])) else None
    case StartWorkers => if s.phase == Preparing then Some(s.(phase := Working)) else None
    case CallProvider(key) =>
      if s.phase == Working && key in s.jobs && !s.jobs[key].called
      then Some(s.(jobs := s.jobs[key := s.jobs[key].(called := true)])) else None
    case SkipJob(key) =>
      if s.phase == Working && key in s.jobs && !s.jobs[key].called then Some(s.(jobs := s.jobs - {key})) else None
    case MarkJob(key, outcome) =>
      if s.phase == Working && key in s.jobs && s.jobs[key].called then
        Some(s.(m := Mark(s.m, key, s.jobs[key].serialNumber, s.jobs[key].desiredName, outcome).0,
                jobs := s.jobs - {key}))
      else None
    case EndCycle => if s.phase == Working && s.jobs == map[] then Some(s.(phase := Idle)) else None
    case Crash =>
      match Load(s.m.disk)
      case None => None
      case Some(intents) => Some(System(s.m.(intents := intents), Idle, s.now, {}, map[]))
  }

  /**
   * After a crash the process starts again, without jobs, on a map that holds exactly the stored
   * intents; it cannot start on a store with a malformed or repeated intent.
   */
  lemma CrashReopens(cfg: Config, s: System)
    ensures match Step(cfg, s, Crash)
            case None => !Loadable(s.m.disk, |s.m.disk|)
            case Some(n) =>
              && HoldsFirst(s.m.disk, |s.m.disk|, n.m.intents)
              && n.m.disk == s.m.disk && n.phase == Idle && n.jobs == map[]
  {
    LoadExactly(s.m.disk);
  }

  // Safety for every device.

  /** `intents` holds a retrying intent for exactly this job. */
  ghost predicate WrittenAhead(intents: map<Key, Intent>, key: Key, job: Job) {
    Current(intents, key, job.serialNumber, job.desiredName) && intents[key].status == IntentRetrying
  }

  ghost predicate Sound(m: Machine) {
    Keyed(m.intents) && AllValid(m.intents) && Load(m.disk).Some?
  }

  ghost predicate Safe(s: System) {
    && Sound(s.m)
    && (s.phase != Idle ==> s.now != ZERO_TIME)
    && (s.phase == Idle ==> s.jobs == map[])
    && s.jobs.Keys <= s.prepared
    && forall key | key in s.jobs ::
         WrittenAhead(s.m.intents, key, s.jobs[key]) && WrittenAhead(Load(s.m.disk).value, key, s.jobs[key])
  }

  lemma TouchesSound(m: Machine, n: Machine, key: Key)
    requires Sound(m) && Touches(m, n, key, true)
    ensures Sound(n)
    ensures n.disk == m.disk || AgreeOff(m.intents, Load(n.disk).value, key)
  {
    if n.disk != m.disk {
      var d: map<Key, Intent> :| Follows(m, d, key, true) && n.disk == Snapshot(d);
      LoadSnapshot(d);
    }
  }

  lemma AgreeAt(a: map<Key, Intent>, b: map<Key, Intent>, key: Key, k: Key)
    requires AgreeOff(a, b, key) && k != key
    ensures k in a <==> k in b
    ensures k in a ==> a[k] == b[k]
  {
    assert k in a <==> k in a - {key};
    assert k in b <==> k in b - {key};
    if k in a {
      assert a[k] == (a - {key})[k];
      assert b[k] == (b - {key})[k];
    }
  }

  /** What holds of another device's entry in map and store still holds after an operation on `key`. */
  lemma OtherEntries(m: Machine, n: Machine, key: Key, k: Key)
    requires Sound(m) && Touches(m, n, key, true) && k != key
    ensures Sound(n)
    ensures k in n.intents <==> k in m.intents
    ensures k in n.intents ==> n.intents[k] == m.intents[k]
    ensures var before, after := Load(m.disk).value, Load(n.disk).value;
            || ((k in after <==> k in before) && (k in after ==> after[k] == before[k]))
            || ((k in after <==> k in m.intents) && (k in after ==> after[k] == m.intents[k]))
  {
    TouchesSound(m, n, key);
    AgreeAt(m.intents, n.intents, key, k);
    if n.disk != m.disk {
      AgreeAt(m.intents, Load(n.disk).value, key, k);
    }
  }

  /** Jobs of other devices stay written ahead. */
  lemma JobsStay(s: System, n: Machine, key: Key)
    requires Safe(s) && Touches(s.m, n, key, true)
    ensures Sound(n)
    ensures forall k | k in s.jobs && k != key ::
              WrittenAhead(n.intents, k, s.jobs[k]) && WrittenAhead(Load(n.disk).value, k, s.jobs[k])
  {
    TouchesSound(s.m, n, key);
    forall k | k in s.jobs && k != key
      ensures WrittenAhead(n.intents, k, s.jobs[k]) && WrittenAhead(Load(n.disk).value, k, s.jobs[k])
    {
      OtherEntries(s.m, n, key, k);
    }
  }

  lemma CommittedSnapshot(m: Machine, next: map<Key, Intent>)
    requires Keyed(next) && AllValid(next) && Commit(m, next).1
    ensures Commit(m, next).0.intents == next && Load(Commit(m, next).0.disk) == Some(next)
  {
    LoadSnapshot(next);
  }

  /** A decision to submit has been saved: map and store hold the retrying intent. */
  lemma SubmitIsSaved(m: Machine, r: Request)
    requires Keyed(m.intents) && AllValid(m.intents) && r.now != ZERO_TIME && Submits(Prepare(m, r).1)
    ensures WrittenAhead(Prepare(m, r).0.intents, r.key, Job(r.serialNumber, r.desiredName, false))
    ensures Load(Prepare(m, r).0.disk) == Some(Prepare(m, r).0.intents)
  {
    var stale := r.key in m.intents && m.intents[r.key].serialNumber != r.serialNumber;
    var m1 := if stale then Delete(m, r.key).0 else m;
    assert Prepare(m, r) == PrepareCurrent(m1, r);
    assert Keyed(m1.intents) && AllValid(m1.intents);
    assert r.key in m1.intents ==> m1.intents[r.key].serialNumber == r.serialNumber;
    SubmitCurrentIsSaved(m1, r);
  }

  lemma SubmitCurrentIsSaved(m: Machine, r: Request)
    requires ValidRequest(r) && Keyed(m.intents) && AllValid(m.intents) && r.now != ZERO_TIME
    requires r.key in m.intents ==> m.intents[r.key].serialNumber == r.serialNumber
    requires Submits(PrepareCurrent(m, r).1)
    ensures WrittenAhead(PrepareCurrent(m, r).0.intents, r.key, Job(r.serialNumber, r.desiredName, false))
    ensures Load(PrepareCurrent(m, r).0.disk) == Some(PrepareCurrent(m, r).0.intents)
  {
    if r.key !in m.intents || m.intents[r.key].desiredName != r.desiredName {
      CommittedSnapshot(m, m.intents[r.key := NewIntent(r)]);
    } else {
      var e := m.intents[r.key];
      var again := e.(attemptedAt := r.now, attempts := e.attempts + 1, status := IntentRetrying, failure := "");
      CommittedSnapshot(m, m.intents[r.key := again]);
    }
  }

  lemma PrepareStaysSafe(cfg: Config, s: System, e: Event)
    requires Safe(s) && e.PrepareDevice? && Step(cfg, s, e).Some?
    ensures Safe(Step(cfg, s, e).value)
  {
    var r := RequestOf(cfg, s, e);
    PerformTouches(s.m, DoPrepare(r));
    JobsStay(s, Prepare(s.m, r).0, e.key);
    if Submits(Prepare(s.m, r).1) {
      SubmitIsSaved(s.m, r);
    }
  }

  lemma ObserveStaysSafe(cfg: Config, s: System, e: Event)
    requires Safe(s) && e.ObserveDevice? && Step(cfg, s, e).Some?
    ensures Safe(Step(cfg, s, e).value)
  {
    PerformTouches(s.m, DoObserve(e.key, e.serialNumber, e.currentName));
    JobsStay(s, Observe(s.m, e.key, e.serialNumber, e.currentName).0, e.key);
  }

  lemma MarkStaysSafe(cfg: Config, s: System, e: Event)
    requires Safe(s) && e.MarkJob? && Step(cfg, s, e).Some?
    ensures Safe(Step(cfg, s, e).value)
  {
    var op := DoMark(e.key, s.jobs[e.key].serialNumber, s.jobs[e.key].desiredName, e.outcome);
    PerformTouches(s.m, op);
    JobsStay(s, Perform(s.m, op), e.key);
  }

  lemma CrashStaysSafe(cfg: Config, s: System)
    requires Safe(s)
    ensures Step(cfg, s, Crash).Some? && Safe(Step(cfg, s, Crash).value)
  {
    LoadFromGives(s.m.disk, 0, map[]);
  }

  /** Every event keeps the system safe, and after a crash the store can always be opened again. */
  lemma StepStaysSafe(cfg: Config, s: System, e: Event)
    requires Safe(s)
    ensures Step(cfg, s, e).Some? ==> Safe(Step(cfg, s, e).value)
    ensures Step(cfg, s, Crash).Some?
  {
    CrashStaysSafe(cfg, s);
    if Step(cfg, s, e).Some? {
      match e
      case PrepareDevice(_, _, _, _) => PrepareStaysSafe(cfg, s, e);
      case ObserveDevice(_, _, _) => ObserveStaysSafe(cfg, s, e);
      case MarkJob(_, _) => MarkStaysSafe(cfg, s, e);
      case _ =>
    }
  }

  /** A fresh process over an empty store; its saves may fail in any way. */
  function Fresh(script: seq<SaveOutcome>): System {
    System(Machine(map[], [], script), Idle, ZERO_TIME, {}, map[])
  }

  ghost function RunEvents(cfg: Config, s: System, events: seq<Event>): Option<System>
    decreases |events|
  {
    if events == [] then Some(s)
    else match Step(cfg, s, events[0])
      case None => None
      case Some(next) => RunEvents(cfg, next, events[1..])
  }

  lemma FreshIsSafe(script: seq<SaveOutcome>)
    ensures Safe(Fresh(script))
  {
  }

  lemma {:induction false} RunsStaySafe(cfg: Config, s: System, events: seq<Event>)
    requires Safe(s) && RunEvents(cfg, s, events).Some?
    ensures Safe(RunEvents(cfg, s, events).value)
    decreases |events|
  {
    if events != [] {
      StepStaysSafe(cfg, s, events[0]);
      RunsStaySafe(cfg, Step(cfg, s, events[0]).value, events[1..]);
    }
  }

  /**
   * In every run, whenever the provider is called for a device, the store already holds a retrying
   * intent for exactly that device, serial number and name, and reopening the store would find it.
   */
  lemma CallsAreWrittenAhead(cfg: Config, script: seq<SaveOutcome>, events: seq<Event>, key: Key)
    requires RunEvents(cfg, Fresh(script), events).Some?
    requires Step(cfg, RunEvents(cfg, Fresh(script), events).value, CallProvider(key)).Some?
    ensures var s := RunEvents(cfg, Fresh(script), events).value;
            && Load(s.m.disk).Some? && WrittenAhead(Load(s.m.disk).value, key, s.jobs[key])
            && WrittenAhead(s.m.intents, key, s.jobs[key])
  {
    FreshIsSafe(script);
    RunsStaySafe(cfg, Fresh(script), events);
  }
}
