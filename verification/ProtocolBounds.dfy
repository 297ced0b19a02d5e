/** How often, and how far apart, one rename is submitted over a whole run with crashes. */
module ProtocolBounds {
  import opened Basics
  import opened LedgerModel
  import opened LedgerLaws
  import opened Protocol

  /** One device, serial number and desired name. */
  datatype Rename = Rename(key: Key, serialNumber: string, desiredName: string)

  /** Provider calls made, instants of submit decisions, and whether a final answer has been saved. */
  datatype History = History(calls: nat, submits: seq<int>, settled: bool)

  /** The run keeps wanting this rename: no other name or serial number, and the name is not visible yet. */
  predicate Wanted(t: Rename, e: Event) {
    match e
    case PrepareDevice(key, serial, current, desired) =>
      key == t.key ==> serial == t.serialNumber && desired == t.desiredName && current != desired
    case ObserveDevice(key, serial, current) =>
      key == t.key ==> serial == t.serialNumber && current != t.desiredName
    case _ => true
  }

  ghost function Watch(cfg: Config, t: Rename, s: System, e: Event, h: History): History {
    match e
    case PrepareDevice(key, _, _, _) =>
      if key == t.key && Submits(Prepare(s.m, RequestOf(cfg, s, e)).1) then h.(submits := h.submits + [s.now]) else h
    case CallProvider(key) => if key == t.key then h.(calls := h.calls + 1) else h
    case MarkJob(key, outcome) =>
      if key == t.key && key in s.jobs && !outcome.Transient?
         && Mark(s.m, key, s.jobs[key].serialNumber, s.jobs[key].desiredName, outcome).1
      then h.(settled := true) else h
    case _ => h
  }

  predicate Spaced(submits: seq<int>, gap: int) {
    forall i | 0 <= i < |submits| - 1 :: submits[i] + gap <= submits[i + 1]
  }

  function Uncalled(t: Rename, s: System): nat {
    if t.key in s.jobs && !s.jobs[t.key].called then 1 else 0
  }

  /** The intent accounts for every call made or about to be made. */
  ghost predicate Entry(cfg: Config, t: Rename, s: System, h: History, i: Intent) {
    && i.serialNumber == t.serialNumber && i.desiredName == t.desiredName
    && h.calls + Uncalled(t, s) <= i.attempts <= cfg.maxAttempts
    && (h.submits != [] ==> h.submits[|h.submits| - 1] <= i.attemptedAt)
    && (h.settled ==> i.status != IntentRetrying)
  }

  /** What map and store each know about the rename. */
  ghost predicate Recorded(cfg: Config, t: Rename, s: System, h: History, intents: map<Key, Intent>) {
    if t.key in intents then Entry(cfg, t, s, h, intents[t.key])
    else h == History(0, [], false) && t.key !in s.jobs
  }

  ghost predicate Bounded(cfg: Config, t: Rename, s: System, h: History) {
    && Safe(s)
    && Recorded(cfg, t, s, h, s.m.intents)
    && Recorded(cfg, t, s, h, Load(s.m.disk).value)
    && Spaced(h.submits, cfg.retryAfter)
    && (h.settled ==> t.key !in s.jobs)
  }

  ghost predicate Sensible(cfg: Config) {
    cfg.retryAfter > 0 && cfg.maxAttempts > 0
  }

  lemma SpacedMore(submits: seq<int>, gap: int, now: int)
    requires Spaced(submits, gap) && (submits != [] ==> submits[|submits| - 1] + gap <= now)
    ensures Spaced(submits + [now], gap)
  {
  }

  /** An operation on another device leaves what is recorded about this one. */
  lemma OthersStayRecorded(cfg: Config, t: Rename, s: System, h: History, n: System, key: Key)
    requires Bounded(cfg, t, s, h) && Touches(s.m, n.m, key, true) && key != t.key
    requires t.key in n.jobs ==> t.key in s.jobs && n.jobs[t.key] == s.jobs[t.key]
    ensures Sound(n.m)
    ensures Recorded(cfg, t, s, h, n.m.intents) && Recorded(cfg, t, s, h, Load(n.m.disk).value)
    ensures Recorded(cfg, t, n, h, n.m.intents) && Recorded(cfg, t, n, h, Load(n.m.disk).value)
  {
    OtherEntries(s.m, n.m, key, t.key);
  }

  /** A save about this device: the map takes `next` or stays, the store takes `next` or stays. */
  lemma CommitCases(m: Machine, next: map<Key, Intent>)
    requires Sound(m) && Keyed(next) && AllValid(next)
    ensures var (n, ok) := Commit(m, next);
            && (ok ==> n.intents == next && Load(n.disk) == Some(next))
            && (!ok ==> n.intents == m.intents && (Load(n.disk) == Load(m.disk) || Load(n.disk) == Some(next)))
  {
    LoadSnapshot(next);
  }

  /** A submit decision one interval after the last keeps decisions spaced. */
  lemma SubmitStaysSpaced(cfg: Config, t: Rename, s: System, h: History, e: Event)
    requires Spaced(h.submits, cfg.retryAfter) && !h.settled && e.PrepareDevice?
    requires h.submits != [] ==> h.submits[|h.submits| - 1] + cfg.retryAfter <= s.now
    ensures Spaced(Watch(cfg, t, s, e, h).submits, cfg.retryAfter) && !Watch(cfg, t, s, e, h).settled
  {
    SpacedMore(h.submits, cfg.retryAfter, s.now);
  }

  lemma FirstAttemptRecorded(cfg: Config, t: Rename, s: System, h: History, e: Event)
    requires Sensible(cfg) && Sound(s.m) && Wanted(t, e)
    requires Recorded(cfg, t, s, h, s.m.intents) && Recorded(cfg, t, s, h, Load(s.m.disk).value)
    requires e.PrepareDevice? && e.key == t.key && t.key !in s.m.intents && Step(cfg, s, e).Some?
    requires s.now != ZERO_TIME && ValidRequest(RequestOf(cfg, s, e))
    ensures var n, after := Step(cfg, s, e).value, Watch(cfg, t, s, e, h);
            && Load(n.m.disk).Some?
            && Recorded(cfg, t, n, after, n.m.intents) && Recorded(cfg, t, n, after, Load(n.m.disk).value)
  {
    var r := RequestOf(cfg, s, e);
    assert Prepare(s.m, r) == PrepareCurrent(s.m, r);
    PutTarget(cfg, t, s, NewIntent(r), Step(cfg, s, e).value, Watch(cfg, t, s, e, h));
  }

  lemma FirstAttempt(cfg: Config, t: Rename, s: System, h: History, e: Event)
    requires Sensible(cfg) && Bounded(cfg, t, s, h) && Wanted(t, e)
    requires e.PrepareDevice? && e.key == t.key && t.key !in s.m.intents && Step(cfg, s, e).Some?
    ensures Bounded(cfg, t, Step(cfg, s, e).value, Watch(cfg, t, s, e, h))
  {
    StepStaysSafe(cfg, s, e);
    if ValidRequest(RequestOf(cfg, s, e)) {
      FirstAttemptRecorded(cfg, t, s, h, e);
      SubmitStaysSpaced(cfg, t, s, h, e);
    }
  }

  /** Another attempt after the retry window: one more persisted attempt, one more permitted call. */
  lemma NextAttempt(cfg: Config, t: Rename, s: System, h: History, e: Event)
    requires Sensible(cfg) && Bounded(cfg, t, s, h) && Wanted(t, e)
    requires e.PrepareDevice? && e.key == t.key && t.key in s.m.intents && Step(cfg, s, e).Some?
    requires ValidRequest(RequestOf(cfg, s, e))
    requires s.m.intents[t.key].status == IntentRetrying && s.now >= s.m.intents[t.key].attemptedAt + cfg.retryAfter
    ensures Bounded(cfg, t, Step(cfg, s, e).value, Watch(cfg, t, s, e, h))
  {
    var r, existing := RequestOf(cfg, s, e), s.m.intents[t.key];
    assert t.key !in s.jobs;
    if existing.attempts >= cfg.maxAttempts {
      GiveUp(cfg, t, s, h, e);
    } else {
      TryAgain(cfg, t, s, h, e);
    }
  }

  lemma GiveUp(cfg: Config, t: Rename, s: System, h: History, e: Event)
    requires Sensible(cfg) && Bounded(cfg, t, s, h) && Wanted(t, e)
    requires e.PrepareDevice? && e.key == t.key && t.key in s.m.intents && Step(cfg, s, e).Some? && t.key !in s.jobs
    requires ValidRequest(RequestOf(cfg, s, e))
    requires s.m.intents[t.key].status == IntentRetrying && s.now >= s.m.intents[t.key].attemptedAt + cfg.retryAfter
    requires s.m.intents[t.key].attempts >= cfg.maxAttempts
    ensures Bounded(cfg, t, Step(cfg, s, e).value, Watch(cfg, t, s, e, h))
  {
    StepStaysSafe(cfg, s, e);
    var r, existing := RequestOf(cfg, s, e), s.m.intents[t.key];
    var failed := existing.(status := IntentFailed, failure := ExhaustedFailure(existing));
    assert Prepare(s.m, r) == PrepareAgain(s.m, r, existing);
    PutTarget(cfg, t, s, failed, Step(cfg, s, e).value, h);
  }

  lemma TryAgainRecorded(cfg: Config, t: Rename, s: System, h: History, e: Event)
    requires Bounded(cfg, t, s, h) && Wanted(t, e)
    requires e.PrepareDevice? && e.key == t.key && t.key in s.m.intents && Step(cfg, s, e).Some? && t.key !in s.jobs
    requires ValidRequest(RequestOf(cfg, s, e))
    requires s.m.intents[t.key].status == IntentRetrying && s.now >= s.m.intents[t.key].attemptedAt + cfg.retryAfter
    requires s.m.intents[t.key].attempts < cfg.maxAttempts
    ensures var n, after := Step(cfg, s, e).value, Watch(cfg, t, s, e, h);
            && Load(n.m.disk).Some?
            && Recorded(cfg, t, n, after, n.m.intents) && Recorded(cfg, t, n, after, Load(n.m.disk).value)
  {
    var r, existing := RequestOf(cfg, s, e), s.m.intents[t.key];
    var again :=
      existing.(attemptedAt := r.now, attempts := existing.attempts + 1, status := IntentRetrying, failure := "");
    assert Prepare(s.m, r) == PrepareAgain(s.m, r, existing);
    PutTarget(cfg, t, s, again, Step(cfg, s, e).value, Watch(cfg, t, s, e, h));
  }

  lemma TryAgain(cfg: Config, t: Rename, s: System, h: History, e: Event)
    requires Sensible(cfg) && Bounded(cfg, t, s, h) && Wanted(t, e)
    requires e.PrepareDevice? && e.key == t.key && t.key in s.m.intents && Step(cfg, s, e).Some? && t.key !in s.jobs
    requires ValidRequest(RequestOf(cfg, s, e))
    requires s.m.intents[t.key].status == IntentRetrying && s.now >= s.m.intents[t.key].attemptedAt + cfg.retryAfter
    requires s.m.intents[t.key].attempts < cfg.maxAttempts
    ensures Bounded(cfg, t, Step(cfg, s, e).value, Watch(cfg, t, s, e, h))
  {
    StepStaysSafe(cfg, s, e);
    TryAgainRecorded(cfg, t, s, h, e);
    SubmitStaysSpaced(cfg, t, s, h, e);
  }

  /** A save of `i` for this device: what map and store know afterwards. */
  lemma PutTarget(cfg: Config, t: Rename, s: System, i: Intent, n: System, h: History)
    requires Sound(s.m) && n.m == Put(s.m, t.key, i).0 && IntentKey(i) == t.key && ValidIntent(i)
    requires Entry(cfg, t, n, h, i)
    requires !Put(s.m, t.key, i).1 ==>
               Recorded(cfg, t, n, h, s.m.intents) && Recorded(cfg, t, n, h, Load(s.m.disk).value)
    ensures Load(n.m.disk).Some?
    ensures Recorded(cfg, t, n, h, n.m.intents) && Recorded(cfg, t, n, h, Load(n.m.disk).value)
  {
    CommitCases(s.m, s.m.intents[t.key := i]);
  }

  lemma PrepareOtherStaysBounded(cfg: Config, t: Rename, s: System, h: History, e: Event)
    requires Bounded(cfg, t, s, h)
    requires e.PrepareDevice? && e.key != t.key && Step(cfg, s, e).Some?
    ensures Bounded(cfg, t, Step(cfg, s, e).value, Watch(cfg, t, s, e, h))
  {
    StepStaysSafe(cfg, s, e);
    PerformTouches(s.m, DoPrepare(RequestOf(cfg, s, e)));
    OthersStayRecorded(cfg, t, s, h, Step(cfg, s, e).value, e.key);
  }

  /** Asking again while the intent waits, is accepted, has failed, or the request is refused. */
  lemma PrepareWaits(cfg: Config, t: Rename, s: System, h: History, e: Event)
    requires Bounded(cfg, t, s, h) && Wanted(t, e)
    requires e.PrepareDevice? && e.key == t.key && t.key in s.m.intents && Step(cfg, s, e).Some?
    requires ValidRequest(RequestOf(cfg, s, e)) ==>
               s.m.intents[t.key].status != IntentRetrying || s.now < s.m.intents[t.key].attemptedAt + cfg.retryAfter
    ensures Bounded(cfg, t, Step(cfg, s, e).value, Watch(cfg, t, s, e, h))
  {
    StepStaysSafe(cfg, s, e);
    assert ValidIntent(s.m.intents[t.key]);
    assert Prepare(s.m, RequestOf(cfg, s, e)).0 == s.m;
    assert !Submits(Prepare(s.m, RequestOf(cfg, s, e)).1);
  }

  lemma PrepareStaysBounded(cfg: Config, t: Rename, s: System, h: History, e: Event)
    requires Sensible(cfg) && Bounded(cfg, t, s, h) && Wanted(t, e)
    requires e.PrepareDevice? && Step(cfg, s, e).Some?
    ensures Bounded(cfg, t, Step(cfg, s, e).value, Watch(cfg, t, s, e, h))
  {
    if e.key != t.key {
      PrepareOtherStaysBounded(cfg, t, s, h, e);
    } else if t.key !in s.m.intents {
      FirstAttempt(cfg, t, s, h, e);
    } else if ValidRequest(RequestOf(cfg, s, e)) && s.m.intents[t.key].status == IntentRetrying
              && s.now >= s.m.intents[t.key].attemptedAt + cfg.retryAfter {
      NextAttempt(cfg, t, s, h, e);
    } else {
      PrepareWaits(cfg, t, s, h, e);
    }
  }

  lemma ObserveStaysBounded(cfg: Config, t: Rename, s: System, h: History, e: Event)
    requires Sensible(cfg) && Bounded(cfg, t, s, h) && Wanted(t, e)
    requires e.ObserveDevice? && Step(cfg, s, e).Some?
    ensures Bounded(cfg, t, Step(cfg, s, e).value, Watch(cfg, t, s, e, h))
  {
    StepStaysSafe(cfg, s, e);
    if e.key != t.key {
      PerformTouches(s.m, DoObserve(e.key, e.serialNumber, e.currentName));
      OthersStayRecorded(cfg, t, s, h, Step(cfg, s, e).value, e.key);
    } else {
      assert Observe(s.m, e.key, e.serialNumber, e.currentName).0 == s.m;
    }
  }

  lemma MarkOtherStaysBounded(cfg: Config, t: Rename, s: System, h: History, e: Event)
    requires Bounded(cfg, t, s, h) && e.MarkJob? && e.key != t.key && Step(cfg, s, e).Some?
    ensures Bounded(cfg, t, Step(cfg, s, e).value, Watch(cfg, t, s, e, h))
  {
    StepStaysSafe(cfg, s, e);
    PerformTouches(s.m, DoMark(e.key, s.jobs[e.key].serialNumber, s.jobs[e.key].desiredName, e.outcome));
    OthersStayRecorded(cfg, t, s, h, Step(cfg, s, e).value, e.key);
  }

  lemma MarkedEntry(cfg: Config, t: Rename, s: System, h: History, e: Event)
    requires Bounded(cfg, t, s, h) && e.MarkJob? && e.key == t.key && Step(cfg, s, e).Some?
    ensures t.key in s.m.intents && IntentKey(s.m.intents[t.key]) == t.key && ValidIntent(s.m.intents[t.key])
    ensures Step(cfg, s, e).value.m == Put(s.m, t.key, MarkedIntent(s.m.intents[t.key], e.outcome)).0
    ensures Entry(cfg, t, Step(cfg, s, e).value, Watch(cfg, t, s, e, h), MarkedIntent(s.m.intents[t.key], e.outcome))
  {
    assert WrittenAhead(s.m.intents, t.key, s.jobs[t.key]);
  }

  lemma UnmarkedEntries(cfg: Config, t: Rename, s: System, h: History, e: Event)
    requires Bounded(cfg, t, s, h) && e.MarkJob? && e.key == t.key && Step(cfg, s, e).Some?
    requires Watch(cfg, t, s, e, h) == h
    ensures Recorded(cfg, t, Step(cfg, s, e).value, h, s.m.intents)
    ensures Recorded(cfg, t, Step(cfg, s, e).value, h, Load(s.m.disk).value)
  {
  }

  /** The one mark that follows a call of this device. */
  lemma MarkTarget(cfg: Config, t: Rename, s: System, h: History, e: Event)
    requires Bounded(cfg, t, s, h) && e.MarkJob? && e.key == t.key && Step(cfg, s, e).Some?
    ensures Bounded(cfg, t, Step(cfg, s, e).value, Watch(cfg, t, s, e, h))
  {
    var n := Step(cfg, s, e).value;
    MarkedEntry(cfg, t, s, h, e);
    var i := MarkedIntent(s.m.intents[t.key], e.outcome);
    if !Put(s.m, t.key, i).1 {
      UnmarkedEntries(cfg, t, s, h, e);
    }
    PutTarget(cfg, t, s, i, n, Watch(cfg, t, s, e, h));
    StepStaysSafe(cfg, s, e);
  }

  lemma MarkStaysBounded(cfg: Config, t: Rename, s: System, h: History, e: Event)
    requires Bounded(cfg, t, s, h) && e.MarkJob? && Step(cfg, s, e).Some?
    ensures Bounded(cfg, t, Step(cfg, s, e).value, Watch(cfg, t, s, e, h))
  {
    if e.key != t.key {
      MarkOtherStaysBounded(cfg, t, s, h, e);
    } else {
      MarkTarget(cfg, t, s, h, e);
    }
  }

  /** The call uses up the attempt that was persisted for it. */
  lemma CallStaysBounded(cfg: Config, t: Rename, s: System, h: History, e: Event)
    requires Bounded(cfg, t, s, h) && e.CallProvider? && Step(cfg, s, e).Some?
    ensures Bounded(cfg, t, Step(cfg, s, e).value, Watch(cfg, t, s, e, h))
  {
    StepStaysSafe(cfg, s, e);
  }

  lemma SkipStaysBounded(cfg: Config, t: Rename, s: System, h: History, e: Event)
    requires Bounded(cfg, t, s, h) && e.SkipJob? && Step(cfg, s, e).Some?
    ensures Bounded(cfg, t, Step(cfg, s, e).value, Watch(cfg, t, s, e, h))
  {
    StepStaysSafe(cfg, s, e);
  }

  /** What is left is what the store recorded. */
  lemma CrashStaysBounded(cfg: Config, t: Rename, s: System, h: History, e: Event)
    requires Bounded(cfg, t, s, h) && e.Crash? && Step(cfg, s, e).Some?
    ensures Bounded(cfg, t, Step(cfg, s, e).value, Watch(cfg, t, s, e, h))
  {
    StepStaysSafe(cfg, s, e);
  }

  lemma BookkeepingStaysBounded(cfg: Config, t: Rename, s: System, h: History, e: Event)
    requires Bounded(cfg, t, s, h) && (e.BeginCycle? || e.AbortCycle? || e.StartWorkers? || e.EndCycle?)
             && Step(cfg, s, e).Some?
    ensures Bounded(cfg, t, Step(cfg, s, e).value, Watch(cfg, t, s, e, h))
  {
    StepStaysSafe(cfg, s, e);
  }

  lemma StepStaysBounded(cfg: Config, t: Rename, s: System, h: History, e: Event)
    requires Sensible(cfg) && Bounded(cfg, t, s, h) && Wanted(t, e) && Step(cfg, s, e).Some?
    ensures Bounded(cfg, t, Step(cfg, s, e).value, Watch(cfg, t, s, e, h))
    ensures h.settled ==> Watch(cfg, t, s, e, h) == h
  {
    if e.PrepareDevice? {
      PrepareStaysBounded(cfg, t, s, h, e);
    } else if e.ObserveDevice? {
      ObserveStaysBounded(cfg, t, s, h, e);
    } else if e.MarkJob? {
      MarkStaysBounded(cfg, t, s, h, e);
    } else if e.CallProvider? {
      CallStaysBounded(cfg, t, s, h, e);
    } else if e.SkipJob? {
      SkipStaysBounded(cfg, t, s, h, e);
    } else if e.Crash? {
      CrashStaysBounded(cfg, t, s, h, e);
    } else {
      BookkeepingStaysBounded(cfg, t, s, h, e);
    }
  }

  ghost function RunHistory(cfg: Config, t: Rename, s: System, events: seq<Event>, h: History): History
    decreases |events|
  {
    if events == [] || Step(cfg, s, events[0]) == None then h
    else RunHistory(cfg, t, Step(cfg, s, events[0]).value, events[1..], Watch(cfg, t, s, events[0], h))
  }

  ghost predicate AllWanted(t: Rename, events: seq<Event>) {
    forall i | 0 <= i < |events| :: Wanted(t, events[i])
  }

  lemma {:induction false} RunsStayBounded(cfg: Config, t: Rename, s: System, h: History, events: seq<Event>)
    requires Sensible(cfg) && Bounded(cfg, t, s, h) && AllWanted(t, events)
    requires RunEvents(cfg, s, events).Some?
    ensures Bounded(cfg, t, RunEvents(cfg, s, events).value, RunHistory(cfg, t, s, events, h))
    ensures h.settled ==> RunHistory(cfg, t, s, events, h) == h
    decreases |events|
  {
    if events != [] {
      StepStaysBounded(cfg, t, s, h, events[0]);
      RunsStayBounded(cfg, t, Step(cfg, s, events[0]).value, Watch(cfg, t, s, events[0], h), events[1..]);
    }
  }

  const NOTHING_YET := History(0, [], false)

  /**
   * In every run from an empty store that keeps wanting the rename, provider calls never exceed the
   * persisted attempts, which never exceed the limit; submit decisions are at least the retry
   * interval apart, across crashes and failed saves.
   */
  lemma SubmissionsAreBounded(cfg: Config, t: Rename, script: seq<SaveOutcome>, events: seq<Event>)
    requires Sensible(cfg) && AllWanted(t, events) && RunEvents(cfg, Fresh(script), events).Some?
    ensures var s := RunEvents(cfg, Fresh(script), events).value;
            var h := RunHistory(cfg, t, Fresh(script), events, NOTHING_YET);
            && Spaced(h.submits, cfg.retryAfter)
            && Load(s.m.disk).Some?
            && (h.calls > 0 ==> t.key in Load(s.m.disk).value && h.calls <= Load(s.m.disk).value[t.key].attempts)
            && (t.key in Load(s.m.disk).value ==> Load(s.m.disk).value[t.key].attempts <= cfg.maxAttempts)
            && h.calls <= cfg.maxAttempts
  {
    FreshIsSafe(script);
    RunsStayBounded(cfg, t, Fresh(script), NOTHING_YET, events);
  }

  /** Once an acceptance or a permanent rejection has been saved, the rest of the run submits and calls nothing. */
  lemma SettledStaysSettled(cfg: Config, t: Rename, script: seq<SaveOutcome>, events: seq<Event>, more: seq<Event>)
    requires Sensible(cfg) && AllWanted(t, events) && AllWanted(t, more)
    requires RunEvents(cfg, Fresh(script), events).Some?
    requires RunEvents(cfg, RunEvents(cfg, Fresh(script), events).value, more).Some?
    requires RunHistory(cfg, t, Fresh(script), events, NOTHING_YET).settled
    ensures var s := RunEvents(cfg, Fresh(script), events).value;
            var h := RunHistory(cfg, t, Fresh(script), events, NOTHING_YET);
            RunHistory(cfg, t, s, more, h) == h
  {
    FreshIsSafe(script);
    RunsStayBounded(cfg, t, Fresh(script), NOTHING_YET, events);
    RunsStayBounded(cfg, t, RunEvents(cfg, Fresh(script), events).value,
                    RunHistory(cfg, t, Fresh(script), events, NOTHING_YET), more);
  }
}
