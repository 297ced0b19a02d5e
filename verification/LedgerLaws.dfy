/** What every ledger operation keeps, whether its saves succeed or fail. */
module LedgerLaws {
  import opened Basics
  import opened Sorting
  import opened LedgerModel

  datatype Operation =
    | DoPrepare(request: Request)
    | DoMark(key: Key, serialNumber: string, desiredName: string, outcome: Outcome)
    | DoObserve(key: Key, serialNumber: string, currentName: string)
    | DoCancel(key: Key)

  function Target(op: Operation): Key {
    if op.DoPrepare? then op.request.key else op.key
  }

  ghost function Perform(m: Machine, op: Operation): Machine {
    match op
    case DoPrepare(r) => Prepare(m, r).0
    case DoMark(key, serial, name, o) => Mark(m, key, serial, name, o).0
    case DoObserve(key, serial, name) => Observe(m, key, serial, name).0
    case DoCancel(key) => Cancel(m, key).0
  }

  ghost function PerformAll(m: Machine, ops: seq<Operation>): Machine
    decreases |ops|
  {
    if ops == [] then m else PerformAll(Perform(m, ops[0]), ops[1..])
  }

  /** Equal except possibly at `key`. */
  ghost predicate AgreeOff(a: map<Key, Intent>, b: map<Key, Intent>, key: Key) {
    a - {key} == b - {key}
  }

  /**
   * The effect any operation on `key` may have: the map changes at `key` only, and the store keeps
   * its contents or holds a snapshot that differs from the old map at `key` only. With the clock
   * set, valid intents stay valid.
   */
  ghost predicate Touches(m: Machine, n: Machine, key: Key, clock: bool) {
    && Follows(m, n.intents, key, clock)
    && (n.disk == m.disk || Stored(m, n.disk, key, clock))
  }

  ghost predicate Follows(m: Machine, next: map<Key, Intent>, key: Key, clock: bool) {
    && AgreeOff(m.intents, next, key)
    && Keyed(next)
    && (clock && AllValid(m.intents) ==> AllValid(next))
  }

  ghost predicate Stored(m: Machine, disk: seq<Intent>, key: Key, clock: bool) {
    exists d: map<Key, Intent> :: Follows(m, d, key, clock) && disk == Snapshot(d)
  }

  lemma CommitTouches(m: Machine, next: map<Key, Intent>, key: Key, clock: bool)
    requires Keyed(m.intents) && Follows(m, next, key, clock)
    ensures Touches(m, Commit(m, next).0, key, clock)
  {
    assert Follows(m, m.intents, key, clock);
    assert Stored(m, Snapshot(next), key, clock);
  }

  lemma PutTouches(m: Machine, key: Key, i: Intent, clock: bool)
    requires Keyed(m.intents) && IntentKey(i) == key
    requires clock && AllValid(m.intents) ==> ValidIntent(i)
    ensures Touches(m, Put(m, key, i).0, key, clock)
  {
    assert AgreeOff(m.intents, m.intents[key := i], key);
    CommitTouches(m, m.intents[key := i], key, clock);
  }

  lemma DeleteTouches(m: Machine, key: Key, clock: bool)
    requires Keyed(m.intents)
    ensures Touches(m, Delete(m, key).0, key, clock)
    ensures Touches(m, m, key, clock)
  {
    assert AgreeOff(m.intents, m.intents - {key}, key);
    CommitTouches(m, m.intents - {key}, key, clock);
  }

  lemma TouchesTwice(a: Machine, b: Machine, c: Machine, key: Key, clock: bool)
    requires Touches(a, b, key, clock) && Touches(b, c, key, clock)
    ensures Touches(a, c, key, clock)
  {
    if c.disk != b.disk {
      var d: map<Key, Intent> :| Follows(b, d, key, clock) && c.disk == Snapshot(d);
      assert Follows(a, d, key, clock);
    }
  }

  lemma PrepareAgainTouches(m: Machine, r: Request, clock: bool)
    requires Keyed(m.intents) && ValidRequest(r) && r.key in m.intents
    requires clock ==> r.now != ZERO_TIME
    ensures Touches(m, PrepareAgain(m, r, m.intents[r.key]).0, r.key, clock)
  {
    var existing := m.intents[r.key];
    var after := PrepareAgain(m, r, existing).0;
    if after == m {
      DeleteTouches(m, r.key, clock);
    } else if existing.attempts >= r.maxAttempts {
      var failed := existing.(status := IntentFailed, failure := ExhaustedFailure(existing));
      PutTouches(m, r.key, failed, clock);
      assert after == Put(m, r.key, failed).0;
    } else {
      var again :=
        existing.(attemptedAt := r.now, attempts := existing.attempts + 1, status := IntentRetrying, failure := "");
      PutTouches(m, r.key, again, clock);
      assert after == Put(m, r.key, again).0;
    }
  }

  lemma PrepareCurrentTouches(m: Machine, r: Request, clock: bool)
    requires Keyed(m.intents) && ValidRequest(r)
    requires clock ==> r.now != ZERO_TIME
    ensures Touches(m, PrepareCurrent(m, r).0, r.key, clock)
  {
    if r.currentName == r.desiredName {
      DeleteTouches(m, r.key, clock);
    } else if r.key !in m.intents || m.intents[r.key].desiredName != r.desiredName {
      PutTouches(m, r.key, NewIntent(r), clock);
    } else {
      PrepareAgainTouches(m, r, clock);
    }
  }

  /** The clock has been read: Prepare is never asked at the zero instant. */
  ghost predicate TimedOperation(op: Operation) {
    op.DoPrepare? ==> op.request.now != ZERO_TIME
  }

  /**
   * No operation, successful or failed, alters the intent of any other device, and with a real
   * clock every operation leaves intents that Open will accept.
   */
  lemma PerformTouches(m: Machine, op: Operation)
    requires Keyed(m.intents)
    ensures Touches(m, Perform(m, op), Target(op), TimedOperation(op))
  {
    var clock := TimedOperation(op);
    DeleteTouches(m, Target(op), clock);
    match op
    case DoPrepare(r) =>
      if ValidRequest(r) {
        if r.key in m.intents && m.intents[r.key].serialNumber != r.serialNumber {
          if Delete(m, r.key).1 {
            PrepareCurrentTouches(Delete(m, r.key).0, r, clock);
            TouchesTwice(m, Delete(m, r.key).0, Perform(m, op), r.key, clock);
          }
        } else {
          PrepareCurrentTouches(m, r, clock);
        }
      }
    case DoMark(key, serial, name, o) =>
      if Current(m.intents, key, serial, name) {
        PutTouches(m, key, MarkedIntent(m.intents[key], o), clock);
      }
    case DoObserve(key, serial, name) =>
    case DoCancel(key) =>
  }

  /** A first attempt is acceptable to Open exactly when the clock was set. */
  lemma FirstAttemptNeedsClock(r: Request)
    requires ValidRequest(r)
    ensures ValidIntent(NewIntent(r)) <==> r.now != ZERO_TIME
    ensures Load([NewIntent(r)]) == None <==> r.now == ZERO_TIME
  {
    assert LoadFrom([NewIntent(r)], 0, map[]) ==
      if ValidIntent(NewIntent(r)) then LoadFrom([NewIntent(r)], 1, map[IntentKey(NewIntent(r)) := NewIntent(r)])
      else None;
  }

  // Agreement with an atomic store.

  /** Failed saves leave the store alone. */
  ghost predicate Atomic(script: seq<SaveOutcome>) {
    forall i | 0 <= i < |script| :: script[i] != FailedAfter
  }

  /** The store holds exactly the ledger's map. */
  ghost predicate InStep(m: Machine) {
    Keyed(m.intents) && Atomic(m.script) && m.disk == Snapshot(m.intents)
  }

  lemma CommitInStep(m: Machine, next: map<Key, Intent>)
    requires InStep(m) && Keyed(next)
    ensures InStep(Commit(m, next).0)
    ensures Commit(m, next).1 ==> Commit(m, next).0.intents == next
    ensures !Commit(m, next).1 ==> Commit(m, next).0.intents == m.intents && Commit(m, next).0.disk == m.disk
  {
  }

  lemma PrepareCurrentInStep(m: Machine, r: Request)
    requires InStep(m) && ValidRequest(r)
    ensures InStep(PrepareCurrent(m, r).0)
  {
    if r.currentName == r.desiredName {
      CommitInStep(m, m.intents - {r.key});
    } else if r.key !in m.intents || m.intents[r.key].desiredName != r.desiredName {
      CommitInStep(m, m.intents[r.key := NewIntent(r)]);
    } else {
      PrepareAgainInStep(m, r);
    }
  }

  lemma PrepareAgainInStep(m: Machine, r: Request)
    requires InStep(m) && ValidRequest(r) && r.key in m.intents
    ensures InStep(PrepareAgain(m, r, m.intents[r.key]).0)
  {
    var existing := m.intents[r.key];
    if existing.status != IntentSubmitted && existing.status != IntentFailed
      && r.now >= existing.attemptedAt + r.retryAfter {
      if existing.attempts >= r.maxAttempts {
        CommitInStep(m, m.intents[r.key := existing.(status := IntentFailed, failure := ExhaustedFailure(existing))]);
      } else {
        var again :=
          existing.(attemptedAt := r.now, attempts := existing.attempts + 1, status := IntentRetrying, failure := "");
        CommitInStep(m, m.intents[r.key := again]);
      }
    }
  }

  /** After every operation, successful or failed, an atomic store equals the snapshot of the map. */
  lemma PerformInStep(m: Machine, op: Operation)
    requires InStep(m)
    ensures InStep(Perform(m, op))
  {
    match op
    case DoPrepare(r) =>
      if ValidRequest(r) {
        if r.key in m.intents && m.intents[r.key].serialNumber != r.serialNumber {
          CommitInStep(m, m.intents - {r.key});
          if Delete(m, r.key).1 {
            PrepareCurrentInStep(Delete(m, r.key).0, r);
          }
        } else {
          PrepareCurrentInStep(m, r);
        }
      }
    case DoMark(key, serial, name, o) =>
    case DoObserve(key, serial, name) => CommitInStep(m, m.intents - {key});
    case DoCancel(key) => CommitInStep(m, m.intents - {key});
  }

  /** Over any run of operations with a real clock, reopening the store gives back the ledger's map. */
  lemma {:induction false} RunsReopen(m: Machine, ops: seq<Operation>)
    requires InStep(m) && AllValid(m.intents)
    requires forall i | 0 <= i < |ops| :: TimedOperation(ops[i])
    ensures InStep(PerformAll(m, ops))
    ensures Load(PerformAll(m, ops).disk) == Some(PerformAll(m, ops).intents)
    ensures Ascending(PerformAll(m, ops).disk, IntentBelow)
    decreases |ops|
  {
    if ops == [] {
      LoadSnapshot(m.intents);
      SnapshotOrder(m.intents);
    } else {
      PerformInStep(m, ops[0]);
      PerformTouches(m, ops[0]);
      RunsReopen(Perform(m, ops[0]), ops[1..]);
    }
  }

  /** A failed prepare restores the map, unless it had to clear a stale serial number first. */
  lemma FailedPrepareRestores(m: Machine, r: Request)
    requires Prepare(m, r).1 == SaveFailed
    ensures Prepare(m, r).0.intents == m.intents
            || (&& r.key in m.intents && m.intents[r.key].serialNumber != r.serialNumber
                && Prepare(m, r).0.intents == m.intents - {r.key})
  {
  }

  /** The stale intent is lost exactly when its deletion was saved before the failure. */
  lemma FailedPrepareLosesStale(m: Machine, r: Request)
    requires Prepare(m, r).1 == SaveFailed
    ensures Prepare(m, r).0.intents != m.intents <==>
            r.key in m.intents && m.intents[r.key].serialNumber != r.serialNumber && NextSave(m.script) == Saved
  {
    if r.key in m.intents {
      assert r.key !in m.intents - {r.key};
    }
  }

  // Retry times.

  /** A waiting intent answers pending exactly until its retry time, and announces that time. */
  lemma RetryTimeIsExact(m: Machine, r: Request, later: int)
    requires ValidRequest(r) && r.currentName != r.desiredName
    requires Current(m.intents, r.key, r.serialNumber, r.desiredName)
    requires m.intents[r.key].status == IntentRetrying
    requires Prepare(m, r).1.Decided? && Prepare(m, r).1.decision.disposition == DispositionPending
    ensures var retryAt := Prepare(m, r).1.decision.retryAt;
            && retryAt == m.intents[r.key].attemptedAt + r.retryAfter
            && Prepare(m, r).0 == m
            && (later < retryAt <==>
                  && Prepare(m, r.(now := later)).1.Decided?
                  && Prepare(m, r.(now := later)).1.decision.disposition == DispositionPending)
  {
  }

  /** The operation is about another device, or still wants the name and sees it neither taken on nor given up. */
  ghost predicate Wants(op: Operation, key: Key, serialNumber: string, desiredName: string) {
    Target(op) == key ==>
      match op
      case DoPrepare(r) => WantsName(r, key, serialNumber, desiredName)
      case DoObserve(_, serial, current) => serial == serialNumber && current != desiredName
      case DoMark(_, serial, name, _) => serial != serialNumber || name != desiredName
      case DoCancel(_) => false
  }

  ghost predicate WantsName(r: Request, key: Key, serialNumber: string, desiredName: string) {
    r.key == key && r.serialNumber == serialNumber && r.desiredName == desiredName && r.currentName != desiredName
  }

  /** Accepted by the provider, or given up. */
  ghost predicate Final(i: Intent) {
    i.status == IntentSubmitted || i.status == IntentFailed
  }

  lemma FinalSurvives(m: Machine, op: Operation, key: Key)
    requires Keyed(m.intents) && key in m.intents && Final(m.intents[key])
    requires Wants(op, key, m.intents[key].serialNumber, m.intents[key].desiredName)
    ensures key in Perform(m, op).intents && Perform(m, op).intents[key] == m.intents[key]
    ensures Keyed(Perform(m, op).intents)
  {
    var n := Perform(m, op);
    PerformTouches(m, op);
    if Target(op) != key {
      assert key in m.intents - {Target(op)} && (m.intents - {Target(op)})[key] == m.intents[key];
      assert key in n.intents - {Target(op)} && (n.intents - {Target(op)})[key] == n.intents[key];
    }
  }

  /**
   * Once a rename has been accepted or has finally failed, no run that keeps wanting it, on whatever
   * other devices it operates and however its saves end, changes that or is told to submit again.
   */
  lemma {:induction false} FinalIsNeverResubmitted(m: Machine, ops: seq<Operation>, r: Request)
    requires Keyed(m.intents) && r.key in m.intents && Final(m.intents[r.key]) && ValidRequest(r)
    requires WantsName(r, r.key, m.intents[r.key].serialNumber, m.intents[r.key].desiredName)
    requires forall i | 0 <= i < |ops| :: Wants(ops[i], r.key, r.serialNumber, r.desiredName)
    ensures var n, existing := PerformAll(m, ops), m.intents[r.key];
            && r.key in n.intents && n.intents[r.key] == existing
            && Prepare(n, r).0 == n && Prepare(n, r).1.Decided?
            && Prepare(n, r).1.decision.disposition
               == (if existing.status == IntentSubmitted then DispositionPending else DispositionFailed)
    decreases |ops|
  {
    if ops != [] {
      FinalSurvives(m, ops[0], r.key);
      FinalIsNeverResubmitted(Perform(m, ops[0]), ops[1..], r);
    }
  }
}
