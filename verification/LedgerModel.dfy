/** The rename ledger as functions of its map, the stored snapshot and the outcomes of saving (internal/state). */
module LedgerModel {
  import opened Basics
  import opened Sorting
  import opened Decimal

  /** Instants are integers; the zero time.Time is instant 0. */
  const ZERO_TIME := 0

  datatype IntentStatus = IntentFailed | IntentRetrying | IntentSubmitted | IntentOther(text: string)

  datatype Intent = Intent(
    source: string, namespace: string, deviceID: string, serialNumber: string, desiredName: string,
    attemptedAt: int, attempts: int, status: IntentStatus, failure: string)

  function IntentKey(i: Intent): Key {
    Key(i.source, i.namespace, i.deviceID)
  }

  datatype Disposition = DispositionFailed | DispositionObserved | DispositionPending | DispositionSubmit

  datatype Decision = Decision(disposition: Disposition, attempts: int, retryAt: int, failure: string)

  /** How a save ends: written, refused before the file was replaced, or reported as failed after it was. */
  datatype SaveOutcome = Saved | FailedBefore | FailedAfter

  /**
   * The ledger's map, what the store holds, and how the coming saves will end; once the script runs
   * out, saves succeed.
   */
  datatype Machine = Machine(intents: map<Key, Intent>, disk: seq<Intent>, script: seq<SaveOutcome>)

  predicate ValidIntent(i: Intent) {
    && i.source != "" && i.namespace != "" && i.deviceID != ""
    && i.serialNumber != "" && i.desiredName != ""
    && i.attemptedAt != ZERO_TIME && i.attempts > 0
    && !i.status.IntentOther?
  }

  /** Every intent sits under its own key. */
  ghost predicate Keyed(intents: map<Key, Intent>) {
    forall key | key in intents :: IntentKey(intents[key]) == key
  }

  ghost predicate AllValid(intents: map<Key, Intent>) {
    forall key | key in intents :: ValidIntent(intents[key])
  }

  predicate IntentBelow(a: Intent, b: Intent) {
    KeyBelow(IntentKey(a), IntentKey(b))
  }

  // Snapshots.

  function ValuesOf(intents: map<Key, Intent>, keys: seq<Key>): (values: seq<Intent>)
    requires forall i | 0 <= i < |keys| :: keys[i] in intents
    ensures |values| == |keys|
    ensures forall i | 0 <= i < |keys| :: values[i] == intents[keys[i]]
  {
    seq(|keys|, i requires 0 <= i < |keys| => intents[keys[i]])
  }

  ghost function SortedKeysOf(intents: map<Key, Intent>): (keys: seq<Key>)
    ensures forall i | 0 <= i < |keys| :: keys[i] in intents
  {
    SortSetMembers(intents.Keys, KeyBelow);
    var keys := SortSet(intents.Keys, KeyBelow);
    assert forall i | 0 <= i < |keys| :: keys[i] in Elements(keys);
    keys
  }

  /** The intents in ascending key order. */
  ghost function Snapshot(intents: map<Key, Intent>): seq<Intent> {
    ValuesOf(intents, SortedKeysOf(intents))
  }

  lemma SortedKeysOrder(intents: map<Key, Intent>)
    ensures Ascending(SortedKeysOf(intents), KeyBelow)
    ensures forall key :: key in SortedKeysOf(intents) <==> key in intents
  {
    KeyBelowLinear(intents.Keys);
    SortSetAscends(intents.Keys, KeyBelow);
    SortSetMembers(intents.Keys, KeyBelow);
    forall key ensures key in SortedKeysOf(intents) <==> key in intents {
      assert key in SortedKeysOf(intents) <==> key in Elements(SortedKeysOf(intents));
    }
  }

  /** A snapshot is strictly ordered by key and holds exactly the ledger's intents. */
  lemma SnapshotOrder(intents: map<Key, Intent>)
    requires Keyed(intents)
    ensures Ascending(Snapshot(intents), IntentBelow)
    ensures forall i :: i in Snapshot(intents) <==> IntentKey(i) in intents && intents[IntentKey(i)] == i
  {
    SortedKeysOrder(intents);
    var keys, values := SortedKeysOf(intents), Snapshot(intents);
    forall i, j | 0 <= i < j < |values| ensures IntentBelow(values[i], values[j]) {
      assert KeyBelow(keys[i], keys[j]);
    }
    forall i ensures i in values <==> IntentKey(i) in intents && intents[IntentKey(i)] == i {
      if IntentKey(i) in intents && intents[IntentKey(i)] == i {
        assert IntentKey(i) in keys;
        var k :| 0 <= k < |keys| && keys[k] == IntentKey(i);
        assert values[k] == i;
      }
    }
  }

  /** Loading, from position `k` on: a malformed or repeated intent refuses the whole store. */
  function LoadFrom(loaded: seq<Intent>, k: nat, intents: map<Key, Intent>): Option<map<Key, Intent>>
    decreases |loaded| - k
  {
    if k >= |loaded| then Some(intents)
    else if !ValidIntent(loaded[k]) then None
    else if IntentKey(loaded[k]) in intents then None
    else LoadFrom(loaded, k + 1, intents[IntentKey(loaded[k]) := loaded[k]])
  }

  function Load(loaded: seq<Intent>): Option<map<Key, Intent>> {
    LoadFrom(loaded, 0, map[])
  }

  lemma {:induction false} LoadFromGives(loaded: seq<Intent>, k: nat, intents: map<Key, Intent>)
    requires LoadFrom(loaded, k, intents).Some?
    requires Keyed(intents) && AllValid(intents)
    ensures Keyed(LoadFrom(loaded, k, intents).value) && AllValid(LoadFrom(loaded, k, intents).value)
    decreases |loaded| - k
  {
    if k < |loaded| {
      LoadFromGives(loaded, k + 1, intents[IntentKey(loaded[k]) := loaded[k]]);
    }
  }

  /** The part of `intents` whose keys are among the first `k`. */
  ghost function FirstOf(intents: map<Key, Intent>, keys: seq<Key>, k: nat): map<Key, Intent>
    requires k <= |keys|
  {
    map key | key in intents && key in keys[..k] :: intents[key]
  }

  lemma FirstOfMore(intents: map<Key, Intent>, keys: seq<Key>, k: nat)
    requires k < |keys| && keys[k] in intents && NoRepeats(keys)
    ensures keys[k] !in FirstOf(intents, keys, k)
    ensures FirstOf(intents, keys, k + 1) == FirstOf(intents, keys, k)[keys[k] := intents[keys[k]]]
  {
    assert keys[..k + 1] == keys[..k] + [keys[k]];
  }

  lemma FirstOfStep(intents: map<Key, Intent>, k: nat)
    requires k < |SortedKeysOf(intents)|
    ensures SortedKeysOf(intents)[k] !in FirstOf(intents, SortedKeysOf(intents), k)
    ensures FirstOf(intents, SortedKeysOf(intents), k + 1)
            == FirstOf(intents, SortedKeysOf(intents), k)[SortedKeysOf(intents)[k] := intents[SortedKeysOf(intents)[k]]]
  {
    var keys := SortedKeysOf(intents);
    SortedKeysOrder(intents);
    forall i, j | 0 <= i < j < |keys| ensures keys[i] != keys[j] {
      assert KeyBelow(keys[i], keys[j]);
    }
    FirstOfMore(intents, keys, k);
  }

  lemma {:induction false} LoadSnapshotFrom(intents: map<Key, Intent>, k: nat)
    requires Keyed(intents) && AllValid(intents) && k <= |SortedKeysOf(intents)|
    ensures LoadFrom(Snapshot(intents), k, FirstOf(intents, SortedKeysOf(intents), k)) == Some(intents)
    decreases |SortedKeysOf(intents)| - k
  {
    if k < |SortedKeysOf(intents)| {
      FirstOfStep(intents, k);
      LoadSnapshotFrom(intents, k + 1);
    } else {
      FirstOfAll(intents);
    }
  }

  lemma FirstOfAll(intents: map<Key, Intent>)
    ensures FirstOf(intents, SortedKeysOf(intents), |SortedKeysOf(intents)|) == intents
  {
    SortedKeysOrder(intents);
    assert SortedKeysOf(intents)[..|SortedKeysOf(intents)|] == SortedKeysOf(intents);
  }

  /** Opening a stored snapshot gives back the map it was taken of. */
  lemma LoadSnapshot(intents: map<Key, Intent>)
    requires Keyed(intents) && AllValid(intents)
    ensures Load(Snapshot(intents)) == Some(intents)
  {
    LoadSnapshotFrom(intents, 0);
    assert FirstOf(intents, SortedKeysOf(intents), 0) == map[];
  }

  // Saving.

  function NextSave(script: seq<SaveOutcome>): SaveOutcome {
    if script == [] then Saved else script[0]
  }

  function RestOf(script: seq<SaveOutcome>): seq<SaveOutcome> {
    if script == [] then [] else script[1..]
  }

  /** Tries to make `next` the ledger's map; a failed save restores the old one. */
  ghost function Commit(m: Machine, next: map<Key, Intent>): (Machine, bool) {
    match NextSave(m.script)
    case Saved => (Machine(next, Snapshot(next), RestOf(m.script)), true)
    case FailedBefore => (m.(script := RestOf(m.script)), false)
    case FailedAfter => (Machine(m.intents, Snapshot(next), RestOf(m.script)), false)
  }

  ghost function Put(m: Machine, key: Key, intent: Intent): (Machine, bool) {
    Commit(m, m.intents[key := intent])
  }

  ghost function Delete(m: Machine, key: Key): (Machine, bool) {
    Commit(m, m.intents - {key})
  }

  // Operations.

  datatype Request = Request(
    key: Key, serialNumber: string, currentName: string, desiredName: string,
    now: int, retryAfter: int, maxAttempts: int)

  predicate ValidRequest(r: Request) {
    && r.key.source != "" && r.key.namespace != "" && r.key.id != ""
    && r.serialNumber != "" && r.desiredName != ""
    && r.retryAfter > 0 && r.maxAttempts > 0
  }

  datatype Answer = Decided(decision: Decision) | BadRequest | SaveFailed

  function NewIntent(r: Request): Intent {
    Intent(r.key.source, r.key.namespace, r.key.id, r.serialNumber, r.desiredName, r.now, 1, IntentRetrying, "")
  }

  function ExhaustedFailure(i: Intent): string
    requires i.attempts >= 0
  {
    if i.failure == "" then "rename submission failed after " + Itoa(i.attempts) + " attempts" else i.failure
  }

  ghost function Prepare(m: Machine, r: Request): (Machine, Answer) {
    if !ValidRequest(r) then (m, BadRequest)
    else if r.key in m.intents && m.intents[r.key].serialNumber != r.serialNumber then
      var (m1, ok) := Delete(m, r.key);
      if ok then PrepareCurrent(m1, r) else (m1, SaveFailed)
    else PrepareCurrent(m, r)
  }

  /** Once a stale intent is out of the way. */
  ghost function PrepareCurrent(m: Machine, r: Request): (Machine, Answer)
    requires ValidRequest(r)
  {
    if r.currentName == r.desiredName then
      if r.key in m.intents then Reply(Delete(m, r.key), Decision(DispositionObserved, 0, ZERO_TIME, ""))
      else (m, Decided(Decision(DispositionObserved, 0, ZERO_TIME, "")))
    else if r.key !in m.intents || m.intents[r.key].desiredName != r.desiredName then
      Reply(Put(m, r.key, NewIntent(r)), Decision(DispositionSubmit, 1, r.now + r.retryAfter, ""))
    else PrepareAgain(m, r, m.intents[r.key])
  }

  ghost function Reply(saved: (Machine, bool), decision: Decision): (Machine, Answer) {
    (saved.0, if saved.1 then Decided(decision) else SaveFailed)
  }

  /** An intent for the same serial number and name exists. */
  ghost function PrepareAgain(m: Machine, r: Request, existing: Intent): (Machine, Answer)
    requires ValidRequest(r)
  {
    if existing.status == IntentSubmitted then
      (m, Decided(Decision(DispositionPending, existing.attempts, ZERO_TIME, "")))
    else if existing.status == IntentFailed then
      (m, Decided(Decision(DispositionFailed, existing.attempts, ZERO_TIME, existing.failure)))
    else if r.now < existing.attemptedAt + r.retryAfter then
      (m, Decided(Decision(DispositionPending, existing.attempts, existing.attemptedAt + r.retryAfter, "")))
    else if existing.attempts >= r.maxAttempts then
      var failed := existing.(status := IntentFailed, failure := ExhaustedFailure(existing));
      Reply(Put(m, r.key, failed), Decision(DispositionFailed, existing.attempts, ZERO_TIME, failed.failure))
    else
      var again :=
        existing.(attemptedAt := r.now, attempts := existing.attempts + 1, status := IntentRetrying, failure := "");
      Reply(Put(m, r.key, again), Decision(DispositionSubmit, again.attempts, r.now + r.retryAfter, ""))
  }

  /** The outcome of one provider call, as the service classifies it. */
  datatype Outcome = Accepted | Rejected(reason: string) | Transient(reason: string)

  function MarkedIntent(i: Intent, o: Outcome): Intent {
    match o
    case Accepted => i.(status := IntentSubmitted, failure := "")
    case Rejected(reason) => i.(status := IntentFailed, failure := reason)
    case Transient(reason) => i.(status := IntentRetrying, failure := reason)
  }

  predicate Current(intents: map<Key, Intent>, key: Key, serialNumber: string, desiredName: string) {
    key in intents && intents[key].serialNumber == serialNumber && intents[key].desiredName == desiredName
  }

  /** MarkSubmitted, MarkFailed and MarkRetrying: nothing happens once the request is no longer current. */
  ghost function Mark(m: Machine, key: Key, serialNumber: string, desiredName: string, o: Outcome): (Machine, bool) {
    if Current(m.intents, key, serialNumber, desiredName) then Put(m, key, MarkedIntent(m.intents[key], o))
    else (m, true)
  }

  /** The machine, whether an intent was cleared, and whether the save succeeded. */
  ghost function Observe(m: Machine, key: Key, serialNumber: string, currentName: string): (Machine, bool, bool) {
    if key in m.intents
       && (m.intents[key].serialNumber != serialNumber || m.intents[key].desiredName == currentName) then
      var (m1, ok) := Delete(m, key);
      (m1, ok, ok)
    else (m, false, true)
  }

  ghost function Cancel(m: Machine, key: Key): (Machine, bool) {
    if key in m.intents then Delete(m, key) else (m, true)
  }
}
