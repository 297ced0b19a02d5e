/** What the ledger answers and writes, field by field (internal/state/ledger.go). */
module LedgerAnswers {
  import opened Basics
  import opened Decimal
  import opened LedgerModel
  import opened LedgerLaws

  // Requests that are refused.

  lemma BadRequestExactly(m: Machine, r: Request)
    ensures Prepare(m, r).1 == BadRequest <==>
              || "" in [r.key.source, r.key.namespace, r.key.id, r.serialNumber, r.desiredName]
              || r.retryAfter <= 0 || r.maxAttempts <= 0
    ensures Prepare(m, r).1 == BadRequest ==> Prepare(m, r).0 == m
  {
  }

  /** The ledger holds an intent for the device, under another serial number. */
  predicate Outdated(m: Machine, r: Request) {
    r.key in m.intents && m.intents[r.key].serialNumber != r.serialNumber
  }

  /** The ledger holds an intent for exactly this rename. */
  predicate Standing(m: Machine, r: Request) {
    && r.key in m.intents
    && m.intents[r.key].serialNumber == r.serialNumber && m.intents[r.key].desiredName == r.desiredName
  }

  predicate Fresh(m: Machine, r: Request) {
    !Standing(m, r) && r.currentName != r.desiredName
  }

  /** Neither accepted nor given up, and its retry interval is over. */
  predicate Due(m: Machine, r: Request)
    requires Standing(m, r)
  {
    var i := m.intents[r.key];
    i.status != IntentSubmitted && i.status != IntentFailed && i.attemptedAt + r.retryAfter <= r.now
  }

  /** Something is to be written once an outdated intent is gone. */
  predicate Writes(m: Machine, r: Request) {
    if r.currentName == r.desiredName then r.key in m.intents && !Outdated(m, r)
    else Fresh(m, r) || Due(m, r)
  }

  /** An answer is missing exactly if a save it depends on fails: that of a deletion first, or of what is written. */
  lemma SaveFailedExactly(m: Machine, r: Request)
    requires Prepare(m, r).1 != BadRequest
    ensures Prepare(m, r).1 == SaveFailed <==>
            if Outdated(m, r)
            then m.script != [] && (m.script[0] != Saved || (Writes(m, r) && |m.script| > 1 && m.script[1] != Saved))
            else Writes(m, r) && m.script != [] && m.script[0] != Saved
  {
  }

  /** What an intent that has used up its attempts fails with. */
  function LastWord(i: Intent): string
    requires i.attempts >= 0
  {
    if i.failure != "" then i.failure else "rename submission failed after " + Itoa(i.attempts) + " attempts"
  }

  /** What is answered, and what then stands in the ledger for the device. */
  datatype Result = Result(
    disposition: Disposition, attempts: int, retryAt: int, failure: string, entry: Option<Intent>)

  ghost predicate Answers(n: Machine, answer: Answer, key: Key, result: Result) {
    && answer.Decided? && answer.decision.disposition == result.disposition
    && answer.decision.attempts == result.attempts && answer.decision.retryAt == result.retryAt
    && answer.decision.failure == result.failure
    && match result.entry
       case None => key !in n.intents
       case Some(i) => key in n.intents && n.intents[key] == i
  }

  /**
   * Every answer in full, unless a save fails. A rename that has taken effect is observed and
   * forgotten. One that is new to the ledger is submitted for the first time. One the provider has
   * accepted is pending; one that has failed stays failed, with its reason; one that is waiting is
   * pending until its interval is over, and is then submitted once more, or given up if it has used up
   * its attempts.
   */
  lemma AnswerExactly(m: Machine, r: Request)
    requires Keyed(m.intents) && AllValid(m.intents)
    requires Prepare(m, r).1 != BadRequest && Prepare(m, r).1 != SaveFailed
    ensures var (n, answer) := Prepare(m, r);
            if r.currentName == r.desiredName then
              Answers(n, answer, r.key, Result(DispositionObserved, 0, 0, "", None))
            else if !Standing(m, r) then
              Answers(n, answer, r.key,
                      Result(DispositionSubmit, 1, r.now + r.retryAfter, "",
                             Some(Intent(r.key.source, r.key.namespace, r.key.id, r.serialNumber, r.desiredName,
                                         r.now, 1, IntentRetrying, ""))))
            else
              var i := m.intents[r.key];
              Answers(n, answer, r.key,
                      if i.status == IntentSubmitted then Result(DispositionPending, i.attempts, 0, "", Some(i))
                      else if i.status == IntentFailed then Result(DispositionFailed, i.attempts, 0, i.failure, Some(i))
                      else if r.now < i.attemptedAt + r.retryAfter then
                        Result(DispositionPending, i.attempts, i.attemptedAt + r.retryAfter, "", Some(i))
                      else if i.attempts >= r.maxAttempts then
                        Result(DispositionFailed, i.attempts, 0, LastWord(i),
                               Some(Intent(i.source, i.namespace, i.deviceID, i.serialNumber, i.desiredName,
                                           i.attemptedAt, i.attempts, IntentFailed, LastWord(i))))
                      else
                        Result(DispositionSubmit, i.attempts + 1, r.now + r.retryAfter, "",
                               Some(Intent(i.source, i.namespace, i.deviceID, i.serialNumber, i.desiredName,
                                           r.now, i.attempts + 1, IntentRetrying, ""))))
  {
  }

  // Marks.

  /** The entry after a saved mark: its status and reason are the call's, everything else is as it was. */
  function EntryMarked(i: Intent, o: Outcome): Intent {
    var status := if o.Accepted? then IntentSubmitted else if o.Rejected? then IntentFailed else IntentRetrying;
    Intent(i.source, i.namespace, i.deviceID, i.serialNumber, i.desiredName, i.attemptedAt, i.attempts, status,
           if o.Accepted? then "" else o.reason)
  }

  /**
   * A mark is saved exactly if nothing has to be or the save succeeds; then the entry of the request,
   * if it is still current, records how the call ended. Nothing else changes, whatever the save does.
   */
  lemma MarkExactly(m: Machine, key: Key, serialNumber: string, desiredName: string, o: Outcome)
    ensures var (n, saved) := Mark(m, key, serialNumber, desiredName, o);
            var current := key in m.intents && m.intents[key].serialNumber == serialNumber
                           && m.intents[key].desiredName == desiredName;
            && (saved <==> !current || m.script == [] || m.script[0] == Saved)
            && n.intents.Keys == m.intents.Keys
            && forall k | k in m.intents ::
                 n.intents[k] == if k == key && current && saved then EntryMarked(m.intents[k], o) else m.intents[k]
  {
  }

  // Observing and cancelling.

  /**
   * Observing forgets an intent exactly if the device has its name by now or another serial number,
   * and the save succeeds; cancelling forgets whatever there is.
   */
  lemma ForgetsExactly(m: Machine, key: Key, serialNumber: string, currentName: string)
    ensures var (n, cleared, ok) := Observe(m, key, serialNumber, currentName);
            var over := key in m.intents
                        && (m.intents[key].serialNumber != serialNumber || m.intents[key].desiredName == currentName);
            && (ok <==> !over || m.script == [] || m.script[0] == Saved)
            && (cleared <==> over && ok)
            && n.intents == if cleared then m.intents - {key} else m.intents
    ensures var (n, ok) := Cancel(m, key);
            && (ok <==> key !in m.intents || m.script == [] || m.script[0] == Saved)
            && n.intents == if ok then m.intents - {key} else m.intents
  {
    assert key !in m.intents ==> m.intents - {key} == m.intents;
  }

  // Final answers.

  /**
   * A refusal for good that has been marked is answered for ever: after any run that keeps wanting
   * the rename, whatever its saves do, it is failed, with the reason given and the attempts made.
   */
  lemma RefusalIsRemembered(m: Machine, r: Request, reason: string, ops: seq<Operation>, later: int)
    requires Keyed(m.intents) && Standing(m, r) && Prepare(m, r).1 != BadRequest && r.currentName != r.desiredName
    requires Mark(m, r.key, r.serialNumber, r.desiredName, Rejected(reason)).1
    requires forall i | 0 <= i < |ops| :: Wants(ops[i], r.key, r.serialNumber, r.desiredName)
    ensures var marked := Mark(m, r.key, r.serialNumber, r.desiredName, Rejected(reason)).0;
            Prepare(PerformAll(marked, ops), r.(now := later)).1
            == Decided(Decision(DispositionFailed, m.intents[r.key].attempts, 0, reason))
  {
    MarkExactly(m, r.key, r.serialNumber, r.desiredName, Rejected(reason));
    var marked := Mark(m, r.key, r.serialNumber, r.desiredName, Rejected(reason)).0;
    MarkStaysKeyed(m, r.key, r.serialNumber, r.desiredName, Rejected(reason));
    FinalIsNeverResubmitted(marked, ops, r.(now := later));
  }

  lemma MarkStaysKeyed(m: Machine, key: Key, serialNumber: string, desiredName: string, o: Outcome)
    requires Keyed(m.intents)
    ensures Keyed(Mark(m, key, serialNumber, desiredName, o).0.intents)
  {
    PerformTouches(m, DoMark(key, serialNumber, desiredName, o));
  }

  /**
   * So is a rename whose attempts are used up: once that is saved, every later answer is the reason of
   * its last transient refusal, or the number of attempts if that gave none.
   */
  lemma GivingUpIsRemembered(m: Machine, r: Request, reason: string, ops: seq<Operation>, later: int)
    requires Keyed(m.intents) && AllValid(m.intents) && Standing(m, r) && r.currentName != r.desiredName
    requires Mark(m, r.key, r.serialNumber, r.desiredName, Transient(reason)).1
    requires m.intents[r.key].attempts >= r.maxAttempts && m.intents[r.key].attemptedAt + r.retryAfter <= r.now
    requires Prepare(Mark(m, r.key, r.serialNumber, r.desiredName, Transient(reason)).0, r).1.Decided?
    requires forall i | 0 <= i < |ops| :: Wants(ops[i], r.key, r.serialNumber, r.desiredName)
    ensures var marked := Mark(m, r.key, r.serialNumber, r.desiredName, Transient(reason)).0;
            var attempts := m.intents[r.key].attempts;
            var answer := Decision(DispositionFailed, attempts, 0,
                                   if reason != "" then reason
                                   else "rename submission failed after " + Itoa(attempts) + " attempts");
            && Prepare(marked, r).1 == Decided(answer)
            && Prepare(PerformAll(Prepare(marked, r).0, ops), r.(now := later)).1 == Decided(answer)
  {
    MarkExactly(m, r.key, r.serialNumber, r.desiredName, Transient(reason));
    var marked := Mark(m, r.key, r.serialNumber, r.desiredName, Transient(reason)).0;
    MarkStaysKeyed(m, r.key, r.serialNumber, r.desiredName, Transient(reason));
    assert AllValid(marked.intents);
    AnswerExactly(marked, r);
    PerformTouches(marked, DoPrepare(r));
    FinalIsNeverResubmitted(Prepare(marked, r).0, ops, r.(now := later));
  }

  // Loading.

  /** What a stored intent must carry. */
  predicate WellStored(i: Intent) {
    && i.source != "" && i.namespace != "" && i.deviceID != "" && i.serialNumber != "" && i.desiredName != ""
    && i.attemptedAt != 0 && i.attempts > 0
    && (i.status == IntentFailed || i.status == IntentRetrying || i.status == IntentSubmitted)
  }

  predicate SameDevice(a: Intent, b: Intent) {
    a.source == b.source && a.namespace == b.namespace && a.deviceID == b.deviceID
  }

  ghost predicate Loadable(loaded: seq<Intent>, k: nat)
    requires k <= |loaded|
  {
    && (forall i | 0 <= i < k :: WellStored(loaded[i]))
    && forall i, j | 0 <= i < j < k :: !SameDevice(loaded[i], loaded[j])
  }

  function DeviceOf(i: Intent): Key {
    Key(i.source, i.namespace, i.deviceID)
  }

  /** The map holds the first `k` intents, each under its device. */
  ghost predicate HoldsFirst(loaded: seq<Intent>, k: nat, intents: map<Key, Intent>)
    requires k <= |loaded|
  {
    && (forall i | 0 <= i < k :: DeviceOf(loaded[i]) in intents && intents[DeviceOf(loaded[i])] == loaded[i])
    && forall key | key in intents :: exists i :: 0 <= i < k && DeviceOf(loaded[i]) == key
  }

  lemma LoadableOneMore(loaded: seq<Intent>, k: nat)
    requires k < |loaded| && Loadable(loaded, k) && WellStored(loaded[k])
    requires forall i | 0 <= i < k :: !SameDevice(loaded[i], loaded[k])
    ensures Loadable(loaded, k + 1)
  {
  }

  lemma HoldsOneMore(loaded: seq<Intent>, k: nat, intents: map<Key, Intent>)
    requires k < |loaded| && HoldsFirst(loaded, k, intents) && DeviceOf(loaded[k]) !in intents
    ensures HoldsFirst(loaded, k + 1, intents[DeviceOf(loaded[k]) := loaded[k]])
    ensures forall i | 0 <= i < k :: !SameDevice(loaded[i], loaded[k])
  {
    forall i | 0 <= i < k ensures !SameDevice(loaded[i], loaded[k]) {
      assert DeviceOf(loaded[i]) in intents;
    }
    var more := intents[DeviceOf(loaded[k]) := loaded[k]];
    forall key | key in more ensures exists i :: 0 <= i < k + 1 && DeviceOf(loaded[i]) == key {
      if key in intents {
        var i :| 0 <= i < k && DeviceOf(loaded[i]) == key;
      } else {
        assert DeviceOf(loaded[k]) == key;
      }
    }
  }

  lemma Repeated(loaded: seq<Intent>, k: nat, intents: map<Key, Intent>)
    requires k < |loaded| && HoldsFirst(loaded, k, intents) && DeviceOf(loaded[k]) in intents
    ensures !Loadable(loaded, |loaded|)
  {
    var i :| 0 <= i < k && DeviceOf(loaded[i]) == DeviceOf(loaded[k]);
    assert SameDevice(loaded[i], loaded[k]);
  }

  lemma LoadStep(loaded: seq<Intent>, k: nat, intents: map<Key, Intent>)
    requires k < |loaded|
    ensures LoadFrom(loaded, k, intents)
            == if !WellStored(loaded[k]) || DeviceOf(loaded[k]) in intents then None
               else LoadFrom(loaded, k + 1, intents[DeviceOf(loaded[k]) := loaded[k]])
  {
  }

  lemma {:induction false} LoadFromExactly(loaded: seq<Intent>, k: nat, intents: map<Key, Intent>)
    requires k <= |loaded| && Loadable(loaded, k) && HoldsFirst(loaded, k, intents)
    ensures match LoadFrom(loaded, k, intents)
            case None => !Loadable(loaded, |loaded|)
            case Some(all) => Loadable(loaded, |loaded|) && HoldsFirst(loaded, |loaded|, all)
    decreases |loaded| - k
  {
    if k < |loaded| {
      LoadStep(loaded, k, intents);
      if !WellStored(loaded[k]) {
        assert !Loadable(loaded, |loaded|);
      } else if DeviceOf(loaded[k]) in intents {
        Repeated(loaded, k, intents);
      } else {
        HoldsOneMore(loaded, k, intents);
        LoadableOneMore(loaded, k);
        LoadFromExactly(loaded, k + 1, intents[DeviceOf(loaded[k]) := loaded[k]]);
      }
    }
  }

  /**
   * A stored file is refused exactly if an intent in it is malformed or two are for one device; what
   * is loaded otherwise holds exactly its intents, each under its device.
   */
  lemma LoadExactly(loaded: seq<Intent>)
    ensures Load(loaded).None? <==> !Loadable(loaded, |loaded|)
    ensures Load(loaded).Some? ==> HoldsFirst(loaded, |loaded|, Load(loaded).value)
  {
    LoadFromExactly(loaded, 0, map[]);
  }
}
