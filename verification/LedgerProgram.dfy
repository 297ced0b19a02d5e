/** The ledger as a mutable object over a store (internal/state/ledger.go, store.go). */
module LedgerProgram {
  import opened Basics
  import opened Sorting
  import opened LedgerModel

  /** A store whose reads and saves may fail; `script` says how the coming saves end. */
  class Store {
    var contents: seq<Intent>
    var readable: bool
    var script: seq<SaveOutcome>

    constructor (contents: seq<Intent>, readable: bool, script: seq<SaveOutcome>)
      ensures this.contents == contents && this.readable == readable && this.script == script
    {
      this.contents, this.readable, this.script := contents, readable, script;
    }

    method Load() returns (loaded: Option<seq<Intent>>)
      ensures loaded == if readable then Some(contents) else None
    {
      loaded := if readable then Some(contents) else None;
    }

    method Save(snapshot: seq<Intent>) returns (ok: bool)
      modifies `contents, `script
      ensures script == RestOf(old(script))
      ensures ok <==> NextSave(old(script)) == Saved
      ensures contents == if NextSave(old(script)) == FailedBefore then old(contents) else snapshot
    {
      ok := true;
      if script == [] {
        contents := snapshot;
      } else {
        if script[0] != FailedBefore {
          contents := snapshot;
        }
        ok := script[0] == Saved;
        script := script[1..];
      }
    }
  }

  /** Collects the map's values in arbitrary order and sorts them. */
  method TakeSnapshot(intents: map<Key, Intent>) returns (result: seq<Intent>)
    requires Keyed(intents)
    ensures result == Snapshot(intents)
  {
    var listed: seq<Intent> := [];
    var pending := intents.Keys;
    while pending != {}
      invariant pending <= intents.Keys
      invariant Lists(intents, intents.Keys - pending, listed)
      decreases |pending|
    {
      var key :| key in pending;
      ListsOneMore(intents, intents.Keys - pending, listed, key);
      listed := listed + [intents[key]];
      pending := pending - {key};
      assert intents.Keys - pending == intents.Keys - (pending + {key}) + {key};
    }
    assert intents.Keys - {} == intents.Keys;
    SortedIsSnapshot(intents, listed);
    result := Sort(listed, IntentBelow);
  }

  /** `listed` holds the intents of `keys`, once each. */
  ghost predicate Lists(intents: map<Key, Intent>, keys: set<Key>, listed: seq<Intent>) {
    && NoRepeats(listed)
    && forall i :: i in listed <==> IntentKey(i) in keys && IntentKey(i) in intents && intents[IntentKey(i)] == i
  }

  lemma ListsOneMore(intents: map<Key, Intent>, keys: set<Key>, listed: seq<Intent>, key: Key)
    requires Keyed(intents) && Lists(intents, keys, listed) && key in intents && key !in keys
    ensures Lists(intents, keys + {key}, listed + [intents[key]])
  {
    assert IntentKey(intents[key]) == key;
  }

  lemma SortedIsSnapshot(intents: map<Key, Intent>, listed: seq<Intent>)
    requires Keyed(intents) && Lists(intents, intents.Keys, listed)
    ensures Sort(listed, IntentBelow) == Snapshot(intents)
  {
    SnapshotOrder(intents);
    IntentsLinear(intents, listed);
    SortAscends(listed, IntentBelow);
    MembersOf(Sort(listed, IntentBelow), listed);
    SameElements(Sort(listed, IntentBelow), Snapshot(intents));
    AscendingUnique(Sort(listed, IntentBelow), Snapshot(intents), IntentBelow);
  }

  lemma SameElements<T>(xs: seq<T>, ys: seq<T>)
    requires forall x :: x in xs <==> x in ys
    ensures Elements(xs) == Elements(ys)
  {
  }

  lemma IntentsLinear(intents: map<Key, Intent>, listed: seq<Intent>)
    requires forall i | i in listed :: IntentKey(i) in intents && intents[IntentKey(i)] == i
    ensures Linear(Elements(listed), IntentBelow)
    ensures forall a, b | IntentBelow(a, b) :: !IntentBelow(b, a)
  {
    forall a, b | IntentBelow(a, b) ensures !IntentBelow(b, a) {
      CompareKeysFlips(IntentKey(a), IntentKey(b));
    }
    forall a, b | a in listed && b in listed && a != b ensures IntentBelow(a, b) || IntentBelow(b, a) {
      CompareKeysFlips(IntentKey(a), IntentKey(b));
    }
    forall a, b, c | IntentBelow(a, b) && IntentBelow(b, c) ensures IntentBelow(a, c) {
      CompareKeysTransitive(IntentKey(a), IntentKey(b), IntentKey(c));
    }
  }

  /** Open's loop over the loaded intents. */
  method LoadIntents(loaded: seq<Intent>) returns (intents: Option<map<Key, Intent>>)
    ensures intents == LedgerModel.Load(loaded)
    ensures intents.Some? ==> Keyed(intents.value) && AllValid(intents.value)
  {
    var found: map<Key, Intent> := map[];
    var index := 0;
    while index < |loaded|
      invariant 0 <= index <= |loaded|
      invariant LoadFrom(loaded, index, found) == LedgerModel.Load(loaded)
      invariant Keyed(found) && AllValid(found)
    {
      if !ValidIntent(loaded[index]) {
        return None;
      }
      if IntentKey(loaded[index]) in found {
        return None;
      }
      found := found[IntentKey(loaded[index]) := loaded[index]];
      index := index + 1;
    }
    return Some(found);
  }

  class Ledger {
    const store: Store
    var intents: map<Key, Intent>

    ghost predicate Valid()
      reads this
    {
      Keyed(intents)
    }

    ghost function State(): Machine
      reads this, store
    {
      Machine(intents, store.contents, store.script)
    }

    constructor (store: Store, intents: map<Key, Intent>)
      ensures this.store == store && this.intents == intents
    {
      this.store, this.intents := store, intents;
    }

    /** Null stands for an error: the store cannot be read or its contents are refused. */
    static method Open(store: Store) returns (ledger: Ledger?)
      ensures ledger == null <==> !store.readable || LedgerModel.Load(store.contents) == None
      ensures ledger != null ==> fresh(ledger) && ledger.store == store && ledger.Valid() && AllValid(ledger.intents)
      ensures ledger != null ==>
                ledger.State() == Machine(LedgerModel.Load(store.contents).value, store.contents, store.script)
    {
      var loaded := store.Load();
      if loaded == None {
        return null;
      }
      var intents := LoadIntents(loaded.value);
      if intents == None {
        return null;
      }
      ledger := new Ledger(store, intents.value);
    }

    method PutLocked(key: Key, intent: Intent) returns (ok: bool)
      requires Valid() && IntentKey(intent) == key
      modifies this, store
      ensures Valid() && (State(), ok) == Put(old(State()), key, intent)
    {
      var found := key in intents;
      var previous := if found then intents[key] else intent;
      intents := intents[key := intent];
      var snapshot := TakeSnapshot(intents);
      ok := store.Save(snapshot);
      if !ok {
        if found {
          intents := intents[key := previous];
        } else {
          intents := intents - {key};
        }
        assert intents == old(intents);
      }
    }

    method DeleteLocked(key: Key) returns (ok: bool)
      requires Valid() && key in intents
      modifies this, store
      ensures Valid() && (State(), ok) == Delete(old(State()), key)
    {
      var previous := intents[key];
      intents := intents - {key};
      var snapshot := TakeSnapshot(intents);
      ok := store.Save(snapshot);
      if !ok {
        intents := intents[key := previous];
        assert intents == old(intents);
      }
    }

    method Prepare(r: Request) returns (answer: Answer)
      requires Valid()
      modifies this, store
      ensures Valid() && (State(), answer) == LedgerModel.Prepare(old(State()), r)
    {
      if !ValidRequest(r) {
        return BadRequest;
      }
      if r.key in intents && intents[r.key].serialNumber != r.serialNumber {
        var ok := DeleteLocked(r.key);
        if !ok {
          return SaveFailed;
        }
      }
      answer := Decide(r);
    }

    method Decide(r: Request) returns (answer: Answer)
      requires Valid() && ValidRequest(r)
      modifies this, store
      ensures Valid() && (State(), answer) == PrepareCurrent(old(State()), r)
    {
      if r.currentName == r.desiredName {
        if r.key in intents {
          var ok := DeleteLocked(r.key);
          if !ok {
            return SaveFailed;
          }
        }
        return Decided(Decision(DispositionObserved, 0, ZERO_TIME, ""));
      }
      if r.key !in intents || intents[r.key].desiredName != r.desiredName {
        var ok := PutLocked(r.key, NewIntent(r));
        return if ok then Decided(Decision(DispositionSubmit, 1, r.now + r.retryAfter, "")) else SaveFailed;
      }
      answer := DecideAgain(r);
    }

    method DecideAgain(r: Request) returns (answer: Answer)
      requires Valid() && ValidRequest(r) && r.key in intents
      modifies this, store
      ensures Valid() && (State(), answer) == PrepareAgain(old(State()), r, old(intents)[r.key])
    {
      var existing := intents[r.key];
      if existing.status == IntentSubmitted {
        return Decided(Decision(DispositionPending, existing.attempts, ZERO_TIME, ""));
      }
      if existing.status == IntentFailed {
        return Decided(Decision(DispositionFailed, existing.attempts, ZERO_TIME, existing.failure));
      }
      var retryAt := existing.attemptedAt + r.retryAfter;
      if r.now < retryAt {
        return Decided(Decision(DispositionPending, existing.attempts, retryAt, ""));
      }
      if existing.attempts >= r.maxAttempts {
        existing := existing.(status := IntentFailed, failure := ExhaustedFailure(existing));
        var ok := PutLocked(r.key, existing);
        return if ok then Decided(Decision(DispositionFailed, existing.attempts, ZERO_TIME, existing.failure))
               else SaveFailed;
      }
      existing := existing.(attemptedAt := r.now, attempts := existing.attempts + 1, status := IntentRetrying,
                            failure := "");
      var ok := PutLocked(r.key, existing);
      return if ok then Decided(Decision(DispositionSubmit, existing.attempts, r.now + r.retryAfter, ""))
             else SaveFailed;
    }

    /** MarkSubmitted, MarkFailed and MarkRetrying differ only in the outcome they record. */
    method Mark(key: Key, serialNumber: string, desiredName: string, outcome: Outcome) returns (ok: bool)
      requires Valid()
      modifies this, store
      ensures Valid() && (State(), ok) == LedgerModel.Mark(old(State()), key, serialNumber, desiredName, outcome)
    {
      if !Current(intents, key, serialNumber, desiredName) {
        return true;
      }
      ok := PutLocked(key, MarkedIntent(intents[key], outcome));
    }

    method Observe(key: Key, serialNumber: string, currentName: string) returns (cleared: bool, ok: bool)
      requires Valid()
      modifies this, store
      ensures Valid() && (State(), cleared, ok) == LedgerModel.Observe(old(State()), key, serialNumber, currentName)
    {
      if key in intents && (intents[key].serialNumber != serialNumber || intents[key].desiredName == currentName) {
        ok := DeleteLocked(key);
        cleared := ok;
      } else {
        return false, true;
      }
    }

    method Cancel(key: Key) returns (ok: bool)
      requires Valid()
      modifies this, store
      ensures Valid() && (State(), ok) == LedgerModel.Cancel(old(State()), key)
    {
      if key !in intents {
        return true;
      }
      ok := DeleteLocked(key);
    }
  }
}
