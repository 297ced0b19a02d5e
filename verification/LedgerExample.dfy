/** A failed prepare that loses an intent (internal/state/ledger.go:63-93). */
module LedgerExample {
  import opened Basics
  import opened Sorting
  import opened LedgerModel

  const KEY := Key("s", "n", "1")

  /** The stored intent is for another serial number than the one the device now has. */
  const STALE := Intent("s", "n", "1", "OLD", "X", 1, 1, IntentSubmitted, "")
  const REQUEST := Request(KEY, "NEW", "Y", "X", 2, 1, 3)

  /** The deletion of the stale intent is saved, the save after it fails. */
  const MACHINE := Machine(map[KEY := STALE], [STALE], [Saved, FailedBefore])

  /** The prepare fails, and neither the old intent nor a new one is left. */
  lemma FailedPrepareCanLose()
    ensures Keyed(MACHINE.intents) && AllValid(MACHINE.intents) && MACHINE.disk == Snapshot(MACHINE.intents)
    ensures Prepare(MACHINE, REQUEST).1 == SaveFailed
    ensures MACHINE.intents != map[] && Prepare(MACHINE, REQUEST).0.intents == map[]
  {
    var keys := SortedKeysOf(MACHINE.intents);
    assert MACHINE.intents.Keys == {KEY};
    SortSetMembers(MACHINE.intents.Keys, KeyBelow);
    assert |keys| == 1 && keys[0] in MACHINE.intents;
    assert MACHINE.intents - {KEY} == map[];
  }
}
