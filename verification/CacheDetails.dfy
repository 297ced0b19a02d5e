/** Which snapshot a listed device's details come from, exactly (internal/app/service.go:206-230). */
module CacheDetails {
  import opened Basics
  import opened PlannerModel
  import opened CacheModel
  import opened CacheLaws

  ghost predicate AllDistinct(cycles: seq<Cycle>) {
    forall c | 0 <= c < |cycles| :: DistinctDevices(cycles[c].snapshot)
  }

  predicate IsAt(snapshot: seq<Device>, key: Key, j: nat) {
    && j < |snapshot|
    && snapshot[j].source == key.source && snapshot[j].namespace == key.namespace && snapshot[j].id == key.id
  }

  ghost predicate Listed(snapshot: seq<Device>, key: Key) {
    exists j: nat :: IsAt(snapshot, key, j)
  }

  /** The device a snapshot lists under the key. */
  ghost function DeviceAt(snapshot: seq<Device>, key: Key): (d: Device)
    requires Listed(snapshot, key)
    ensures exists j: nat :: IsAt(snapshot, key, j) && d == snapshot[j]
  {
    var j: nat :| IsAt(snapshot, key, j);
    snapshot[j]
  }

  predicate SameHolder(a: Device, b: Device) {
    a.serialNumber == b.serialNumber && a.userID == b.userID && a.platform == b.platform
  }

  /**
   * The cycle whose details are answered in cycle `c`: `c` itself if the key is new, if its serial
   * number, user or platform has changed, or if the details answered before have expired.
   */
  ghost function FilledBy(ttl: int, cycles: seq<Cycle>, c: nat, key: Key): (f: nat)
    requires c < |cycles| && Listed(cycles[c].snapshot, key)
    ensures f <= c && Listed(cycles[f].snapshot, key)
  {
    if c == 0 || !Listed(cycles[c - 1].snapshot, key) then c
    else
      var f := FilledBy(ttl, cycles, c - 1, key);
      if SameHolder(DeviceAt(cycles[c - 1].snapshot, key), DeviceAt(cycles[c].snapshot, key))
         && cycles[c].now < cycles[f].now + ttl
      then f else c
  }

  lemma AtMostOnce(snapshot: seq<Device>, key: Key, j: nat)
    requires DistinctDevices(snapshot) && IsAt(snapshot, key, j)
    ensures Listed(snapshot, key) && DeviceAt(snapshot, key) == snapshot[j]
  {
    assert Listed(snapshot, key);
    var i: nat :| IsAt(snapshot, key, i) && DeviceAt(snapshot, key) == snapshot[i];
    assert i < |snapshot| && DeviceKey(snapshot[i]) == key == DeviceKey(snapshot[j]);
    assert !(i < j) && !(j < i);
  }

  lemma ListedExactly(snapshot: seq<Device>, key: Key)
    ensures Listed(snapshot, key) <==> key in KeysOf(snapshot)
  {
    if key in KeysOf(snapshot) {
      var d :| d in snapshot && DeviceKey(d) == key;
      var j: nat :| j < |snapshot| && snapshot[j] == d;
      assert IsAt(snapshot, key, j);
    }
    if j: nat :| IsAt(snapshot, key, j) {
      assert snapshot[j] in snapshot && DeviceKey(snapshot[j]) == key;
    }
  }

  // One snapshot.

  lemma {:induction false} RefreshAt(ttl: int, now: int, snapshot: seq<Device>, k: nat, cache: map<Key, CachedDevice>,
          start: map<Key, CachedDevice>, i: nat)
    requires DistinctDevices(snapshot) && k <= i < |snapshot|
    requires forall j | k <= j < |snapshot| ::
               var key := DeviceKey(snapshot[j]);
               (key in cache <==> key in start) && (key in cache ==> cache[key] == start[key])
    ensures var (after, listed) := RefreshFrom(ttl, now, snapshot, k, cache);
            && |listed| == |snapshot| - k && listed[i - k] == Latest(ttl, now, start, snapshot[i]).device
            && DeviceKey(snapshot[i]) in after && after[DeviceKey(snapshot[i])] == Latest(ttl, now, start, snapshot[i])
    decreases |snapshot| - k
  {
    var entry := Latest(ttl, now, cache, snapshot[k]);
    var next := cache[DeviceKey(snapshot[k]) := entry];
    RefreshKeys(ttl, now, snapshot, k, cache);
    if k < i {
      RefreshAt(ttl, now, snapshot, k + 1, next, start, i);
    } else {
      RefreshLater(ttl, now, snapshot, k + 1, next, DeviceKey(snapshot[k]));
    }
  }

  lemma {:induction false} RefreshLater(ttl: int, now: int, snapshot: seq<Device>, k: nat,
          cache: map<Key, CachedDevice>, key: Key)
    requires key in cache && k <= |snapshot| && forall j | k <= j < |snapshot| :: DeviceKey(snapshot[j]) != key
    ensures var after := RefreshFrom(ttl, now, snapshot, k, cache).0; key in after && after[key] == cache[key]
    decreases |snapshot| - k
  {
    if k < |snapshot| {
      RefreshLater(ttl, now, snapshot, k + 1,
                   cache[DeviceKey(snapshot[k]) := Latest(ttl, now, cache, snapshot[k])], key);
    }
  }

  // All cycles.

  /** As snapshot `c` lists the device, but with the details of snapshot `f`. */
  ghost function Pieced(cycles: seq<Cycle>, c: nat, f: nat, key: Key): Device
    requires c < |cycles| && f < |cycles| && Listed(cycles[c].snapshot, key) && Listed(cycles[f].snapshot, key)
  {
    var d, details := DeviceAt(cycles[c].snapshot, key), DeviceAt(cycles[f].snapshot, key);
    Device(d.source, d.namespace, d.id, d.currentName, d.serialNumber, d.platform, details.enrolledAt, d.userID,
           details.model, details.osVersion, d.lastSeenAt, details.attributes)
  }

  /** What the cache holds for a key after cycle `c`. */
  ghost predicate Holds(ttl: int, cycles: seq<Cycle>, c: nat, key: Key, e: CachedDevice)
    requires c < |cycles| && Listed(cycles[c].snapshot, key)
  {
    var f := FilledBy(ttl, cycles, c, key);
    e == CachedDevice(Pieced(cycles, c, f, key), cycles[f].now)
  }

  /** One lookup, given what the cycle before has left. */
  lemma LatestHolds(ttl: int, cycles: seq<Cycle>, c: nat, key: Key, cache: map<Key, CachedDevice>)
    requires c < |cycles| && Listed(cycles[c].snapshot, key)
    requires key in cache <==> c > 0 && Listed(cycles[c - 1].snapshot, key)
    requires key in cache ==> Holds(ttl, cycles, c - 1, key, cache[key])
    ensures Holds(ttl, cycles, c, key, Latest(ttl, cycles[c].now, cache, DeviceAt(cycles[c].snapshot, key)))
  {
    var incoming := DeviceAt(cycles[c].snapshot, key);
    assert DeviceKey(incoming) == key;
    if key in cache {
      var f := FilledBy(ttl, cycles, c - 1, key);
      assert cache[key].device == Pieced(cycles, c - 1, f, key);
    }
  }

  lemma {:induction false} FilledByPrefix(ttl: int, cycles: seq<Cycle>, c: nat, n: nat, key: Key)
    requires c < n <= |cycles| && Listed(cycles[c].snapshot, key)
    ensures FilledBy(ttl, cycles[..n], c, key) == FilledBy(ttl, cycles, c, key)
    decreases c
  {
    if c > 0 && Listed(cycles[c - 1].snapshot, key) {
      FilledByPrefix(ttl, cycles, c - 1, n, key);
    }
  }

  lemma HoldsPrefix(ttl: int, cycles: seq<Cycle>, c: nat, n: nat, key: Key, e: CachedDevice)
    requires c < n <= |cycles| && Listed(cycles[c].snapshot, key)
    ensures Holds(ttl, cycles[..n], c, key, e) <==> Holds(ttl, cycles, c, key, e)
  {
    FilledByPrefix(ttl, cycles, c, n, key);
  }

  lemma {:induction false} CacheExactly(ttl: int, cycles: seq<Cycle>, key: Key)
    requires AllDistinct(cycles) && cycles != []
    ensures key in DevicesAfter(ttl, cycles) <==> Listed(cycles[|cycles| - 1].snapshot, key)
    ensures key in DevicesAfter(ttl, cycles) ==>
              Holds(ttl, cycles, |cycles| - 1, key, DevicesAfter(ttl, cycles)[key])
    decreases |cycles|
  {
    var last, before := |cycles| - 1, cycles[..|cycles| - 1];
    CacheHoldsTheSnapshot(ttl, cycles);
    ListedExactly(cycles[last].snapshot, key);
    if Listed(cycles[last].snapshot, key) {
      CacheBefore(ttl, cycles, key);
      var i: nat :| IsAt(cycles[last].snapshot, key, i);
      AtMostOnce(cycles[last].snapshot, key, i);
      LatestHolds(ttl, cycles, last, key, DevicesAfter(ttl, before));
      var cache := DevicesAfter(ttl, before);
      RefreshAt(ttl, cycles[last].now, cycles[last].snapshot, 0, cache, cache, i);
      assert DeviceKey(cycles[last].snapshot[i]) == key;
    }
  }

  lemma {:induction false} CacheBefore(ttl: int, cycles: seq<Cycle>, key: Key)
    requires AllDistinct(cycles) && cycles != []
    ensures var last, before := |cycles| - 1, DevicesAfter(ttl, cycles[..|cycles| - 1]);
            && (key in before <==> last > 0 && Listed(cycles[last - 1].snapshot, key))
            && (key in before ==> Holds(ttl, cycles, last - 1, key, before[key]))
    decreases |cycles|, 0
  {
    var last := |cycles| - 1;
    if last > 0 {
      CacheExactly(ttl, cycles[..last], key);
      if Listed(cycles[last - 1].snapshot, key) {
        HoldsPrefix(ttl, cycles, last - 1, last, key, DevicesAfter(ttl, cycles[..last])[key]);
      }
    }
  }

  /**
   * Over any run of snapshots without repeated keys, each listed device reads as the last snapshot
   * lists it, with the details of the cycle that filled its entry.
   */
  lemma ListingExactly(ttl: int, cycles: seq<Cycle>, i: nat)
    requires AllDistinct(cycles) && cycles != [] && i < |cycles[|cycles| - 1].snapshot|
    ensures |Listing(ttl, cycles)| == |cycles[|cycles| - 1].snapshot|
    ensures var last, d := |cycles| - 1, cycles[|cycles| - 1].snapshot[i];
            var key := Key(d.source, d.namespace, d.id);
            && Listed(cycles[last].snapshot, key)
            && Listing(ttl, cycles)[i] == Pieced(cycles, last, FilledBy(ttl, cycles, last, key), key)
  {
    var last, d := |cycles| - 1, cycles[|cycles| - 1].snapshot[i];
    var key, before := DeviceKey(d), DevicesAfter(ttl, cycles[..|cycles| - 1]);
    AtMostOnce(cycles[last].snapshot, key, i);
    CacheBefore(ttl, cycles, key);
    LatestHolds(ttl, cycles, last, key, before);
    RefreshAt(ttl, cycles[last].now, cycles[last].snapshot, 0, before, before, i);
  }

  // Details are kept while they are in date.

  /** The key is listed with one serial number, user and platform from cycle `c` on, always less than `ttl` after it. */
  ghost predicate Steady(ttl: int, cycles: seq<Cycle>, c: nat, key: Key)
    requires c < |cycles|
  {
    && (forall b | c <= b < |cycles| :: Listed(cycles[b].snapshot, key))
    && forall b | c < b < |cycles| ::
         && SameHolder(DeviceAt(cycles[b - 1].snapshot, key), DeviceAt(cycles[b].snapshot, key))
         && cycles[b].now < cycles[c].now + ttl
  }

  lemma {:induction false} SteadyIsFilled(ttl: int, cycles: seq<Cycle>, c: nat, b: nat, key: Key)
    requires c <= b < |cycles| && Steady(ttl, cycles, c, key) && FilledBy(ttl, cycles, c, key) == c
    ensures FilledBy(ttl, cycles, b, key) == c
    decreases b
  {
    if c < b {
      SteadyIsFilled(ttl, cycles, c, b - 1, key);
    }
  }

  /**
   * If a cycle filled the entry of a key, because the key was new, its holder had changed or the
   * details had expired, every later cycle answers that cycle's details, as long as the key keeps being
   * listed with the same serial number, user and platform, and the details are in date.
   */
  lemma DetailsAreKept(ttl: int, cycles: seq<Cycle>, c: nat, key: Key, i: nat)
    requires AllDistinct(cycles) && c < |cycles| && Steady(ttl, cycles, c, key)
    requires || c == 0
             || !Listed(cycles[c - 1].snapshot, key)
             || !SameHolder(DeviceAt(cycles[c - 1].snapshot, key), DeviceAt(cycles[c].snapshot, key))
             || cycles[c].now >= cycles[FilledBy(ttl, cycles, c - 1, key)].now + ttl
    requires IsAt(cycles[|cycles| - 1].snapshot, key, i)
    ensures |Listing(ttl, cycles)| == |cycles[|cycles| - 1].snapshot|
    ensures var d, details := cycles[|cycles| - 1].snapshot[i], DeviceAt(cycles[c].snapshot, key);
            Listing(ttl, cycles)[i]
            == Device(d.source, d.namespace, d.id, d.currentName, d.serialNumber, d.platform, details.enrolledAt,
                      d.userID, details.model, details.osVersion, d.lastSeenAt, details.attributes)
  {
    var last := cycles[|cycles| - 1].snapshot;
    assert Key(last[i].source, last[i].namespace, last[i].id) == key;
    AtMostOnce(last, key, i);
    SteadyIsFilled(ttl, cycles, c, |cycles| - 1, key);
    ListingExactly(ttl, cycles, i);
  }
}
