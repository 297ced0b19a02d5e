/** What the caches answer over a whole run of cycles. */
module CacheLaws {
  import opened Basics
  import opened PlannerModel
  import opened CacheModel

  /** One cycle: when it ran, the complete snapshot it listed, and what a resolver would have answered. */
  datatype Cycle = Cycle(now: int, snapshot: seq<Device>, identity: Option<Resolver>)

  function DevicesAfter(ttl: int, cycles: seq<Cycle>): map<Key, CachedDevice> {
    if cycles == [] then map[]
    else
      var last := cycles[|cycles| - 1];
      Refresh(ttl, last.now, DevicesAfter(ttl, cycles[..|cycles| - 1]), last.snapshot).0
  }

  /** The devices the last cycle works on. */
  function Listing(ttl: int, cycles: seq<Cycle>): seq<Device>
    requires cycles != []
  {
    var last := cycles[|cycles| - 1];
    Refresh(ttl, last.now, DevicesAfter(ttl, cycles[..|cycles| - 1]), last.snapshot).1
  }

  /** `d` was filled from entry `j` of snapshot `c`, and its key has been listed in every snapshot since. */
  ghost predicate Origin(cycles: seq<Cycle>, d: Device, c: nat, j: nat) {
    && c < |cycles| && j < |cycles[c].snapshot|
    && DeviceKey(cycles[c].snapshot[j]) == DeviceKey(d)
    && SameIdentity(cycles[c].snapshot[j], d) && SameDetails(cycles[c].snapshot[j], d)
    && forall b | c <= b < |cycles| :: DeviceKey(d) in KeysOf(cycles[b].snapshot)
  }

  ghost predicate Sourced(cycles: seq<Cycle>, e: CachedDevice) {
    exists c: nat, j: nat :: Origin(cycles, e.device, c, j) && e.refreshedAt == cycles[c].now
  }

  ghost predicate AllSourced(cycles: seq<Cycle>, cache: map<Key, CachedDevice>, keys: set<Key>) {
    forall key | key in cache && key in keys :: DeviceKey(cache[key].device) == key && Sourced(cycles, cache[key])
  }

  lemma SourcedStays(cycles: seq<Cycle>, next: Cycle, e: CachedDevice)
    requires Sourced(cycles, e) && DeviceKey(e.device) in KeysOf(next.snapshot)
    ensures Sourced(cycles + [next], e)
  {
    var c: nat, j: nat :| Origin(cycles, e.device, c, j) && e.refreshedAt == cycles[c].now;
    assert Origin(cycles + [next], e.device, c, j);
  }

  lemma IncomingIsSourced(cycles: seq<Cycle>, k: nat)
    requires cycles != [] && k < |cycles[|cycles| - 1].snapshot|
    ensures Sourced(cycles, CachedDevice(cycles[|cycles| - 1].snapshot[k], cycles[|cycles| - 1].now))
  {
    assert Origin(cycles, cycles[|cycles| - 1].snapshot[k], |cycles| - 1, k);
  }

  /** One lookup: identity and name come from the incoming device, the rest from an origin still in date. */
  lemma LatestIsSourced(ttl: int, cycles: seq<Cycle>, cache: map<Key, CachedDevice>, k: nat)
    requires ttl > 0 && cycles != [] && k < |cycles[|cycles| - 1].snapshot|
    requires AllSourced(cycles, cache, KeysOf(cycles[|cycles| - 1].snapshot))
    ensures var incoming, now := cycles[|cycles| - 1].snapshot[k], cycles[|cycles| - 1].now;
            var e := Latest(ttl, now, cache, incoming);
            && DeviceKey(e.device) == DeviceKey(incoming) && SameIdentity(e.device, incoming)
            && e.device.currentName == incoming.currentName && e.device.lastSeenAt == incoming.lastSeenAt
            && Sourced(cycles, e) && now < e.refreshedAt + ttl
  {
    var incoming, now := cycles[|cycles| - 1].snapshot[k], cycles[|cycles| - 1].now;
    var e := Latest(ttl, now, cache, incoming);
    IncomingIsSourced(cycles, k);
    if e != CachedDevice(incoming, now) {
      var kept := cache[DeviceKey(incoming)];
      assert DeviceKey(incoming) in KeysOf(cycles[|cycles| - 1].snapshot);
      var c: nat, j: nat :| Origin(cycles, kept.device, c, j) && kept.refreshedAt == cycles[c].now;
      assert Origin(cycles, e.device, c, j);
    }
  }

  lemma {:induction false} RefreshIsSourced(ttl: int, cycles: seq<Cycle>, cache: map<Key, CachedDevice>, k: nat)
    requires ttl > 0 && cycles != [] && k <= |cycles[|cycles| - 1].snapshot|
    requires AllSourced(cycles, cache, KeysOf(cycles[|cycles| - 1].snapshot))
    ensures var last := cycles[|cycles| - 1];
            AllSourced(cycles, RefreshFrom(ttl, last.now, last.snapshot, k, cache).0, KeysOf(last.snapshot))
    decreases |cycles[|cycles| - 1].snapshot| - k
  {
    var last := cycles[|cycles| - 1];
    if k < |last.snapshot| {
      LatestIsSourced(ttl, cycles, cache, k);
      RefreshIsSourced(ttl, cycles,
                       cache[DeviceKey(last.snapshot[k]) := Latest(ttl, last.now, cache, last.snapshot[k])], k + 1);
    }
  }

  lemma {:induction false} RefreshKeys(ttl: int, now: int, snapshot: seq<Device>, k: nat, cache: map<Key, CachedDevice>)
    requires k <= |snapshot|
    ensures RefreshFrom(ttl, now, snapshot, k, cache).0.Keys == cache.Keys + KeysOf(snapshot[k..])
    ensures |RefreshFrom(ttl, now, snapshot, k, cache).1| == |snapshot| - k
    decreases |snapshot| - k
  {
    if k < |snapshot| {
      assert snapshot[k..] == [snapshot[k]] + snapshot[k + 1..];
      RefreshKeys(ttl, now, snapshot, k + 1, cache[DeviceKey(snapshot[k]) := Latest(ttl, now, cache, snapshot[k])]);
    }
  }

  /** After every cycle the device cache holds exactly the keys of the snapshot. */
  lemma CacheHoldsTheSnapshot(ttl: int, cycles: seq<Cycle>)
    requires cycles != []
    ensures DevicesAfter(ttl, cycles).Keys == KeysOf(cycles[|cycles| - 1].snapshot)
    ensures |Listing(ttl, cycles)| == |cycles[|cycles| - 1].snapshot|
  {
    var last, before := cycles[|cycles| - 1], DevicesAfter(ttl, cycles[..|cycles| - 1]);
    RefreshKeys(ttl, last.now, last.snapshot, 0, before);
    assert last.snapshot[0..] == last.snapshot;
  }

  /** Before the last snapshot is looked up: what its keys still have is sourced in the longer run too. */
  lemma CarryOver(ttl: int, cycles: seq<Cycle>)
    requires cycles != []
    requires AllSourced(cycles[..|cycles| - 1], DevicesAfter(ttl, cycles[..|cycles| - 1]),
                        DevicesAfter(ttl, cycles[..|cycles| - 1]).Keys)
    ensures AllSourced(cycles, DevicesAfter(ttl, cycles[..|cycles| - 1]), KeysOf(cycles[|cycles| - 1].snapshot))
  {
    var before, last := cycles[..|cycles| - 1], cycles[|cycles| - 1];
    var cache := DevicesAfter(ttl, before);
    assert cycles == before + [last];
    forall key | key in cache && key in KeysOf(last.snapshot) ensures Sourced(cycles, cache[key]) {
      SourcedStays(before, last, cache[key]);
    }
  }

  lemma {:induction false} RunsStaySourced(ttl: int, cycles: seq<Cycle>)
    requires ttl > 0
    ensures AllSourced(cycles, DevicesAfter(ttl, cycles), DevicesAfter(ttl, cycles).Keys)
    decreases |cycles|
  {
    if cycles != [] {
      RunsStaySourced(ttl, cycles[..|cycles| - 1]);
      CarryOver(ttl, cycles);
      RefreshIsSourced(ttl, cycles, DevicesAfter(ttl, cycles[..|cycles| - 1]), 0);
    }
  }

  lemma {:induction false} ListedIsLatest(ttl: int, cycles: seq<Cycle>, cache: map<Key, CachedDevice>, k: nat, i: nat)
    requires ttl > 0 && cycles != [] && k <= i < |cycles[|cycles| - 1].snapshot|
    requires AllSourced(cycles, cache, KeysOf(cycles[|cycles| - 1].snapshot))
    ensures var last := cycles[|cycles| - 1];
            var listed := RefreshFrom(ttl, last.now, last.snapshot, k, cache).1;
            |listed| == |last.snapshot| - k && UpToDate(ttl, cycles, listed[i - k], i)
    decreases i - k
  {
    var last := cycles[|cycles| - 1];
    var entry := Latest(ttl, last.now, cache, last.snapshot[k]);
    RefreshKeys(ttl, last.now, last.snapshot, k, cache);
    LatestIsSourced(ttl, cycles, cache, k);
    if k < i {
      ListedIsLatest(ttl, cycles, cache[DeviceKey(last.snapshot[k]) := entry], k + 1, i);
    } else {
      var c: nat, j: nat :| Origin(cycles, entry.device, c, j) && entry.refreshedAt == cycles[c].now;
      assert InDate(ttl, cycles, entry.device, c, j);
    }
  }

  ghost predicate InDate(ttl: int, cycles: seq<Cycle>, d: Device, c: nat, j: nat) {
    Origin(cycles, d, c, j) && cycles[|cycles| - 1].now < cycles[c].now + ttl
  }

  /**
   * `d` reads as entry `i` of the last snapshot in key, serial number, user, platform, current name
   * and last-seen time; everything else it says comes from one snapshot whose age is below `ttl`.
   */
  ghost predicate UpToDate(ttl: int, cycles: seq<Cycle>, d: Device, i: nat)
    requires cycles != [] && i < |cycles[|cycles| - 1].snapshot|
  {
    var incoming := cycles[|cycles| - 1].snapshot[i];
    && DeviceKey(d) == DeviceKey(incoming) && SameIdentity(d, incoming)
    && d.currentName == incoming.currentName && d.lastSeenAt == incoming.lastSeenAt
    && exists c: nat, j: nat :: InDate(ttl, cycles, d, c, j)
  }

  /** Over any run from an empty cache, every listed device is up to date. */
  lemma ListingIsUpToDate(ttl: int, cycles: seq<Cycle>, i: nat)
    requires ttl > 0 && cycles != [] && i < |cycles[|cycles| - 1].snapshot|
    ensures |Listing(ttl, cycles)| == |cycles[|cycles| - 1].snapshot|
    ensures UpToDate(ttl, cycles, Listing(ttl, cycles)[i], i)
  {
    RunsStaySourced(ttl, cycles[..|cycles| - 1]);
    CarryOver(ttl, cycles);
    ListedIsLatest(ttl, cycles, DevicesAfter(ttl, cycles[..|cycles| - 1]), 0, i);
  }

  predicate DistinctDevices(devices: seq<Device>) {
    forall i, j | 0 <= i < j < |devices| :: DeviceKey(devices[i]) != DeviceKey(devices[j])
  }

  /** Once every earlier snapshot has expired, a listing is a direct read of the last one. */
  lemma ExpiredCacheReadsThrough(ttl: int, cycles: seq<Cycle>)
    requires ttl > 0 && cycles != []
    requires forall c | 0 <= c < |cycles| - 1 :: cycles[|cycles| - 1].now >= cycles[c].now + ttl
    requires DistinctDevices(cycles[|cycles| - 1].snapshot)
    ensures Listing(ttl, cycles) == cycles[|cycles| - 1].snapshot
  {
    var last := cycles[|cycles| - 1];
    CacheHoldsTheSnapshot(ttl, cycles);
    forall i | 0 <= i < |last.snapshot| ensures Listing(ttl, cycles)[i] == last.snapshot[i] {
      ListingIsUpToDate(ttl, cycles, i);
      var d := Listing(ttl, cycles)[i];
      var c: nat, j: nat :| InDate(ttl, cycles, d, c, j);
      assert c == |cycles| - 1;
    }
  }

  // Users.

  function UsersAfter(ttl: int, cycles: seq<Cycle>): map<string, CachedUser> {
    if cycles == [] then map[]
    else
      var last := cycles[|cycles| - 1];
      Resolve(ttl, last.now, last.identity, UsersAfter(ttl, cycles[..|cycles| - 1]), last.snapshot).0
  }

  /** What the last cycle knows of its users; None when they could not be resolved. */
  function UsersFound(ttl: int, cycles: seq<Cycle>): Option<map<string, User>>
    requires cycles != []
  {
    var last := cycles[|cycles| - 1];
    Resolve(ttl, last.now, last.identity, UsersAfter(ttl, cycles[..|cycles| - 1]), last.snapshot).1
  }

  /** The users cycle `c` asks for. */
  function Asked(ttl: int, cycles: seq<Cycle>, c: nat): seq<string>
    requires c < |cycles|
  {
    StaleFrom(ttl, cycles[c].now, UsersAfter(ttl, cycles[..c]), cycles[c].snapshot, 0)
  }

  /** `u` is what cycle `c` was answered about `id`. */
  ghost predicate AnsweredIn(ttl: int, cycles: seq<Cycle>, id: string, u: User, c: nat) {
    && c < |cycles| && cycles[c].identity.Some? && id in Asked(ttl, cycles, c)
    && cycles[c].identity.value(Asked(ttl, cycles, c)).Some?
    && var resolved := cycles[c].identity.value(Asked(ttl, cycles, c)).value;
       u == if id in resolved then resolved[id] else User(false, "", "", "", "", "", [], map[])
  }

  ghost predicate UserSourced(ttl: int, cycles: seq<Cycle>, id: string, e: CachedUser) {
    exists c: nat :: AnsweredIn(ttl, cycles, id, e.user, c) && e.refreshedAt == cycles[c].now
  }

  lemma UserSourcedStays(ttl: int, cycles: seq<Cycle>, id: string, e: CachedUser)
    requires cycles != [] && UserSourced(ttl, cycles[..|cycles| - 1], id, e)
    ensures UserSourced(ttl, cycles, id, e)
  {
    var before := cycles[..|cycles| - 1];
    var c: nat :| AnsweredIn(ttl, before, id, e.user, c) && e.refreshedAt == before[c].now;
    assert before[..c] == cycles[..c];
    assert AnsweredIn(ttl, cycles, id, e.user, c);
  }

  lemma AnswerIsSourced(ttl: int, cycles: seq<Cycle>, id: string)
    requires cycles != [] && cycles[|cycles| - 1].identity.Some? && id in Asked(ttl, cycles, |cycles| - 1)
    requires cycles[|cycles| - 1].identity.value(Asked(ttl, cycles, |cycles| - 1)).Some?
    ensures var last := cycles[|cycles| - 1];
            UserSourced(ttl, cycles, id,
                        CachedUser(UserIn(last.identity.value(Asked(ttl, cycles, |cycles| - 1)).value, id), last.now))
  {
    var last := cycles[|cycles| - 1];
    var u := UserIn(last.identity.value(Asked(ttl, cycles, |cycles| - 1)).value, id);
    assert AnsweredIn(ttl, cycles, id, u, |cycles| - 1);
  }

  lemma {:induction false} UsersStaySourced(ttl: int, cycles: seq<Cycle>)
    ensures forall id | id in UsersAfter(ttl, cycles) :: UserSourced(ttl, cycles, id, UsersAfter(ttl, cycles)[id])
    decreases |cycles|
  {
    if cycles != [] {
      var before, last := UsersAfter(ttl, cycles[..|cycles| - 1]), cycles[|cycles| - 1];
      UsersStaySourced(ttl, cycles[..|cycles| - 1]);
      forall id | id in UsersAfter(ttl, cycles) ensures UserSourced(ttl, cycles, id, UsersAfter(ttl, cycles)[id]) {
        if id in before && before[id] == UsersAfter(ttl, cycles)[id] {
          UserSourcedStays(ttl, cycles, id, before[id]);
        } else {
          AnswerIsSourced(ttl, cycles, id);
        }
      }
    }
  }

  lemma {:induction false} StaleMembers(ttl: int, now: int, users: map<string, CachedUser>, devices: seq<Device>,
          k: nat, id: string)
    requires k <= |devices|
    ensures id in StaleFrom(ttl, now, users, devices, k)
            <==> id != "" && UserStale(ttl, now, users, id) && exists i :: k <= i < |devices| && devices[i].userID == id
    decreases |devices| - k
  {
    if k < |devices| {
      StaleMembers(ttl, now, users, devices, k + 1, id);
    }
  }

  /** Once a cycle has resolved its users, every entry of an active one is in date and is what is found. */
  lemma ResolvedIsInDate(ttl: int, now: int, identity: Option<Resolver>, users: map<string, CachedUser>,
          devices: seq<Device>, id: string)
    requires ttl > 0 && identity.Some? && Resolve(ttl, now, identity, users, devices).1.Some?
             && id in ActiveUsers(devices)
    ensures var (kept, found) := Resolve(ttl, now, identity, users, devices);
            id in kept && id in found.value && found.value[id] == kept[id].user && now < kept[id].refreshedAt + ttl
  {
    StaleMembers(ttl, now, users, devices, 0, id);
  }

  /** With an identity source, what a cycle knows of a user was answered less than `ttl` ago. */
  lemma UsersAreUpToDate(ttl: int, cycles: seq<Cycle>, id: string)
    requires ttl > 0 && cycles != [] && cycles[|cycles| - 1].identity.Some? && UsersFound(ttl, cycles).Some?
    requires id in ActiveUsers(cycles[|cycles| - 1].snapshot)
    ensures id in UsersFound(ttl, cycles).value
    ensures exists c: nat ::
              AnsweredIn(ttl, cycles, id, UsersFound(ttl, cycles).value[id], c)
              && cycles[|cycles| - 1].now < cycles[c].now + ttl
  {
    var last := cycles[|cycles| - 1];
    ResolvedIsInDate(ttl, last.now, last.identity, UsersAfter(ttl, cycles[..|cycles| - 1]), last.snapshot, id);
    UsersStaySourced(ttl, cycles);
    var e := UsersAfter(ttl, cycles)[id];
    var c: nat :| AnsweredIn(ttl, cycles, id, e.user, c) && e.refreshedAt == cycles[c].now;
  }

  /**
   * A resolved cycle caches active users only, each of them if there is an identity source; a failed
   * one changes nothing.
   */
  lemma UserCacheKeys(ttl: int, cycles: seq<Cycle>)
    requires cycles != []
    ensures var last, active := cycles[|cycles| - 1], ActiveUsers(cycles[|cycles| - 1].snapshot);
            match UsersFound(ttl, cycles)
            case None => UsersAfter(ttl, cycles) == UsersAfter(ttl, cycles[..|cycles| - 1])
            case Some(found) =>
              && found.Keys == active
              && UsersAfter(ttl, cycles).Keys <= active
              && (last.identity.Some? ==> UsersAfter(ttl, cycles).Keys == active)
  {
    var before, last := UsersAfter(ttl, cycles[..|cycles| - 1]), cycles[|cycles| - 1];
    forall id | id in ActiveUsers(last.snapshot) && last.identity.Some? && UsersFound(ttl, cycles).Some?
      ensures id in UsersAfter(ttl, cycles)
    {
      StaleMembers(ttl, last.now, before, last.snapshot, 0, id);
    }
  }

  predicate SameUsers(a: seq<Device>, b: seq<Device>) {
    |a| == |b| && forall i | 0 <= i < |a| :: a[i].userID == b[i].userID
  }

  lemma {:induction false} StaleReadsUsers(ttl: int, now: int, users: map<string, CachedUser>, a: seq<Device>,
          b: seq<Device>, k: nat)
    requires SameUsers(a, b)
    ensures StaleFrom(ttl, now, users, a, k) == StaleFrom(ttl, now, users, b, k)
    decreases |a| - k
  {
    if k < |a| {
      StaleReadsUsers(ttl, now, users, a, b, k + 1);
    }
  }

  lemma ResolveReadsUsers(ttl: int, now: int, identity: Option<Resolver>, users: map<string, CachedUser>,
          a: seq<Device>, b: seq<Device>)
    requires SameUsers(a, b)
    ensures Resolve(ttl, now, identity, users, a) == Resolve(ttl, now, identity, users, b)
  {
    StaleReadsUsers(ttl, now, users, a, b, 0);
    assert ActiveUsers(a) == ActiveUsers(b) by {
      forall i | 0 <= i < |a|
        ensures a[i].userID != "" ==> a[i].userID in ActiveUsers(b) && b[i].userID in ActiveUsers(a)
      {
        assert a[i] in a && b[i] in b;
      }
    }
  }

  /** Users are resolved for the listed devices, which name the same users as the snapshot does. */
  lemma ListingKeepsUsers(deviceTTL: int, ttl: int, cycles: seq<Cycle>)
    requires deviceTTL > 0 && cycles != []
    ensures var last, before := cycles[|cycles| - 1], UsersAfter(ttl, cycles[..|cycles| - 1]);
            Resolve(ttl, last.now, last.identity, before, Listing(deviceTTL, cycles))
            == (UsersAfter(ttl, cycles), UsersFound(ttl, cycles))
  {
    var last, before := cycles[|cycles| - 1], UsersAfter(ttl, cycles[..|cycles| - 1]);
    CacheHoldsTheSnapshot(deviceTTL, cycles);
    forall i | 0 <= i < |last.snapshot| ensures Listing(deviceTTL, cycles)[i].userID == last.snapshot[i].userID {
      ListingIsUpToDate(deviceTTL, cycles, i);
    }
    ResolveReadsUsers(ttl, last.now, last.identity, before, Listing(deviceTTL, cycles), last.snapshot);
  }
}
