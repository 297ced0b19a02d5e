/** The device and user caches as functions (internal/app/service.go:206-269). */
module CacheModel {
  import opened Basics
  import opened PlannerModel

  datatype CachedDevice = CachedDevice(device: Device, refreshedAt: int)

  datatype CachedUser = CachedUser(user: User, refreshedAt: int)

  const ZERO_USER := User(false, "", "", "", "", "", [], map[])

  function DeviceKey(d: Device): Key {
    Key(d.source, d.namespace, d.id)
  }

  predicate SameIdentity(a: Device, b: Device) {
    a.serialNumber == b.serialNumber && a.userID == b.userID && a.platform == b.platform
  }

  /** What a device keeps from the snapshot its entry was filled from. */
  predicate SameDetails(a: Device, b: Device) {
    a.enrolledAt == b.enrolledAt && a.model == b.model && a.osVersion == b.osVersion && a.attributes == b.attributes
  }

  function KeysOf(snapshot: seq<Device>): set<Key> {
    set d | d in snapshot :: DeviceKey(d)
  }

  function Latest(ttl: int, now: int, cache: map<Key, CachedDevice>, incoming: Device): CachedDevice {
    var key := DeviceKey(incoming);
    if key !in cache || !SameIdentity(cache[key].device, incoming) || now >= cache[key].refreshedAt + ttl
    then CachedDevice(incoming, now)
    else cache[key].(device := cache[key].device.(currentName := incoming.currentName,
                                                  lastSeenAt := incoming.lastSeenAt))
  }

  /** The cache once the devices from `k` on have been looked up, and the devices listed for them. */
  function RefreshFrom(ttl: int, now: int, snapshot: seq<Device>, k: nat,
          cache: map<Key, CachedDevice>): (map<Key, CachedDevice>, seq<Device>)
    decreases |snapshot| - k
  {
    if k >= |snapshot| then (cache, [])
    else
      var entry := Latest(ttl, now, cache, snapshot[k]);
      var (after, listed) := RefreshFrom(ttl, now, snapshot, k + 1, cache[DeviceKey(snapshot[k]) := entry]);
      (after, [entry.device] + listed)
  }

  function Refresh(ttl: int, now: int, cache: map<Key, CachedDevice>, snapshot: seq<Device>): (map<Key, CachedDevice>,
          seq<Device>) {
    var (after, listed) := RefreshFrom(ttl, now, snapshot, 0, cache);
    (map key | key in after && key in KeysOf(snapshot) :: after[key], listed)
  }

  // Users.

  function ActiveUsers(devices: seq<Device>): set<string> {
    set d | d in devices && d.userID != "" :: d.userID
  }

  predicate UserStale(ttl: int, now: int, users: map<string, CachedUser>, id: string) {
    id !in users || now >= users[id].refreshedAt + ttl
  }

  /** In device order, with repeats. */
  function StaleFrom(ttl: int, now: int, users: map<string, CachedUser>, devices: seq<Device>, k: nat): seq<string>
    decreases |devices| - k
  {
    if k >= |devices| then []
    else if devices[k].userID != "" && UserStale(ttl, now, users, devices[k].userID)
    then [devices[k].userID] + StaleFrom(ttl, now, users, devices, k + 1)
    else StaleFrom(ttl, now, users, devices, k + 1)
  }

  /** A missing map entry reads as the zero user. */
  function UserIn(resolved: map<string, User>, id: string): User {
    if id in resolved then resolved[id] else ZERO_USER
  }

  function StoreUsers(users: map<string, CachedUser>, stale: seq<string>, resolved: map<string, User>,
          now: int): map<string, CachedUser> {
    map id | id in users.Keys + (set s | s in stale) ::
      if id in stale then CachedUser(UserIn(resolved, id), now) else users[id]
  }

  lemma StoreOneMore(users: map<string, CachedUser>, stale: seq<string>, id: string, resolved: map<string, User>,
          now: int)
    ensures StoreUsers(users, stale + [id], resolved, now)
            == StoreUsers(users, stale, resolved, now)[id := CachedUser(UserIn(resolved, id), now)]
  {
  }

  function CachedUserIn(users: map<string, CachedUser>, id: string): User {
    if id in users then users[id].user else ZERO_USER
  }

  /** Once lookups are done: the entries of active users, and the users they stand for. */
  function SettleUsers(users: map<string, CachedUser>, active: set<string>): (map<string, CachedUser>,
          map<string, User>) {
    (map id | id in users && id in active :: users[id], map id | id in active :: CachedUserIn(users, id))
  }

  type Resolver = seq<string> -> Option<map<string, User>>

  /** The user cache and the users; None when the resolver failed. Without a resolver nobody is looked up. */
  function Resolve(ttl: int, now: int, identity: Option<Resolver>, users: map<string, CachedUser>, devices: seq<Device>)
    : (map<string, CachedUser>, Option<map<string, User>>)
  {
    var stale := StaleFrom(ttl, now, users, devices, 0);
    if identity.None? || stale == [] then
      var (kept, found) := SettleUsers(users, ActiveUsers(devices));
      (kept, Some(found))
    else match identity.value(stale)
      case None => (users, None)
      case Some(resolved) =>
        var (kept, found) := SettleUsers(StoreUsers(users, stale, resolved, now), ActiveUsers(devices));
        (kept, Some(found))
  }
}
