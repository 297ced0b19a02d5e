/** The service's caches as fields updated in place. */
module CacheProgram {
  import opened Basics
  import opened PlannerModel
  import opened CacheModel
  import opened CacheLaws

  class Service {
    const deviceDetailsTTL: int
    const identityTTL: int
    var devices: map<Key, CachedDevice>
    var users: map<string, CachedUser>
    ghost var history: seq<Cycle>

    /** The caches are what the cycles so far have left in them. */
    ghost predicate Valid()
      reads this
    {
      && deviceDetailsTTL > 0 && identityTTL > 0
      && devices == DevicesAfter(deviceDetailsTTL, history)
      && users == UsersAfter(identityTTL, history)
    }

    constructor (deviceDetailsTTL: int, identityTTL: int)
      requires deviceDetailsTTL > 0 && identityTTL > 0
      ensures Valid() && history == []
      ensures this.deviceDetailsTTL == deviceDetailsTTL && this.identityTTL == identityTTL
    {
      this.deviceDetailsTTL, this.identityTTL := deviceDetailsTTL, identityTTL;
      devices, users, history := map[], map[], [];
    }

    method RefreshDevices(snapshot: seq<Device>, now: int) returns (listed: seq<Device>)
      modifies `devices
      ensures (devices, listed) == Refresh(deviceDetailsTTL, now, old(devices), snapshot)
    {
      var active: set<Key> := {};
      listed := [];
      var index := 0;
      ghost var after := RefreshFrom(deviceDetailsTTL, now, snapshot, 0, devices);
      while index < |snapshot|
        invariant 0 <= index <= |snapshot|
        invariant active == KeysOf(snapshot[..index])
        invariant RefreshFrom(deviceDetailsTTL, now, snapshot, index, devices).0 == after.0
        invariant listed + RefreshFrom(deviceDetailsTTL, now, snapshot, index, devices).1 == after.1
      {
        var incoming := snapshot[index];
        var key := DeviceKey(incoming);
        active := active + {key};
        var found := key in devices;
        var cached := if found then devices[key] else CachedDevice(incoming, now);
        var identityChanged := found && !SameIdentity(cached.device, incoming);
        if !found || identityChanged || now >= cached.refreshedAt + deviceDetailsTTL {
          cached := CachedDevice(incoming, now);
        } else {
          cached := cached.(device := cached.device.(currentName := incoming.currentName,
                                                     lastSeenAt := incoming.lastSeenAt));
        }
        assert cached == Latest(deviceDetailsTTL, now, devices, incoming);
        assert snapshot[..index + 1] == snapshot[..index] + [incoming];
        devices := devices[key := cached];
        listed := listed + [cached.device];
        index := index + 1;
      }
      assert snapshot[..|snapshot|] == snapshot;
      assert devices == after.0 && listed == after.1;
      RemoveOtherDevices(active);
      assert devices == Refresh(deviceDetailsTTL, now, old(devices), snapshot).0;
    }

    method RemoveOtherDevices(active: set<Key>)
      modifies `devices
      ensures devices == map key | key in old(devices) && key in active :: old(devices)[key]
    {
      var pending := devices.Keys;
      while pending != {}
        invariant pending <= old(devices).Keys
        invariant devices == map key | key in old(devices) && (key in active || key in pending) :: old(devices)[key]
        decreases |pending|
      {
        var key :| key in pending;
        if key !in active {
          devices := devices - {key};
        }
        pending := pending - {key};
      }
    }

    method RemoveOtherUsers(active: set<string>)
      modifies `users
      ensures users == map id | id in old(users) && id in active :: old(users)[id]
    {
      var pending := users.Keys;
      while pending != {}
        invariant pending <= old(users).Keys
        invariant users == map id | id in old(users) && (id in active || id in pending) :: old(users)[id]
        decreases |pending|
      {
        var id :| id in pending;
        if id !in active {
          users := users - {id};
        }
        pending := pending - {id};
      }
    }

    method StoreResolved(stale: seq<string>, resolved: map<string, User>, now: int)
      modifies `users
      ensures users == StoreUsers(old(users), stale, resolved, now)
    {
      var index := 0;
      while index < |stale|
        invariant 0 <= index <= |stale|
        invariant users == StoreUsers(old(users), stale[..index], resolved, now)
      {
        StoreOneMore(old(users), stale[..index], stale[index], resolved, now);
        users := users[stale[index] := CachedUser(UserIn(resolved, stale[index]), now)];
        assert stale[..index + 1] == stale[..index] + [stale[index]];
        index := index + 1;
      }
      assert stale[..|stale|] == stale;
    }

    /** None stands for an error; the caller then ends its cycle. */
    method ResolveUsers(listed: seq<Device>, now: int, identity: Option<Resolver>)
        returns (found: Option<map<string, User>>)
      modifies `users
      ensures (users, found) == Resolve(identityTTL, now, identity, old(users), listed)
    {
      var active, stale := FindStale(listed, now);
      if identity.Some? && stale != [] {
        var resolved := identity.value(stale);
        if resolved == None {
          return None;
        }
        StoreResolved(stale, resolved.value, now);
      }
      ghost var settled := SettleUsers(users, active);
      RemoveOtherUsers(active);
      assert users == settled.0;
      found := Some(map id | id in active :: CachedUserIn(users, id));
      assert found.value == settled.1;
    }

    method FindStale(listed: seq<Device>, now: int) returns (active: set<string>, stale: seq<string>)
      ensures active == ActiveUsers(listed)
      ensures stale == StaleFrom(identityTTL, now, users, listed, 0)
    {
      active, stale := {}, [];
      var index := 0;
      while index < |listed|
        invariant 0 <= index <= |listed|
        invariant active == ActiveUsers(listed[..index])
        invariant stale + StaleFrom(identityTTL, now, users, listed, index)
                  == StaleFrom(identityTTL, now, users, listed, 0)
      {
        var id := listed[index].userID;
        assert listed[..index + 1] == listed[..index] + [listed[index]];
        if id != "" {
          active := active + {id};
          if UserStale(identityTTL, now, users, id) {
            stale := stale + [id];
          }
        }
        index := index + 1;
      }
      assert listed[..|listed|] == listed;
    }

    /** The reading half of a cycle: the planner's records, or None when users could not be resolved. */
    method ReadInventory(snapshot: seq<Device>, now: int, identity: Option<Resolver>)
        returns (records: Option<seq<Record>>)
      requires Valid()
      modifies this
      ensures Valid() && history == old(history) + [Cycle(now, snapshot, identity)]
      ensures records == None <==> UsersFound(identityTTL, history) == None
      ensures records != None ==>
                RecordsOf(Listing(deviceDetailsTTL, history), UsersFound(identityTTL, history).value, records.value)
    {
      ghost var last := Cycle(now, snapshot, identity);
      ghost var longer := history + [last];
      assert longer[..|longer| - 1] == history;
      ListingKeepsUsers(deviceDetailsTTL, identityTTL, longer);
      var listed := RefreshDevices(snapshot, now);
      var found := ResolveUsers(listed, now, identity);
      history := longer;
      if found == None {
        return None;
      }
      records := Some(seq(|listed|,
                          i requires 0 <= i < |listed| => Record(listed[i], UserIn(found.value, listed[i].userID))));
    }
  }

  ghost predicate RecordsOf(listed: seq<Device>, found: map<string, User>, records: seq<Record>) {
    && |records| == |listed|
    && forall i | 0 <= i < |records| ::
         && records[i].device == listed[i]
         && records[i].user == if listed[i].userID in found then found[listed[i].userID]
                               else User(false, "", "", "", "", "", [], map[])
  }
}
