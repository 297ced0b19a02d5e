/** Who is asked for and what is known of each user, exactly (internal/app/service.go:232-269). */
module CacheAnswers {
  import opened Basics
  import opened PlannerModel
  import opened CacheModel
  import opened CacheLaws

  predicate UsedAt(devices: seq<Device>, id: string, j: nat) {
    j < |devices| && devices[j].userID == id
  }

  /** Some device in the snapshot is this user's. */
  ghost predicate Active(devices: seq<Device>, id: string) {
    id != "" && exists j: nat :: UsedAt(devices, id, j)
  }

  lemma ActiveExactly(devices: seq<Device>, id: string)
    ensures Active(devices, id) <==> id in ActiveUsers(devices)
  {
    if Active(devices, id) {
      var j: nat :| UsedAt(devices, id, j);
      assert devices[j] in devices;
    }
    if id in ActiveUsers(devices) {
      var d :| d in devices && d.userID == id;
      var j: nat :| j < |devices| && devices[j] == d;
      assert UsedAt(devices, id, j);
    }
  }

  // One cycle.

  /** The resolver is asked and fails. */
  predicate Fails(identity: Option<Resolver>, asked: seq<string>) {
    identity.Some? && asked != [] && identity.value(asked).None?
  }

  /** The resolver is asked for the user and does not fail. */
  predicate Answers(identity: Option<Resolver>, asked: seq<string>, id: string) {
    identity.Some? && id in asked && identity.value(asked).Some?
  }

  function Answer(identity: Option<Resolver>, asked: seq<string>, id: string): User
    requires Answers(identity, asked, id)
  {
    var resolved := identity.value(asked).value;
    if id in resolved then resolved[id] else User(false, "", "", "", "", "", [], map[])
  }

  lemma StaleExactly(ttl: int, now: int, users: map<string, CachedUser>, devices: seq<Device>, id: string)
    ensures id in StaleFrom(ttl, now, users, devices, 0)
            <==> Active(devices, id) && (id !in users || users[id].refreshedAt + ttl <= now)
  {
    StaleMembers(ttl, now, users, devices, 0, id);
    if id != "" && exists i :: 0 <= i < |devices| && devices[i].userID == id {
      var i: nat :| i < |devices| && devices[i].userID == id;
      assert UsedAt(devices, id, i);
    }
  }

  /** One cycle, for one user: what stays or comes into the cache, and what is known. */
  lemma ResolveExactly(ttl: int, now: int, identity: Option<Resolver>, users: map<string, CachedUser>,
          devices: seq<Device>, id: string)
    ensures var asked := StaleFrom(ttl, now, users, devices, 0);
            var (kept, found) := Resolve(ttl, now, identity, users, devices);
            && (found.None? <==> Fails(identity, asked))
            && if Fails(identity, asked) then kept == users
               else
                 && (id in kept <==> Active(devices, id) && (id in users || Answers(identity, asked, id)))
                 && (id in kept ==> kept[id] == if Answers(identity, asked, id)
                                                then CachedUser(Answer(identity, asked, id), now) else users[id])
                 && (id in found.value <==> Active(devices, id))
                 && (id in found.value ==> found.value[id] == if id in kept then kept[id].user
                                                             else User(false, "", "", "", "", "", [], map[]))
  {
    ActiveExactly(devices, id);
  }

  // All cycles.

  ghost predicate AnsweredAt(ttl: int, cycles: seq<Cycle>, id: string, c: nat)
    requires c < |cycles|
  {
    Answers(cycles[c].identity, Asked(ttl, cycles, c), id)
  }

  ghost predicate FailedAt(ttl: int, cycles: seq<Cycle>, c: nat)
    requires c < |cycles|
  {
    Fails(cycles[c].identity, Asked(ttl, cycles, c))
  }

  /**
   * Of the first `n` cycles, `c` was the last to be answered about `id`, and every later one that did
   * not fail had a device of that user.
   */
  ghost predicate Kept(ttl: int, cycles: seq<Cycle>, n: nat, id: string, u: User, c: nat)
    requires n <= |cycles|
  {
    && c < n && AnsweredIn(ttl, cycles, id, u, c)
    && forall b | c < b < n :: Retains(ttl, cycles, id, b)
  }

  /** The cycle fails, or it has a device of the user and is not answered about it. */
  ghost predicate Retains(ttl: int, cycles: seq<Cycle>, id: string, b: nat)
    requires b < |cycles|
  {
    FailedAt(ttl, cycles, b) || (Active(cycles[b].snapshot, id) && !AnsweredAt(ttl, cycles, id, b))
  }

  lemma NotAnsweredIn(ttl: int, cycles: seq<Cycle>, id: string, u: User, c: nat)
    requires c < |cycles| && !AnsweredAt(ttl, cycles, id, c)
    ensures !AnsweredIn(ttl, cycles, id, u, c)
  {
  }

  /** The cache after `n` cycles tells which answer has been kept for the user, if one has. */
  ghost predicate Remembers(ttl: int, cycles: seq<Cycle>, n: nat, id: string, users: map<string, CachedUser>)
    requires n <= |cycles|
  {
    && (id in users ==>
          exists c: nat :: Kept(ttl, cycles, n, id, users[id].user, c) && users[id].refreshedAt == cycles[c].now)
    && forall u, c: nat | Kept(ttl, cycles, n, id, u, c) :: id in users && users[id] == CachedUser(u, cycles[c].now)
  }

  lemma OneMoreCycle(ttl: int, cycles: seq<Cycle>, n: nat)
    requires n < |cycles|
    ensures (UsersAfter(ttl, cycles[..n + 1]), UsersFound(ttl, cycles[..n + 1]))
            == Resolve(ttl, cycles[n].now, cycles[n].identity, UsersAfter(ttl, cycles[..n]), cycles[n].snapshot)
  {
    assert cycles[..n + 1][..n] == cycles[..n];
  }

  lemma AnsweredMeansNotFailed(ttl: int, cycles: seq<Cycle>, n: nat, id: string)
    requires n < |cycles| && AnsweredAt(ttl, cycles, id, n)
    ensures !FailedAt(ttl, cycles, n) && Active(cycles[n].snapshot, id)
  {
    StaleExactly(ttl, cycles[n].now, UsersAfter(ttl, cycles[..n]), cycles[n].snapshot, id);
  }

  lemma AnsweredNow(ttl: int, cycles: seq<Cycle>, n: nat, m: nat, id: string)
    requires m == n + 1 && n < |cycles| && AnsweredAt(ttl, cycles, id, n)
    ensures var u := Answer(cycles[n].identity, Asked(ttl, cycles, n), id);
            Kept(ttl, cycles, m, id, u, n)
            && forall v, c: nat | Kept(ttl, cycles, m, id, v, c) :: c == n && v == u
  {
    AnsweredMeansNotFailed(ttl, cycles, n, id);
    assert !Retains(ttl, cycles, id, n);
  }

  lemma KeptOneMore(ttl: int, cycles: seq<Cycle>, n: nat, m: nat, id: string, u: User, c: nat)
    requires m == n + 1 && n < |cycles| && !AnsweredAt(ttl, cycles, id, n)
    ensures Kept(ttl, cycles, m, id, u, c)
            <==> Kept(ttl, cycles, n, id, u, c) && (FailedAt(ttl, cycles, n) || Active(cycles[n].snapshot, id))
  {
    NotAnsweredIn(ttl, cycles, id, u, n);
    assert Retains(ttl, cycles, id, n) <==> FailedAt(ttl, cycles, n) || Active(cycles[n].snapshot, id);
  }

  /** Without an answer the entry stays, unless the cycle works and has no device of the user. */
  lemma CarriedOver(ttl: int, cycles: seq<Cycle>, n: nat, m: nat, id: string, users: map<string, CachedUser>,
          after: map<string, CachedUser>)
    requires m == n + 1 && n < |cycles| && !AnsweredAt(ttl, cycles, id, n) && Remembers(ttl, cycles, n, id, users)
    requires id in after <==> id in users && (FailedAt(ttl, cycles, n) || Active(cycles[n].snapshot, id))
    requires id in after ==> after[id] == users[id]
    ensures Remembers(ttl, cycles, m, id, after)
  {
    forall u, c: nat | Kept(ttl, cycles, m, id, u, c) ensures id in after && after[id] == CachedUser(u, cycles[c].now) {
      KeptOneMore(ttl, cycles, n, m, id, u, c);
    }
    if id in after {
      var c: nat :| Kept(ttl, cycles, n, id, users[id].user, c) && users[id].refreshedAt == cycles[c].now;
      KeptOneMore(ttl, cycles, n, m, id, users[id].user, c);
    }
  }

  lemma {:induction false} CacheRemembers(ttl: int, cycles: seq<Cycle>, n: nat, id: string)
    requires n <= |cycles|
    ensures Remembers(ttl, cycles, n, id, UsersAfter(ttl, cycles[..n]))
  {
    if n > 0 {
      CacheRemembers(ttl, cycles, n - 1, id);
      RemembersOneMore(ttl, cycles, n - 1, n, id);
    }
  }

  lemma RemembersOneMore(ttl: int, cycles: seq<Cycle>, n: nat, m: nat, id: string)
    requires m == n + 1 && n < |cycles| && Remembers(ttl, cycles, n, id, UsersAfter(ttl, cycles[..n]))
    ensures Remembers(ttl, cycles, m, id, UsersAfter(ttl, cycles[..m]))
  {
    var users, last := UsersAfter(ttl, cycles[..n]), cycles[n];
    OneMoreCycle(ttl, cycles, n);
    ResolveExactly(ttl, last.now, last.identity, users, last.snapshot, id);
    if AnsweredAt(ttl, cycles, id, n) {
      AnsweredMeansNotFailed(ttl, cycles, n, id);
      AnsweredNow(ttl, cycles, n, m, id);
    } else {
      CarriedOver(ttl, cycles, n, m, id, users, UsersAfter(ttl, cycles[..m]));
    }
  }

  /**
   * A cycle asks for a user exactly if it has a device of that user and no answer that was kept is
   * still in date.
   */
  lemma AskedExactly(ttl: int, cycles: seq<Cycle>, c: nat, id: string)
    requires c < |cycles|
    ensures id in Asked(ttl, cycles, c) <==>
              && Active(cycles[c].snapshot, id)
              && !exists u, a: nat :: Kept(ttl, cycles, c, id, u, a) && cycles[c].now < cycles[a].now + ttl
  {
    CacheRemembers(ttl, cycles, c, id);
    StaleExactly(ttl, cycles[c].now, UsersAfter(ttl, cycles[..c]), cycles[c].snapshot, id);
  }

  /**
   * A cycle that does not fail knows exactly the users its devices name, each as in the answer that
   * was kept, or as nobody if there is none.
   */
  lemma FoundExactly(ttl: int, cycles: seq<Cycle>, id: string)
    requires cycles != []
    ensures UsersFound(ttl, cycles).None? <==> FailedAt(ttl, cycles, |cycles| - 1)
    ensures UsersFound(ttl, cycles).Some? ==>
              var found := UsersFound(ttl, cycles).value;
              && (id in found <==> Active(cycles[|cycles| - 1].snapshot, id))
              && (id in found ==>
                    && (forall u, c: nat | Kept(ttl, cycles, |cycles|, id, u, c) :: found[id] == u)
                    && ((exists u, c: nat :: Kept(ttl, cycles, |cycles|, id, u, c))
                        || found[id] == User(false, "", "", "", "", "", [], map[])))
  {
    var n, last := |cycles| - 1, cycles[|cycles| - 1];
    assert cycles[..|cycles|] == cycles;
    CacheRemembers(ttl, cycles, |cycles|, id);
    ResolveExactly(ttl, last.now, last.identity, UsersAfter(ttl, cycles[..n]), last.snapshot, id);
  }

  /** The user has a device in every cycle after `c`, each less than `ttl` after it. */
  ghost predicate Steady(ttl: int, cycles: seq<Cycle>, id: string, c: nat)
    requires c < |cycles|
  {
    forall b | c < b < |cycles| :: Active(cycles[b].snapshot, id) && cycles[b].now < cycles[c].now + ttl
  }

  lemma StillKept(ttl: int, cycles: seq<Cycle>, id: string, u: User, c: nat, n: nat, m: nat)
    requires m == n + 1 && c < n < |cycles| && Kept(ttl, cycles, n, id, u, c) && Steady(ttl, cycles, id, c)
    ensures Kept(ttl, cycles, m, id, u, c) && id !in Asked(ttl, cycles, n)
  {
    AskedExactly(ttl, cycles, n, id);
    KeptOneMore(ttl, cycles, n, m, id, u, c);
  }

  lemma {:induction false} NotAskedAgain(ttl: int, cycles: seq<Cycle>, id: string, u: User, c: nat, n: nat)
    requires c < n <= |cycles| && AnsweredIn(ttl, cycles, id, u, c) && Steady(ttl, cycles, id, c)
    ensures Kept(ttl, cycles, n, id, u, c)
    ensures forall b | c < b < n :: id !in Asked(ttl, cycles, b)
    decreases n
  {
    if c + 1 < n {
      NotAskedAgain(ttl, cycles, id, u, c, n - 1);
      StillKept(ttl, cycles, id, u, c, n - 1, n);
    }
  }

  /**
   * A user who was resolved less than the time to live ago, and has had a device in every cycle since,
   * is not asked for again, and every cycle that does not fail knows that user as answered then.
   */
  lemma AnswersAreKept(ttl: int, cycles: seq<Cycle>, id: string, u: User, c: nat)
    requires c < |cycles| && AnsweredIn(ttl, cycles, id, u, c) && Steady(ttl, cycles, id, c)
    ensures forall b | c < b < |cycles| :: id !in Asked(ttl, cycles, b)
    ensures UsersFound(ttl, cycles).Some? ==>
              id in UsersFound(ttl, cycles).value && UsersFound(ttl, cycles).value[id] == u
  {
    NotAskedAgain(ttl, cycles, id, u, c, |cycles|);
    FoundExactly(ttl, cycles, id);
    AskedExactly(ttl, cycles, c, id);
  }
}
