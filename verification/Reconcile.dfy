/** One reconciliation cycle put together, and the cycle after it (internal/app/service.go, Reconcile). */
module Reconciliation {
  import opened Basics
  import opened Sorting
  import P = PlannerModel
  import Plans = PlannerPlan
  import Replan = PlannerReplan
  import Planner = PlannerResolve
  import opened LedgerModel
  import opened LedgerLaws
  import opened LedgerProgram
  import opened ServiceModel
  import opened ServiceOutcome
  import opened ServiceReport
  import opened ServiceProgram
  import Caches = CacheModel
  import Runs = CacheLaws
  import CacheProgram

  function ResultOf(i: P.Item): ApplyResult {
    ApplyResult(i, if i.status == P.Rename then ActionPlanned else NoAction, 0, ZERO_TIME, "")
  }

  function ResultsOf(items: seq<P.Item>): seq<ApplyResult> {
    seq(|items|, i requires 0 <= i < |items| => ResultOf(items[i]))
  }

  /** What listing the inventory refuses to go without. */
  predicate Identified(d: P.Device) {
    d.source != "" && d.namespace != "" && d.id != ""
  }

  predicate AllIdentified(records: seq<P.Record>) {
    forall i | 0 <= i < |records| :: Identified(records[i].device)
  }

  lemma SortedIdentified(records: seq<P.Record>, i: nat)
    requires AllIdentified(records) && i < |records|
    ensures i < |Plans.SortRecords(records)| && Identified(Plans.SortRecords(records)[i].device)
  {
    SortKeeps(records, Plans.RecordBelow);
    MembersOf(Plans.SortRecords(records), records);
    assert Plans.SortRecords(records)[i] in Plans.SortRecords(records);
  }

  lemma PlannedKey(p: P.Policy, records: seq<P.Record>, i: nat)
    requires Plans.DistinctIdentities(records) && i < |records|
    ensures i < |Plans.SortRecords(records)|
    ensures ItemKey(Plans.PlanItems(p, records)[i]) == P.Identity(Plans.SortRecords(records)[i])
  {
    Plans.PlanIsTotalAndValid(p, records, i);
  }

  lemma KeysDiffer(p: P.Policy, records: seq<P.Record>, i: nat, j: nat)
    requires Plans.DistinctIdentities(records) && i < j < |records|
    ensures ItemKey(Plans.PlanItems(p, records)[i]) != ItemKey(Plans.PlanItems(p, records)[j])
  {
    PlannedKey(p, records, i);
    PlannedKey(p, records, j);
    Plans.SortRecordsOrders(records);
    assert Plans.RecordBelow(Plans.SortRecords(records)[i], Plans.SortRecords(records)[j]);
  }

  lemma RenameIsRequestable(p: P.Policy, records: seq<P.Record>, cfg: Settings, now: int, i: nat)
    requires Plans.DistinctIdentities(records) && AllIdentified(records) && cfg.retryAfter > 0 && cfg.maxAttempts > 0
    requires i < |records| && Plans.PlanItems(p, records)[i].status == P.Rename
    ensures ValidRequest(RequestFor(cfg, now, Plans.PlanItems(p, records)[i]))
  {
    PlannedKey(p, records, i);
    SortedIdentified(records, i);
    Plans.PlanIsTotalAndValid(p, records, i);
    NamesAreNonEmpty(p, Plans.SortRecords(records)[i], Plans.PlanItems(p, records)[i]);
  }

  lemma NamesAreNonEmpty(p: P.Policy, r: P.Record, item: P.Item)
    requires Plans.GoodItem(p, r, item) && item.status == P.Rename
    ensures item.desiredName != ""
  {
  }

  lemma ItemsFeedApply(items: seq<P.Item>, cfg: Settings, now: int)
    requires forall i: nat, j: nat | i < j < |items| :: ItemKey(items[i]) != ItemKey(items[j])
    requires forall i: nat | i < |items| && items[i].status == P.Rename :: ValidRequest(RequestFor(cfg, now, items[i]))
    ensures DistinctItems(ResultsOf(items)) && Unapplied(ResultsOf(items)) && Requestable(cfg, now, ResultsOf(items))
  {
  }

  /** The plan's items have distinct ledger keys, and every planned rename is a request the ledger accepts. */
  lemma PlanFeedsApply(p: P.Policy, records: seq<P.Record>, cfg: Settings, now: int)
    requires Plans.DistinctIdentities(records) && AllIdentified(records) && cfg.retryAfter > 0 && cfg.maxAttempts > 0
    ensures var results := ResultsOf(Plans.PlanItems(p, records));
            DistinctItems(results) && Unapplied(results) && Requestable(cfg, now, results)
  {
    var items := Plans.PlanItems(p, records);
    forall i: nat, j: nat | i < j < |items| ensures ItemKey(items[i]) != ItemKey(items[j]) {
      KeysDiffer(p, records, i, j);
    }
    forall i: nat | i < |items| && items[i].status == P.Rename ensures ValidRequest(RequestFor(cfg, now, items[i])) {
      RenameIsRequestable(p, records, cfg, now, i);
    }
    ItemsFeedApply(items, cfg, now);
  }

  /** The records are what the caches answer in the last cycle. */
  ghost predicate Read(service: CacheProgram.Service, records: seq<P.Record>)
    reads service
  {
    && service.history != [] && Runs.UsersFound(service.identityTTL, service.history).Some?
    && CacheProgram.RecordsOf(Runs.Listing(service.deviceDetailsTTL, service.history),
                              Runs.UsersFound(service.identityTTL, service.history).value, records)
  }

  /** Reads the inventory and plans. None stands for an error: unresolved users, or a shared identity. */
  method PlanCycle(service: CacheProgram.Service, p: P.Policy, now: int, snapshot: seq<P.Device>,
          identity: Option<Caches.Resolver>)
    returns (items: Option<seq<P.Item>>, ghost records: seq<P.Record>)
    requires service.Valid() && forall d | d in snapshot :: Identified(d)
    modifies service
    ensures service.Valid() && service.history == old(service.history) + [Runs.Cycle(now, snapshot, identity)]
    ensures items.Some? ==>
              && Read(service, records) && AllIdentified(records) && Plans.DistinctIdentities(records)
              && items.value == Plans.PlanItems(p, records)
    ensures items.None? ==>
              Runs.UsersFound(service.identityTTL, service.history).None?
              || (Read(service, records) && !Plans.DistinctIdentities(records))
  {
    var read := service.ReadInventory(snapshot, now, identity);
    if read == None {
      return None, [];
    }
    records := read.value;
    Runs.CacheHoldsTheSnapshot(service.deviceDetailsTTL, service.history);
    RecordsIdentified(service.deviceDetailsTTL, service.history, records);
    var plan := Planner.PlanRecords(p, read.value);
    items := if plan.Planned? then Some(plan.items) else None;
  }

  /** How a cycle ends: without a plan, with a plan only, stopped while preparing, or with all submissions made. */
  datatype CycleEnd =
    | Unplanned
    | Planned(results: seq<ApplyResult>)
    | Halted(results: seq<ApplyResult>)
    | Applied(results: seq<ApplyResult>, joined: seq<(Key, string)>)

  /** One cycle; without `apply` the ledger is left alone. */
  method Reconcile(service: CacheProgram.Service, p: P.Policy, cfg: Settings, now: int, before: Context,
          during: Context, workers: nat, apply: bool, snapshot: seq<P.Device>, identity: Option<Caches.Resolver>,
          provider: Job -> Reply, ledger: Ledger)
    returns (end: CycleEnd, ghost records: seq<P.Record>)
    requires service.Valid() && ledger.Valid() && workers > 0 && now > ZERO_TIME && Clocked(cfg, ledger.State())
    requires forall d | d in snapshot :: Identified(d)
    modifies service, ledger, ledger.store
    ensures service.Valid() && ledger.Valid()
    ensures service.history == old(service.history) + [Runs.Cycle(now, snapshot, identity)]
    ensures end.Unplanned? || !apply ==> ledger.State() == old(ledger.State())
    ensures !end.Unplanned? ==> Read(service, records) && Plans.DistinctIdentities(records)
    ensures !end.Unplanned? && !apply ==> end == Planned(ResultsOf(Plans.PlanItems(p, records)))
    ensures !end.Unplanned? && apply ==>
              AppliedTo(cfg, now, before, during, ResultsOf(Plans.PlanItems(p, records)), old(ledger.State()), end,
                        ledger.State())
  {
    var items;
    items, records := PlanCycle(service, p, now, snapshot, identity);
    if items == None {
      return Unplanned, records;
    }
    PlanFeedsApply(p, records, cfg, now);
    end := ApplyItems(cfg, now, before, during, workers, apply, items.value, provider, ledger);
  }

  /**
   * What applying may come to: the prepare loop stopped, having told what the ledger holds up to
   * there, or every rename is reported. Over sound saves and unless cancelled it is the latter, and
   * every report tells what the ledger holds.
   */
  ghost predicate AppliedTo(cfg: Settings, now: int, before: Context, during: Context, start: seq<ApplyResult>,
          m: Machine, end: CycleEnd, n: Machine) {
    var st := PrepareAll(cfg, now, before, start, m);
    var sound := m.script == [] && NeverCancelled(before);
    if st.failed then
      && !sound && end == Halted(st.results) && n == st.m
      && exists stop :: LoopTells(cfg, start, st, stop) && StopsAt(before, start, st, stop)
    else end.Applied? && ListsErrors(end.results, end.joined) && (end.joined == [] <==> NoErrors(end.results))
         && Reported(cfg, start, end.results, n.intents, sound && NeverCancelled(during))
  }

  method ApplyItems(cfg: Settings, now: int, before: Context, during: Context, workers: nat, apply: bool,
          items: seq<P.Item>, provider: Job -> Reply, ledger: Ledger)
    returns (end: CycleEnd)
    requires ledger.Valid() && workers > 0 && now > ZERO_TIME && Clocked(cfg, ledger.State())
    requires DistinctItems(ResultsOf(items)) && Unapplied(ResultsOf(items)) && Requestable(cfg, now, ResultsOf(items))
    modifies ledger, ledger.store
    ensures ledger.Valid() && !end.Unplanned?
    ensures !apply ==> ledger.State() == old(ledger.State()) && end == Planned(ResultsOf(items))
    ensures apply ==>
              AppliedTo(cfg, now, before, during, ResultsOf(items), old(ledger.State()), end, ledger.State())
  {
    var results := new ApplyResult[|items|](i requires 0 <= i < |items| => ResultOf(items[i]));
    assert results[..] == ResultsOf(items);
    if !apply {
      return Planned(results[..]);
    }
    var failed, joined, prepared, stop, moves := Apply(cfg, now, before, during, workers, provider, ledger, results);
    end := if failed then Halted(results[..]) else Applied(results[..], joined);
  }

  lemma RecordsIdentified(ttl: int, cycles: seq<Runs.Cycle>, records: seq<P.Record>)
    requires ttl > 0 && cycles != [] && |records| == |cycles[|cycles| - 1].snapshot|
    requires forall d | d in cycles[|cycles| - 1].snapshot :: Identified(d)
    requires |Runs.Listing(ttl, cycles)| == |records|
    requires forall i | 0 <= i < |records| :: records[i].device == Runs.Listing(ttl, cycles)[i]
    ensures AllIdentified(records)
  {
    forall i | 0 <= i < |records| ensures Identified(records[i].device) {
      Runs.ListingIsUpToDate(ttl, cycles, i);
      var incoming := cycles[|cycles| - 1].snapshot[i];
      assert incoming in cycles[|cycles| - 1].snapshot;
      assert Identified(incoming);
      assert Caches.DeviceKey(records[i].device) == Caches.DeviceKey(incoming);
    }
  }

  // The cycle after a plan has been applied.

  /**
   * Without planned renames a cycle only observes: it has nothing to submit, and up to `k`, where a
   * failed save or a cancelled context may have stopped it, it clears every intent that has come true.
   */
  ghost predicate Quiet(start: seq<ApplyResult>, st: Loop, k: nat) {
    && k <= |start| && st.jobs == [] && (st.failed || st.results == start)
    && forall i | 0 <= i < k :: Cleared(start[i].item, st.m.intents)
  }

  lemma QuietStep(cfg: Settings, now: int, start: seq<ApplyResult>, st: Loop, k: nat)
    requires Quiet(start, st, k) && k < |start| && !st.failed && DistinctItems(start) && Clocked(cfg, st.m)
    requires start[k].item.status != P.Rename
    ensures var n := PrepareOne(cfg, now, st, k);
            Quiet(start, n, if n.failed then k else k + 1) && Clocked(cfg, n.m)
  {
    var item, n := start[k].item, PrepareOne(cfg, now, st, k);
    var op := DoObserve(ItemKey(item), StateSerialNumber(item.id, item.serialNumber), item.currentName);
    ObserveStaysClocked(cfg, st.m, op.key, op.serialNumber, op.currentName);
    PerformTouches(st.m, op);
    if !n.failed {
      ObserveClears(st.m, item);
    }
    forall i | 0 <= i < k ensures Cleared(start[i].item, n.m.intents) {
      StaysCleared(start[i].item, st.m, n.m, op.key);
    }
  }

  lemma {:induction false} QuietRun(cfg: Settings, now: int, ctx: Context, start: seq<ApplyResult>, st: Loop, k: nat)
      returns (stop: nat)
    requires Quiet(start, st, k) && !st.failed && DistinctItems(start) && Clocked(cfg, st.m)
    requires forall i | k <= i < |start| :: start[i].item.status != P.Rename
    ensures Quiet(start, PrepareFrom(cfg, now, ctx, st, k), stop)
    ensures !PrepareFrom(cfg, now, ctx, st, k).failed ==> stop == |start|
    decreases |start| - k
  {
    stop := k;
    if k < |start| && !ctx(k) {
      QuietStep(cfg, now, start, st, k);
      var n := PrepareOne(cfg, now, st, k);
      if !n.failed {
        stop := QuietRun(cfg, now, ctx, start, n, k + 1);
      }
    }
  }

  /**
   * Once planning again has nothing left to do, the cycle after the plan has taken effect calls no
   * provider and, unless stopped, forgets every intent that has come true, whatever the ledger held.
   */
  lemma NextCycleIsQuiet(p: P.Policy, records: seq<P.Record>, cfg: Settings, now: int, ctx: Context, m: Machine)
      returns (stop: nat)
    requires Plans.DistinctIdentities(records) && Replan.NothingLeft(p, records) && Clocked(cfg, m)
    ensures Plans.DistinctIdentities(Replan.Applied(p, records))
    ensures var results := ResultsOf(Plans.PlanItems(p, Replan.Applied(p, records)));
            var st := PrepareAll(cfg, now, ctx, results, m);
            Quiet(results, st, stop) && (!st.failed ==> stop == |results|)
  {
    Replan.AppliedSorted(p, records);
    var after := Replan.Applied(p, records);
    var results := ResultsOf(Plans.PlanItems(p, after));
    forall i: nat, j: nat | i < j < |results| ensures ItemKey(results[i].item) != ItemKey(results[j].item) {
      KeysDiffer(p, after, i, j);
    }
    stop := QuietRun(cfg, now, ctx, results, Loop(results, m, [], false), 0);
  }

  /**
   * Whatever the policy prefers, as long as it does not read current names: after at most one
   * application for each device, and one more, a cycle calls no provider.
   */
  lemma CyclesBecomeQuiet(p: P.Policy, records: seq<P.Record>, cfg: Settings, now: int, ctx: Context, m: Machine)
      returns (n: nat, stop: nat)
    requires Plans.DistinctIdentities(records) && Replan.BlindPolicy(p) && Clocked(cfg, m)
    ensures n <= |records|
    ensures var results := ResultsOf(Plans.PlanItems(p, Replan.Applied(p, Replan.AppliedTimes(p, records, n))));
            var st := PrepareAll(cfg, now, ctx, results, m);
            Quiet(results, st, stop) && (!st.failed ==> stop == |results|)
  {
    n := Replan.RepeatedApplyConverges(p, records);
    Replan.AppliedTimesIsRounds(p, records, n);
    stop := NextCycleIsQuiet(p, Replan.AppliedTimes(p, records, n), cfg, now, ctx, m);
  }
}
