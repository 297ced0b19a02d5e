/** The plan, item by item, told from the records and what their expressions give (planner.go:58-305, 378-392). */
module PlannerOutcome {
  import opened Decimal
  import opened PlannerModel
  import opened PlannerEvaluation
  import opened PlannerRanking
  import opened PlannerRanks
  import opened PlannerSuffix
  import opened PlannerCollisions
  import opened PlannerNames
  import opened PlannerFirstPass
  import opened PlannerRoom
  import opened PlannerSecondPass
  import opened PlannerPlan
  import opened PlannerExact

  // Who contends.

  /** The record is to be called `name`, which fits, and every rank expression gives a comparable value for it. */
  ghost predicate Contends(p: Policy, r: Record, rule: string, name: string, fixed: bool) {
    && Fits(p, name, r.device.platform) && RanksWork(p, Bare(r))
    && if fixed then Fixes(p, r, rule, name) else Computes(p, r, rule, name)
  }

  lemma PreparedIsEvaluated(p: Policy, r: Record)
    requires Prepare(p, r).candidate
    ensures var w := Prepare(p, r);
            Evaluate(p, r) == Work(r, ItemFor(r, w.plan.rule, w.plan.desiredName, Unset, NoReason), true,
                                   w.authoritative, [])
            && w.plan == Evaluate(p, r).plan
  {
    RanksExactly(p, r);
    SomePathIsFollowed(p, r);
    var path :| Follows(p, r, path);
    PathDecides(p, r, path);
    CandidateIsNamed(p, r, path);
  }

  /** Collision resolution starts with exactly the records that contend, each for its own name. */
  lemma ContendersExactly(p: Policy, r: Record, rule: string, name: string, fixed: bool)
    ensures Contends(p, r, rule, name, fixed) <==>
            && Prepare(p, r).candidate && Prepare(p, r).authoritative == fixed
            && Prepare(p, r).plan == ItemFor(r, rule, name, Unset, NoReason)
  {
    RanksExactly(p, r);
    CandidatesExactly(p, r, rule, name, fixed);
    if Prepare(p, r).candidate {
      PreparedIsEvaluated(p, r);
    }
  }

  // What each outcome makes of its item.

  /** The item of a device that is to have `name`. */
  function Final(r: Record, rule: string, name: string): Item {
    if r.device.currentName == name then ItemFor(r, rule, name, Unchanged, AlreadyMatches)
    else ItemFor(r, rule, name, Rename, Differs)
  }

  /** Some suffix makes the name longer than the platform allows. */
  ghost predicate Outgrows(p: Policy, name: string, platform: string) {
    exists n: nat, limit ::
      1 <= n <= 1_000_000 && IsLimit(p, platform, limit) && |name + p.separator + Itoa(n)| > limit
  }

  lemma OutgrowsExactly(p: Policy, w: Work)
    ensures WhyOutOfSuffixes(p, w)
            == if Outgrows(p, w.plan.desiredName, w.record.device.platform) then SuffixTooLong else SequenceExhausted
  {
    var name, platform := w.plan.desiredName, w.record.device.platform;
    assert IsLimit(p, platform, MaximumLength(p, platform));
    forall n: nat ensures Overlong(p, name, platform, n)
                          <==> exists limit :: IsLimit(p, platform, limit) && |name + p.separator + Itoa(n)| > limit
    {
    }
    if Outgrows(p, name, platform) {
      var n: nat, limit :|
        1 <= n <= 1_000_000 && IsLimit(p, platform, limit) && |name + p.separator + Itoa(n)| > limit;
      assert Overlong(p, name, platform, n);
    }
  }

  lemma WonItem(p: Policy, records: seq<Record>, i: nat)
    requires DistinctIdentities(records) && i < |records| && Prepared(p, records)[i].candidate
    requires Wins(p, Prepared(p, records), i)
    ensures i < |SortRecords(records)|
    ensures var w := Prepared(p, records)[i];
            PlanItems(p, records)[i] == Final(SortRecords(records)[i], w.plan.rule, w.plan.desiredName)
  {
    PreparedIsReady(p, records);
    FirstPassExactly(p, Prepared(p, records), i);
    SettledFromTheStart(p, Prepared(p, records), i);
    ItemAt(p, records, i);
    PreparedIsEvaluated(p, SortRecords(records)[i]);
  }

  lemma RejectedItem(p: Policy, records: seq<Record>, i: nat)
    requires DistinctIdentities(records) && i < |records| && Prepared(p, records)[i].candidate
    requires OutcomeAt(p, records, i).Rejected?
    ensures i < |SortRecords(records)|
    ensures var w := Prepared(p, records)[i];
            PlanItems(p, records)[i] == ItemFor(SortRecords(records)[i], w.plan.rule, w.plan.desiredName, Invalid,
                                                OutcomeAt(p, records, i).reason)
  {
    ItemAt(p, records, i);
    PreparedIsEvaluated(p, SortRecords(records)[i]);
  }

  lemma NumberedItem(p: Policy, records: seq<Record>, i: nat)
    requires DistinctIdentities(records) && i < |records| && Loses(p, Prepared(p, records), i)
    requires !OutOfSuffixes(p, Prepared(p, records), i)
    ensures i < |SortRecords(records)|
    ensures OutcomeAt(p, records, i).Numbered?
    ensures FirstFree(p, Prepared(p, records), i, OutcomeAt(p, records, i).sequence)
    ensures var w, n := Prepared(p, records)[i], OutcomeAt(p, records, i).sequence;
            PlanItems(p, records)[i]
            == Final(SortRecords(records)[i], w.plan.rule, w.plan.desiredName + p.separator + Itoa(n))
  {
    PreparedIsReady(p, records);
    SecondPassExactly(p, Prepared(p, records), i);
    ItemAt(p, records, i);
    PreparedIsEvaluated(p, SortRecords(records)[i]);
  }

  lemma RecordAt(p: Policy, records: seq<Record>, i: nat)
    requires DistinctIdentities(records) && i < |records|
    ensures i < |SortRecords(records)| && Prepared(p, records)[i].record == SortRecords(records)[i]
  {
    SortRecordsOrders(records);
    PrepareIsWell(p, SortRecords(records)[i]);
  }

  lemma RejectionsExactly(p: Policy, records: seq<Record>, i: nat)
    requires DistinctIdentities(records) && i < |records| && Prepared(p, records)[i].candidate
    ensures var work, o := Prepared(p, records), OutcomeAt(p, records, i);
            && (TurnedAway(p, work, i) ==> o == Rejected(WhyTurnedAway(p, work, i)))
            && (Loses(p, work, i) && OutOfSuffixes(p, work, i) ==>
                  o == Rejected(if Outgrows(p, work[i].plan.desiredName, work[i].record.device.platform)
                                then SuffixTooLong else SequenceExhausted))
  {
    var work := Prepared(p, records);
    PreparedIsReady(p, records);
    FirstPassExactly(p, work, i);
    if TurnedAway(p, work, i) {
      SettledFromTheStart(p, work, i);
    } else if Loses(p, work, i) {
      SecondPassExactly(p, work, i);
      OutgrowsExactly(p, work[i]);
    }
  }

  lemma TurnedAwayItem(p: Policy, records: seq<Record>, i: nat)
    requires DistinctIdentities(records) && i < |records| && TurnedAway(p, Prepared(p, records), i)
    ensures i < |SortRecords(records)|
    ensures var w := Prepared(p, records)[i];
            PlanItems(p, records)[i] == ItemFor(SortRecords(records)[i], w.plan.rule, w.plan.desiredName, Invalid,
                                                WhyTurnedAway(p, Prepared(p, records), i))
  {
    RejectionsExactly(p, records, i);
    RejectedItem(p, records, i);
  }

  lemma CrowdedOutItem(p: Policy, records: seq<Record>, i: nat)
    requires DistinctIdentities(records) && i < |records| && Loses(p, Prepared(p, records), i)
    requires OutOfSuffixes(p, Prepared(p, records), i)
    ensures i < |SortRecords(records)|
    ensures var r, w := SortRecords(records)[i], Prepared(p, records)[i];
            PlanItems(p, records)[i]
            == ItemFor(r, w.plan.rule, w.plan.desiredName, Invalid,
                       if Outgrows(p, w.plan.desiredName, r.device.platform) then SuffixTooLong else SequenceExhausted)
  {
    RecordAt(p, records, i);
    RejectionsExactly(p, records, i);
    RejectedItem(p, records, i);
  }

  /** The item planned for the record at position `i` of the sorted inventory. */
  ghost predicate PlannedAs(p: Policy, records: seq<Record>, i: nat, item: Item)
    requires i < |records| && i < |SortRecords(records)|
  {
    var r, work := SortRecords(records)[i], Prepared(p, records);
    var rule, name := work[i].plan.rule, work[i].plan.desiredName;
    if !work[i].candidate then item == work[i].plan
    else if TurnedAway(p, work, i) then item == ItemFor(r, rule, name, Invalid, WhyTurnedAway(p, work, i))
    else if Wins(p, work, i) then item == Final(r, rule, name)
    else
      && Loses(p, work, i)
      && if OutOfSuffixes(p, work, i)
         then item == ItemFor(r, rule, name, Invalid,
                              if Outgrows(p, name, r.device.platform) then SuffixTooLong else SequenceExhausted)
         else exists n: nat :: FirstFree(p, work, i, n) && item == Final(r, rule, name + p.separator + Itoa(n))
  }

  /**
   * Every item of the plan, in full. A record that does not contend has the item evaluation gave it.
   * A contender that is turned away is invalid for the clash, or for the device that holds its fixed
   * name; a winner has the plain name; a loser has the plain name, the separator and the number of its
   * first free suffix, or is invalid because a suffix is too long or all are taken. A device to be
   * given a name is renamed if it has another one, and unchanged if not.
   */
  lemma PlannedExactly(p: Policy, records: seq<Record>, i: nat)
    requires DistinctIdentities(records) && i < |records|
    ensures i < |SortRecords(records)| && PlannedAs(p, records, i, PlanItems(p, records)[i])
  {
    PreparedIsReady(p, records);
    ItemAt(p, records, i);
    var work := Prepared(p, records);
    if !work[i].candidate {
      ResolvedTotal(p, work, i);
    } else {
      FirstPassExactly(p, work, i);
      if TurnedAway(p, work, i) {
        TurnedAwayItem(p, records, i);
      } else if Wins(p, work, i) {
        WonItem(p, records, i);
      } else if OutOfSuffixes(p, work, i) {
        CrowdedOutItem(p, records, i);
      } else {
        NumberedItem(p, records, i);
      }
    }
  }

  /** A finished name fits its platform: 15 bytes on Windows, 63 on Apple's, and never more than the policy allows. */
  lemma PlannedNamesFit(p: Policy, records: seq<Record>, i: nat)
    requires DistinctIdentities(records) && i < |records| && Finished(PlanItems(p, records)[i])
    ensures Fits(p, PlanItems(p, records)[i].desiredName, PlanItems(p, records)[i].platform)
  {
    PlanIsTotalAndValid(p, records, i);
    FaultExactly(p, PlanItems(p, records)[i].desiredName, PlanItems(p, records)[i].platform);
  }

  // Who is placed first.

  /** The record contends for a name that folds to `key`. */
  ghost predicate Asks(p: Policy, r: Record, key: string) {
    exists rule, name, fixed :: Contends(p, r, rule, name, fixed) && p.fold(name) == key
  }

  lemma AsksExactly(p: Policy, r: Record, key: string)
    ensures Asks(p, r, key) <==> Prepare(p, r).candidate && KeyOf(p, Prepare(p, r)) == key
  {
    forall rule, name, fixed | Contends(p, r, rule, name, fixed)
      ensures Prepare(p, r).candidate && Prepare(p, r).plan.desiredName == name
    {
      ContendersExactly(p, r, rule, name, fixed);
    }
    var w := Prepare(p, r);
    if w.candidate {
      PreparedIsEvaluated(p, r);
      ContendersExactly(p, r, w.plan.rule, w.plan.desiredName, w.authoritative);
    }
  }

  lemma OutrankedExactly(p: Policy, records: seq<Record>, i: nat)
    requires DistinctIdentities(records) && i < |records| && Prepared(p, records)[i].candidate
    ensures |SortRecords(records)| == |records|
    ensures var sorted, key := SortRecords(records), KeyOf(p, Prepared(p, records)[i]);
            Outranked(p, Prepared(p, records), i) <==>
            exists j: nat :: j < |records| && Asks(p, sorted[j], key) && Precedes(p, key, sorted[j], sorted[i])
  {
    SortRecordsOrders(records);
    var sorted, work, key := SortRecords(records), Prepared(p, records), KeyOf(p, Prepared(p, records)[i]);
    forall j: nat | j < |records|
      ensures InGroup(p, work, key, j) && Beats(p, work[j], work[i])
              <==> Asks(p, sorted[j], key) && Precedes(p, key, sorted[j], sorted[i])
    {
      AsksExactly(p, sorted[j], key);
      if InGroup(p, work, key, j) {
        BeatsExactly(p, sorted[j], sorted[i]);
      }
    }
  }

  /**
   * A name that is neither held nor fixed goes to the record nobody precedes: of the contenders for
   * it, told by their own rank expressions, exactly the first is planned to have the plain name.
   */
  lemma FirstRecordWins(p: Policy, records: seq<Record>, i: nat, rule: string, name: string)
    requires DistinctIdentities(records) && i < |records|
    requires !Held(p, Prepared(p, records), p.fold(name)) && !FixedElsewhere(p, Prepared(p, records), p.fold(name))
    requires i < |SortRecords(records)| && Contends(p, SortRecords(records)[i], rule, name, false)
    ensures |SortRecords(records)| == |records|
    ensures var sorted := SortRecords(records);
            PlanItems(p, records)[i] == Final(sorted[i], rule, name)
            <==> forall j: nat | j < |records| && Asks(p, sorted[j], p.fold(name)) ::
                   !Precedes(p, p.fold(name), sorted[j], sorted[i])
  {
    var r, work := SortRecords(records)[i], Prepared(p, records);
    SortRecordsOrders(records);
    ContendersExactly(p, r, rule, name, false);
    assert work[i] == Prepare(p, r);
    OutrankedExactly(p, records, i);
    PlainItemMeansWinner(p, records, i);
    ClashMeansFixed(p, work, p.fold(name));
  }

  lemma PlainItemMeansWinner(p: Policy, records: seq<Record>, i: nat)
    requires DistinctIdentities(records) && i < |records| && i < |SortRecords(records)|
    requires Prepared(p, records)[i].candidate
    ensures var w := Prepared(p, records)[i];
            PlanItems(p, records)[i] == Final(SortRecords(records)[i], w.plan.rule, w.plan.desiredName)
            <==> Wins(p, Prepared(p, records), i)
  {
    PreparedIsReady(p, records);
    FirstPassExactly(p, Prepared(p, records), i);
    PlannedExactly(p, records, i);
  }

  lemma ClashMeansFixed(p: Policy, work: seq<Work>, key: string)
    ensures Clash(p, work, key) ==> FixedElsewhere(p, work, key)
  {
  }

  /** Of two contenders for one name, exactly one precedes the other. */
  lemma PrecedesConnected(p: Policy, key: string, a: Record, b: Record)
    requires Asks(p, a, key) && Asks(p, b, key) && Identity(a) != Identity(b)
    ensures Precedes(p, key, a, b) <==> !Precedes(p, key, b, a)
  {
    AsksExactly(p, a, key);
    AsksExactly(p, b, key);
    BeatsExactly(p, a, b);
    BeatsExactly(p, b, a);
    PrepareIsWell(p, a);
    PrepareIsWell(p, b);
    BeatsConnected(p, Prepare(p, a), Prepare(p, b));
  }

  /** Of two records numbered under one name, the one that comes first has the smaller number. */
  lemma FirstRecordHasSmallerNumber(p: Policy, records: seq<Record>, i: nat, j: nat, name: string)
    requires DistinctIdentities(records) && i < |records| && j < |records|
    requires OutcomeAt(p, records, i).Numbered? && OutcomeAt(p, records, j).Numbered?
    requires Prepared(p, records)[i].plan.desiredName == name == Prepared(p, records)[j].plan.desiredName
    requires |SortRecords(records)| == |records|
    requires Precedes(p, p.fold(name), SortRecords(records)[i], SortRecords(records)[j])
    ensures OutcomeAt(p, records, i).sequence < OutcomeAt(p, records, j).sequence
  {
    var sorted, work := SortRecords(records), Prepared(p, records);
    PreparedIsReady(p, records);
    ResolvedTotal(p, work, i);
    ResolvedTotal(p, work, j);
    BeatsExactly(p, sorted[i], sorted[j]);
    NumbersFollowRank(p, work, i, j);
  }
}
