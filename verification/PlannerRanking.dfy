/** Who wins a contested name (planner.go, compareCandidates and compareRank). */
module PlannerRanking {
  import opened Basics
  import opened Sorting
  import opened PlannerModel

  function CompareInts(a: int, b: int): int {
    if a < b then -1 else if a == b then 0 else 1
  }

  /** None stands for a panic. */
  function CompareRank(left: RankValue, right: RankValue): Option<int> {
    match left.kind
    case KindInt => Some(CompareInts(left.integer, right.integer))
    case KindString => Some(Compare(left.text, right.text))
    case KindTimestamp => Some(CompareInts(left.timestamp, right.timestamp))
    case _ => None
  }

  /** Compares ranks from position `k` on; reading past the end of `right` or of the policy panics. */
  function CompareRanks(p: Policy, left: seq<RankValue>, right: seq<RankValue>, k: nat): Option<int>
    decreases |left| - k
  {
    if k >= |left| then Some(0)
    else if k >= |right| || k >= |p.ranks| then None
    else match CompareRank(left[k], right[k])
      case None => None
      case Some(raw) =>
        var order := if p.ranks[k].descending then -raw else raw;
        if order != 0 then Some(order) else CompareRanks(p, left, right, k + 1)
  }

  predicate Existing(p: Policy, w: Work) {
    p.fold(w.plan.currentName) == p.fold(w.plan.desiredName)
  }

  function CompareCandidates(p: Policy, left: Work, right: Work): Option<int> {
    if p.preserveExisting && Existing(p, left) != Existing(p, right) then
      Some(if Existing(p, left) then -1 else 1)
    else match CompareRanks(p, left.ranks, right.ranks, 0)
      case None => None
      case Some(order) =>
        if order != 0 then Some(order)
        else Some(CompareKeys(Identity(left.record), Identity(right.record)))
  }

  predicate Beats(p: Policy, left: Work, right: Work) {
    match CompareCandidates(p, left, right)
    case Some(order) => order < 0
    case None => false
  }

  predicate ComparableKind(kind: Kind) {
    kind == KindInt || kind == KindString || kind == KindTimestamp
  }

  /** One rank per configured expression, each of that expression's own comparable kind. */
  ghost predicate Ranked(p: Policy, ranks: seq<RankValue>) {
    && |ranks| == |p.ranks|
    && forall k | 0 <= k < |ranks| :: ranks[k].kind == p.ranks[k].program.kind && ComparableKind(ranks[k].kind)
  }

  lemma RankFlips(left: RankValue, right: RankValue)
    requires left.kind == right.kind && ComparableKind(left.kind)
    ensures CompareRank(left, right).Some? && CompareRank(right, left).Some?
    ensures CompareRank(right, left).value == -CompareRank(left, right).value
  {
    CompareFlips(left.text, right.text);
  }

  lemma RankTransitive(a: RankValue, b: RankValue, c: RankValue)
    requires a.kind == b.kind == c.kind && ComparableKind(a.kind)
    requires CompareRank(a, b).value <= 0 && CompareRank(b, c).value <= 0
    ensures CompareRank(a, c).value <= 0
    ensures CompareRank(a, c).value == 0 ==> CompareRank(a, b).value == 0 && CompareRank(b, c).value == 0
  {
    if a.kind == KindString && Below(a.text, b.text) && Below(b.text, c.text) {
      CompareTransitive(a.text, b.text, c.text);
    }
  }

  lemma {:induction false} RanksFlip(p: Policy, left: seq<RankValue>, right: seq<RankValue>, k: nat)
    requires Ranked(p, left) && Ranked(p, right)
    ensures CompareRanks(p, left, right, k).Some? && CompareRanks(p, right, left, k).Some?
    ensures CompareRanks(p, right, left, k).value == -CompareRanks(p, left, right, k).value
    decreases |left| - k
  {
    if k < |left| {
      RankFlips(left[k], right[k]);
      RanksFlip(p, left, right, k + 1);
    }
  }

  /** The comparison of position `k` alone, with its direction applied. */
  function Directed(p: Policy, left: seq<RankValue>, right: seq<RankValue>, k: nat): Option<int>
    requires k < |left| && k < |right| && k < |p.ranks|
  {
    match CompareRank(left[k], right[k])
    case None => None
    case Some(raw) => Some(if p.ranks[k].descending then -raw else raw)
  }

  lemma DirectedTransitive(p: Policy, a: seq<RankValue>, b: seq<RankValue>, c: seq<RankValue>, k: nat)
    requires Ranked(p, a) && Ranked(p, b) && Ranked(p, c) && k < |p.ranks|
    ensures Directed(p, a, b, k).Some? && Directed(p, b, c, k).Some? && Directed(p, a, c, k).Some?
    ensures Directed(p, a, b, k).value <= 0 && Directed(p, b, c, k).value <= 0 ==>
              && Directed(p, a, c, k).value <= 0
              && (Directed(p, a, c, k).value == 0 ==>
                    Directed(p, a, b, k).value == 0 && Directed(p, b, c, k).value == 0)
  {
    RankFlips(a[k], b[k]);
    RankFlips(b[k], c[k]);
    RankFlips(a[k], c[k]);
    if Directed(p, a, b, k).value <= 0 && Directed(p, b, c, k).value <= 0 {
      if p.ranks[k].descending {
        RankTransitive(c[k], b[k], a[k]);
      } else {
        RankTransitive(a[k], b[k], c[k]);
      }
    }
  }

  lemma {:induction false} RanksTransitive(p: Policy, a: seq<RankValue>, b: seq<RankValue>, c: seq<RankValue>, k: nat)
    requires Ranked(p, a) && Ranked(p, b) && Ranked(p, c)
    requires CompareRanks(p, a, b, k).Some? && CompareRanks(p, b, c, k).Some?
    requires CompareRanks(p, a, b, k).value <= 0 && CompareRanks(p, b, c, k).value <= 0
    ensures CompareRanks(p, a, c, k).Some? && CompareRanks(p, a, c, k).value <= 0
    ensures CompareRanks(p, a, c, k).value == 0 ==>
              CompareRanks(p, a, b, k).value == 0 && CompareRanks(p, b, c, k).value == 0
    decreases |a| - k
  {
    if k < |a| {
      DirectedTransitive(p, a, b, c, k);
      if Directed(p, a, b, k).value == 0 && Directed(p, b, c, k).value == 0 {
        RanksTransitive(p, a, b, c, k + 1);
      }
    }
  }

  /** No panic, and exactly one of two distinct devices beats the other. */
  lemma BeatsConnected(p: Policy, a: Work, b: Work)
    requires Ranked(p, a.ranks) && Ranked(p, b.ranks)
    ensures CompareCandidates(p, a, b).Some?
    ensures !(Beats(p, a, b) && Beats(p, b, a))
    ensures Identity(a.record) != Identity(b.record) ==> Beats(p, a, b) || Beats(p, b, a)
  {
    RanksFlip(p, a.ranks, b.ranks, 0);
    CompareKeysFlips(Identity(a.record), Identity(b.record));
  }

  lemma BeatsTransitive(p: Policy, a: Work, b: Work, c: Work)
    requires Ranked(p, a.ranks) && Ranked(p, b.ranks) && Ranked(p, c.ranks)
    requires Beats(p, a, b) && Beats(p, b, c)
    ensures Beats(p, a, c)
  {
    var ab, bc := CompareRanks(p, a.ranks, b.ranks, 0), CompareRanks(p, b.ranks, c.ranks, 0);
    RanksFlip(p, a.ranks, b.ranks, 0);
    RanksFlip(p, b.ranks, c.ranks, 0);
    if ab.value <= 0 && bc.value <= 0 {
      RanksTransitive(p, a.ranks, b.ranks, c.ranks, 0);
      if ab.value == 0 && bc.value == 0 {
        RanksFlip(p, a.ranks, c.ranks, 0);
        RanksTransitive(p, c.ranks, b.ranks, a.ranks, 0);
        if KeyBelow(Identity(a.record), Identity(b.record)) && KeyBelow(Identity(b.record), Identity(c.record)) {
          CompareKeysTransitive(Identity(a.record), Identity(b.record), Identity(c.record));
        }
      }
    }
    RanksFlip(p, a.ranks, c.ranks, 0);
  }

  lemma {:induction false} TiesGoOn(p: Policy, left: seq<RankValue>, right: seq<RankValue>, from: nat, k: nat)
    requires Ranked(p, left) && Ranked(p, right) && from <= k <= |left|
    requires forall j | from <= j < k :: CompareRank(left[j], right[j]) == Some(0)
    ensures CompareRanks(p, left, right, from) == CompareRanks(p, left, right, k)
    decreases k - from
  {
    if from < k {
      TiesGoOn(p, left, right, from + 1, k);
    }
  }

  /** Where no matching name decides, the first rank that differs does, in its configured direction. */
  lemma FirstDifferenceDecides(p: Policy, a: Work, b: Work, k: nat)
    requires Ranked(p, a.ranks) && Ranked(p, b.ranks) && k < |p.ranks|
    requires p.preserveExisting ==> Existing(p, a) == Existing(p, b)
    requires forall j | 0 <= j < k :: CompareRank(a.ranks[j], b.ranks[j]) == Some(0)
    requires CompareRank(a.ranks[k], b.ranks[k]).value < 0
    ensures if p.ranks[k].descending then Beats(p, b, a) && !Beats(p, a, b) else Beats(p, a, b) && !Beats(p, b, a)
  {
    TiesGoOn(p, a.ranks, b.ranks, 0, k);
    RanksFlip(p, a.ranks, b.ranks, 0);
    RankFlips(a.ranks[k], b.ranks[k]);
  }

  /** A preferred matching name comes before all ranks; where all ranks tie, the smaller identity comes first. */
  lemma PreferenceAndTies(p: Policy, a: Work, b: Work)
    requires Ranked(p, a.ranks) && Ranked(p, b.ranks)
    ensures p.preserveExisting && Existing(p, a) && !Existing(p, b) ==> Beats(p, a, b)
    ensures (p.preserveExisting ==> Existing(p, a) == Existing(p, b))
            && (forall j | 0 <= j < |p.ranks| :: CompareRank(a.ranks[j], b.ranks[j]) == Some(0))
            ==> (Beats(p, a, b) <==> KeyBelow(Identity(a.record), Identity(b.record)))
  {
    if forall j | 0 <= j < |p.ranks| :: CompareRank(a.ranks[j], b.ranks[j]) == Some(0) {
      TiesGoOn(p, a.ranks, b.ranks, 0, |a.ranks|);
    }
  }

  // Groups refer to work items by position, as the program refers into its slice.

  /** Work in strictly ascending identity order, every candidate fully ranked. */
  ghost predicate Ready(p: Policy, work: seq<Work>) {
    && (forall i, j | 0 <= i < j < |work| :: KeyBelow(Identity(work[i].record), Identity(work[j].record)))
    && (forall i | 0 <= i < |work| && work[i].candidate :: Ranked(p, work[i].ranks))
  }

  function PositionBeats(p: Policy, work: seq<Work>): (nat, nat) -> bool {
    (i: nat, j: nat) => i < |work| && j < |work| && Beats(p, work[i], work[j])
  }

  lemma PositionsLinear(p: Policy, work: seq<Work>, s: set<nat>)
    requires Ready(p, work)
    requires forall i | i in s :: i < |work| && work[i].candidate
    ensures Linear(s, PositionBeats(p, work))
  {
    var less := PositionBeats(p, work);
    forall a, b | a in s && b in s ensures less(a, b) ==> !less(b, a) {
      BeatsConnected(p, work[a], work[b]);
    }
    forall a, b | a in s && b in s && a != b ensures less(a, b) || less(b, a) {
      BeatsConnected(p, work[a], work[b]);
    }
    forall a, b, c | a in s && b in s && c in s && less(a, b) && less(b, c) ensures less(a, c) {
      BeatsTransitive(p, work[a], work[b], work[c]);
    }
  }

  function RankGroup(p: Policy, work: seq<Work>, group: seq<nat>): seq<nat> {
    Sort(group, PositionBeats(p, work))
  }

  lemma RankGroupOrders(p: Policy, work: seq<Work>, group: seq<nat>)
    requires Ready(p, work) && NoRepeats(group)
    requires forall i | i in group :: i < |work| && work[i].candidate
    ensures Ascending(RankGroup(p, work, group), PositionBeats(p, work))
    ensures |RankGroup(p, work, group)| == |group|
    ensures forall i :: i in RankGroup(p, work, group) <==> i in group
  {
    PositionsLinear(p, work, Elements(group));
    SortAscends(group, PositionBeats(p, work));
    MembersOf(RankGroup(p, work, group), group);
  }
}
