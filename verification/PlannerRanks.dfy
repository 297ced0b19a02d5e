/**
 * Which values decide a contested name, told from what the rank expressions give (planner.go,
 * evaluateRanks and compareCandidates).
 */
module PlannerRanks {
  import opened Basics
  import opened Ordering
  import opened PlannerModel
  import opened PlannerEvaluation
  import opened PlannerRanking
  import opened PlannerCollisions
  import opened PlannerPlan

  /** The expression gives a value of the comparable kind it was compiled for. */
  predicate GivesOwnKind(program: Program, input: Input) {
    match program.kind
    case KindInt => program.eval(input).Some? && program.eval(input).value.IntValue?
    case KindString => program.eval(input).Some? && program.eval(input).value.StringValue?
    case KindTimestamp => program.eval(input).Some? && program.eval(input).value.TimestampValue?
    case _ => false
  }

  /** The stored rank is what the expression gives. */
  predicate Carries(program: Program, input: Input, v: RankValue) {
    && v.kind == program.kind
    && match program.kind
       case KindInt => program.eval(input) == Some(IntValue(v.integer))
       case KindString => program.eval(input) == Some(StringValue(v.text))
       case KindTimestamp => program.eval(input) == Some(TimestampValue(v.timestamp))
       case _ => false
  }

  predicate CarriesAll(p: Policy, input: Input, ranks: seq<RankValue>) {
    |ranks| <= |p.ranks| && forall k | 0 <= k < |ranks| :: Carries(p.ranks[k].program, input, ranks[k])
  }

  predicate RanksWork(p: Policy, input: Input) {
    forall k | 0 <= k < |p.ranks| :: GivesOwnKind(p.ranks[k].program, input)
  }

  ghost predicate FirstFailing(p: Policy, input: Input, k: nat) {
    && k < |p.ranks| && !GivesOwnKind(p.ranks[k].program, input)
    && forall j | 0 <= j < k :: GivesOwnKind(p.ranks[j].program, input)
  }

  /** A candidate keeps its item and carries every value, or is invalid for the first expression without one. */
  ghost predicate WellRanked(p: Policy, before: Work, after: Work) {
    var input := Bare(before.record);
    && after.record == before.record && after.authoritative == before.authoritative
    && CarriesAll(p, input, after.ranks)
    && if RanksWork(p, input) then after.candidate && after.plan == before.plan && |after.ranks| == |p.ranks|
       else
         && !after.candidate && FirstFailing(p, input, |after.ranks|)
         && after.plan == before.plan.(status := Invalid, reason := RankFailed(|after.ranks|))
  }

  lemma {:induction false} RankFromExactly(p: Policy, w: Work, k: nat)
    requires w.candidate && |w.ranks| == k <= |p.ranks| && CarriesAll(p, Bare(w.record), w.ranks)
    requires forall j | 0 <= j < k :: GivesOwnKind(p.ranks[j].program, Bare(w.record))
    ensures WellRanked(p, w, RankFrom(p, w, k))
    decreases |p.ranks| - k
  {
    if k < |p.ranks| && GivesOwnKind(p.ranks[k].program, Bare(w.record)) {
      var v := EvalRank(p.ranks[k].program, Bare(w.record)).value;
      RankFromExactly(p, w.(ranks := w.ranks + [v]), k + 1);
    }
  }

  /**
   * Ranking leaves everything but candidates alone. A candidate stays one exactly if every rank
   * expression gives a value of its own comparable kind, and then carries exactly these values.
   */
  lemma RanksExactly(p: Policy, r: Record)
    ensures var w, ranked := Evaluate(p, r), Prepare(p, r);
            if w.candidate then WellRanked(p, w, ranked) else ranked == w
  {
    EvaluateIsWell(p, r);
    if Evaluate(p, r).candidate {
      RankFromExactly(p, Evaluate(p, r), 0);
    }
  }

  // Who comes first, told from the records.

  ghost predicate ValueBefore(a: Value, b: Value) {
    match (a, b)
    case (IntValue(x), IntValue(y)) => x < y
    case (StringValue(x), StringValue(y)) => Smaller(x, y)
    case (TimestampValue(x), TimestampValue(y)) => x < y
    case _ => false
  }

  /** The expression puts `a` before `b`, in the direction configured for it. */
  ghost predicate RankBefore(rank: Rank, a: Input, b: Input) {
    var x, y := rank.program.eval(a), rank.program.eval(b);
    x.Some? && y.Some? && if rank.descending then ValueBefore(y.value, x.value) else ValueBefore(x.value, y.value)
  }

  predicate RankTies(rank: Rank, a: Input, b: Input) {
    rank.program.eval(a) == rank.program.eval(b)
  }

  /** The first `k` expressions give the same for both, and the next one, or else the identity, puts `a` first. */
  ghost predicate DecidedAt(p: Policy, a: Record, b: Record, k: nat) {
    && k <= |p.ranks| && (forall j | 0 <= j < k :: RankTies(p.ranks[j], Bare(a), Bare(b)))
    && if k < |p.ranks| then RankBefore(p.ranks[k], Bare(a), Bare(b)) else IdentityBefore(Identity(a), Identity(b))
  }

  predicate Called(p: Policy, r: Record, key: string) {
    p.fold(r.device.currentName) == key
  }

  /**
   * Of two contenders for a name that folds to `key`, `a` comes first: where the policy prefers it and
   * only one of them is called so already, that one; otherwise by the first rank that differs, and by
   * identity if none does.
   */
  ghost predicate Precedes(p: Policy, key: string, a: Record, b: Record) {
    if p.preserveExisting && Called(p, a, key) != Called(p, b, key) then Called(p, a, key)
    else exists k: nat :: DecidedAt(p, a, b, k)
  }

  lemma OneRank(rank: Rank, a: Input, b: Input, v: RankValue, w: RankValue)
    requires Carries(rank.program, a, v) && Carries(rank.program, b, w)
    ensures CompareRank(v, w).Some?
    ensures RankTies(rank, a, b) <==> CompareRank(v, w).value == 0
    ensures RankBefore(rank, a, b)
            <==> if rank.descending then CompareRank(v, w).value > 0 else CompareRank(v, w).value < 0
  {
    if rank.program.kind == KindString {
      BelowExactly(v.text, w.text);
      BelowExactly(w.text, v.text);
      CompareFlips(v.text, w.text);
    }
  }

  lemma {:induction false} RanksDecide(p: Policy, a: Record, b: Record, ranks: seq<RankValue>, others: seq<RankValue>,
          k: nat)
    requires CarriesAll(p, Bare(a), ranks) && CarriesAll(p, Bare(b), others) && |ranks| == |others| == |p.ranks|
    requires k <= |p.ranks| && forall j | 0 <= j < k :: RankTies(p.ranks[j], Bare(a), Bare(b))
    ensures CompareRanks(p, ranks, others, k).Some?
    ensures var order := CompareRanks(p, ranks, others, k).value;
            (exists m: nat :: DecidedAt(p, a, b, m))
            <==> order < 0 || (order == 0 && IdentityBefore(Identity(a), Identity(b)))
    decreases |p.ranks| - k
  {
    if k < |p.ranks| {
      OneRank(p.ranks[k], Bare(a), Bare(b), ranks[k], others[k]);
      if CompareRank(ranks[k], others[k]).value == 0 {
        RanksDecide(p, a, b, ranks, others, k + 1);
      } else {
        NotLater(p, a, b, k);
      }
    } else {
      NotLater(p, a, b, k);
    }
  }

  /** The first expression that does not tie is the one that decides. */
  lemma NotLater(p: Policy, a: Record, b: Record, k: nat)
    requires k <= |p.ranks| && forall j | 0 <= j < k :: RankTies(p.ranks[j], Bare(a), Bare(b))
    requires k < |p.ranks| ==> !RankTies(p.ranks[k], Bare(a), Bare(b))
    ensures (exists m: nat :: DecidedAt(p, a, b, m)) <==> DecidedAt(p, a, b, k)
  {
    forall m: nat | DecidedAt(p, a, b, m) ensures m == k {
      if m < k {
        TieIsNoOrder(p.ranks[m], Bare(a), Bare(b));
      }
    }
  }

  lemma TieIsNoOrder(rank: Rank, a: Input, b: Input)
    requires RankTies(rank, a, b)
    ensures !RankBefore(rank, a, b)
  {
    match rank.program.eval(a)
    case Some(StringValue(s)) =>
      BelowExactly(s, s);
    case _ =>
  }

  /** The planner's comparator puts one contender before another exactly if its record comes first. */
  lemma BeatsExactly(p: Policy, a: Record, b: Record)
    requires Prepare(p, a).candidate && Prepare(p, b).candidate
    requires KeyOf(p, Prepare(p, a)) == KeyOf(p, Prepare(p, b))
    ensures Beats(p, Prepare(p, a), Prepare(p, b)) <==> Precedes(p, p.fold(Prepare(p, a).plan.desiredName), a, b)
  {
    var v, w := Prepare(p, a), Prepare(p, b);
    RanksExactly(p, a);
    RanksExactly(p, b);
    PrepareIsWell(p, a);
    PrepareIsWell(p, b);
    RanksDecide(p, a, b, v.ranks, w.ranks, 0);
    KeyBelowExactly(Identity(a), Identity(b));
  }
}
