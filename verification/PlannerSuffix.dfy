/** The search for a numeric suffix (planner.go, nextSequenceName). */
module PlannerSuffix {
  import opened Decimal
  import opened PlannerModel

  const MAX_SEQUENCE: nat := 1_000_000

  datatype Search = Found(sequence: nat, name: string) | NotFound(reason: Reason)

  function Suffixed(p: Policy, base: string, n: nat): string {
    base + p.separator + Itoa(n)
  }

  /** The loop of the search, from sequence `n` on. */
  function SearchFrom(p: Policy, base: string, platform: string, occupied: set<string>, n: nat): Search
    decreases MAX_SEQUENCE + 1 - n
  {
    if n > MAX_SEQUENCE then NotFound(SequenceExhausted)
    else
      var name := Suffixed(p, base, n);
      if InvalidName(p, name, platform) != NoFault then
        if |name| > MaximumLength(p, platform) then NotFound(SuffixTooLong)
        else SearchFrom(p, base, platform, occupied, n + 1)
      else if p.fold(name) !in occupied then Found(n, name)
      else SearchFrom(p, base, platform, occupied, n + 1)
  }

  function NextSequenceName(p: Policy, base: string, platform: string, occupied: set<string>): Search {
    SearchFrom(p, base, platform, occupied, 1)
  }

  /** The reference notion: sequence `n` gives a valid name nobody holds. */
  predicate Usable(p: Policy, base: string, platform: string, occupied: set<string>, n: nat) {
    && InvalidName(p, Suffixed(p, base, n), platform) == NoFault
    && p.fold(Suffixed(p, base, n)) !in occupied
  }

  predicate Overlong(p: Policy, base: string, platform: string, n: nat) {
    |Suffixed(p, base, n)| > MaximumLength(p, platform)
  }

  /** Once a suffix is too long, every later one is. */
  lemma TooLongStays(p: Policy, base: string, platform: string, m: nat, n: nat)
    requires m <= n && |Suffixed(p, base, m)| > MaximumLength(p, platform)
    ensures InvalidName(p, Suffixed(p, base, n), platform) != NoFault
  {
    ItoaLengthMonotone(m, n);
  }

  /** What the search from `n` on promises, in terms of usable and over-long sequences alone. */
  ghost predicate LeastUsable(p: Policy, base: string, platform: string, occupied: set<string>, n: nat, found: Search) {
    match found
    case Found(s, name) =>
      && n <= s <= 1_000_000 && name == Suffixed(p, base, s)
      && Usable(p, base, platform, occupied, s)
      && forall m: nat | n <= m < s :: !Usable(p, base, platform, occupied, m)
    case NotFound(reason) =>
      && (forall m: nat | n <= m <= 1_000_000 :: !Usable(p, base, platform, occupied, m))
      && reason == if exists m: nat :: n <= m <= 1_000_000 && Overlong(p, base, platform, m) then SuffixTooLong
                   else SequenceExhausted
  }

  lemma LeastUsableSkips(p: Policy, base: string, platform: string, occupied: set<string>, n: nat, found: Search)
    requires LeastUsable(p, base, platform, occupied, n + 1, found)
    requires !Usable(p, base, platform, occupied, n) && !Overlong(p, base, platform, n)
    ensures LeastUsable(p, base, platform, occupied, n, found)
  {
  }

  lemma {:induction false} SearchFromExact(p: Policy, base: string, platform: string, occupied: set<string>, n: nat)
    ensures LeastUsable(p, base, platform, occupied, n, SearchFrom(p, base, platform, occupied, n))
    decreases MAX_SEQUENCE + 1 - n
  {
    if n <= MAX_SEQUENCE {
      var name := Suffixed(p, base, n);
      if InvalidName(p, name, platform) != NoFault && |name| > MaximumLength(p, platform) {
        forall m: nat | n <= m <= MAX_SEQUENCE ensures !Usable(p, base, platform, occupied, m) {
          TooLongStays(p, base, platform, n, m);
        }
        assert Overlong(p, base, platform, n);
      } else if InvalidName(p, name, platform) != NoFault || p.fold(name) in occupied {
        SearchFromExact(p, base, platform, occupied, n + 1);
        LeastUsableSkips(p, base, platform, occupied, n, SearchFrom(p, base, platform, occupied, n + 1));
      }
    }
  }

  /** The search gives the least usable sequence, and fails only when there is none. */
  lemma SearchExact(p: Policy, base: string, platform: string, occupied: set<string>)
    ensures LeastUsable(p, base, platform, occupied, 1, NextSequenceName(p, base, platform, occupied))
  {
    SearchFromExact(p, base, platform, occupied, 1);
  }

  /** Upper-casing leaves a run of digits at the end alone; strings.ToUpper does. */
  ghost predicate FoldKeepsDigits(p: Policy) {
    forall s, d {:trigger p.fold(s + d)} | AllDigits(d) :: p.fold(s + d) == p.fold(s) + d
  }

  lemma SuffixCancels(stem: string, a: string, b: string)
    requires stem + a == stem + b
    ensures a == b
  {
    assert (stem + a)[|stem|..] == a;
    assert (stem + b)[|stem|..] == b;
  }

  lemma FoldedSuffixesDiffer(p: Policy, base: string, m: nat, n: nat)
    requires FoldKeepsDigits(p) && m != n
    ensures p.fold(Suffixed(p, base, m)) != p.fold(Suffixed(p, base, n))
  {
    ItoaReadsBack(m);
    ItoaReadsBack(n);
    var stem := base + p.separator;
    assert p.fold(stem + Itoa(m)) == p.fold(stem) + Itoa(m);
    assert p.fold(stem + Itoa(n)) == p.fold(stem) + Itoa(n);
    if p.fold(stem) + Itoa(m) == p.fold(stem) + Itoa(n) {
      SuffixCancels(p.fold(stem), Itoa(m), Itoa(n));
      ItoaInjective(m, n);
    }
  }

  ghost function FoldedSuffixes(p: Policy, base: string, k: nat): set<string> {
    set n: nat | 1 <= n <= k :: p.fold(Suffixed(p, base, n))
  }

  lemma FoldedSuffixIsNew(p: Policy, base: string, k: nat)
    requires FoldKeepsDigits(p) && k > 0
    ensures p.fold(Suffixed(p, base, k)) !in FoldedSuffixes(p, base, k - 1)
  {
    forall n: nat | 1 <= n <= k - 1 ensures p.fold(Suffixed(p, base, n)) != p.fold(Suffixed(p, base, k)) {
      FoldedSuffixesDiffer(p, base, n, k);
    }
  }

  lemma FoldedSuffixesGrow(p: Policy, base: string, k: nat)
    requires k > 0
    ensures FoldedSuffixes(p, base, k) == FoldedSuffixes(p, base, k - 1) + {p.fold(Suffixed(p, base, k))}
  {
  }

  lemma {:induction false} FoldedSuffixesCount(p: Policy, base: string, k: nat)
    requires FoldKeepsDigits(p)
    ensures |FoldedSuffixes(p, base, k)| == k
  {
    if k > 0 {
      FoldedSuffixesCount(p, base, k - 1);
      FoldedSuffixIsNew(p, base, k);
      FoldedSuffixesGrow(p, base, k);
    } else {
      assert FoldedSuffixes(p, base, k) == {};
    }
  }

  lemma SubsetSmaller<T>(small: set<T>, large: set<T>)
    requires small < large
    ensures |small| < |large|
  {
    var rest := large - small;
    assert large == small + rest && rest != {};
  }

  lemma {:induction false} SubsetNoLarger<T>(small: set<T>, large: set<T>)
    requires small <= large
    ensures |small| <= |large|
  {
    if small != {} {
      var x :| x in small;
      SubsetNoLarger(small - {x}, large - {x});
    }
  }

  /** With one more valid candidate than there are occupied names, the search succeeds among them. */
  lemma SearchPigeonhole(p: Policy, base: string, platform: string, occupied: set<string>)
    requires FoldKeepsDigits(p)
    requires |occupied| + 1 <= MAX_SEQUENCE
    requires forall n: nat | 1 <= n <= |occupied| + 1 :: InvalidName(p, Suffixed(p, base, n), platform) == NoFault
    ensures NextSequenceName(p, base, platform, occupied).Found?
    ensures NextSequenceName(p, base, platform, occupied).sequence <= |occupied| + 1
  {
    var k := |occupied| + 1;
    FoldedSuffixesCount(p, base, k);
    SearchExact(p, base, platform, occupied);
    if forall n: nat | 1 <= n <= k :: !Usable(p, base, platform, occupied, n) {
      forall name | name in FoldedSuffixes(p, base, k) ensures name in occupied {
        var n: nat :| 1 <= n <= k && name == p.fold(Suffixed(p, base, n));
        assert !Usable(p, base, platform, occupied, n);
      }
      SubsetNoLarger(FoldedSuffixes(p, base, k), occupied);
    }
  }
}
