/** The planner as it runs: loops, maps and work items updated in place (planner.go). */
module PlannerProgram {
  import opened Basics
  import opened Sorting
  import opened PlannerModel
  import opened PlannerSuffix

  // Map iteration is modelled by picking pending keys arbitrarily.

  method SortedKeys(keys: set<string>) returns (sorted: seq<string>)
    ensures sorted == SortSet(keys, Below)
  {
    var listed: seq<string> := [];
    var pending := keys;
    while pending != {}
      invariant NoRepeats(listed)
      invariant forall key :: key in keys <==> key in pending || key in listed
      invariant forall key :: key in listed ==> key !in pending
      decreases |pending|
    {
      var key :| key in pending;
      listed := listed + [key];
      pending := pending - {key};
    }
    sorted := Sort(listed, Below);
    BelowLinear(keys);
    assert Elements(listed) == keys;
    SortAscends(listed, Below);
    MembersOf(sorted, listed);
    SortSetMembers(keys, Below);
    SortSetAscends(keys, Below);
    forall a, b | Below(a, b) ensures !Below(b, a) {
      CompareFlips(a, b);
    }
    AscendingUnique(sorted, SortSet(keys, Below), Below);
  }

  method FindSequenceName(p: Policy, base: string, platform: string, occupied: set<string>) returns (found: Search)
    ensures found == NextSequenceName(p, base, platform, occupied)
    ensures LeastUsable(p, base, platform, occupied, 1, found)
  {
    SearchExact(p, base, platform, occupied);
    var sequence := 1;
    while sequence <= MAX_SEQUENCE
      invariant 1 <= sequence <= MAX_SEQUENCE + 1
      invariant SearchFrom(p, base, platform, occupied, sequence) == NextSequenceName(p, base, platform, occupied)
    {
      var candidate := Suffixed(p, base, sequence);
      if InvalidName(p, candidate, platform) != NoFault {
        if |candidate| > MaximumLength(p, platform) {
          return NotFound(SuffixTooLong);
        }
      } else if p.fold(candidate) !in occupied {
        return Found(sequence, candidate);
      }
      sequence := sequence + 1;
    }
    return NotFound(SequenceExhausted);
  }

  // Evaluation.

  method EvaluateCases(name: string, cases: seq<VariableCase>, input: Input) returns (outcome: CaseOutcome)
    ensures outcome == CollectCases(name, cases, input, 0, {})
  {
    var values: set<string> := {};
    var k := 0;
    while k < |cases|
      invariant 0 <= k <= |cases|
      invariant CollectCases(name, cases, input, k, values) == CollectCases(name, cases, input, 0, {})
    {
      var matched := EvalBool(cases[k].when, input);
      if matched == None {
        return CaseError(VariableConditionFailed(name));
      }
      if matched.value {
        var value := CaseValue(cases[k], input);
        if value == None {
          return CaseError(VariableExpressionFailed(name));
        }
        values := values + {value.value};
      }
      k := k + 1;
    }
    return CaseValues(values);
  }

  lemma OnlyMember(s: set<string>, x: string, y: string)
    requires |s| <= 1 && x in s && y in s
    ensures x == y
  {
    SubsetNoLarger({x, y}, s);
  }

  method EvaluateVariables(p: Policy, input: Input) returns (outcome: VariableOutcome)
    ensures outcome == BindVariables(p, input, VariableNames(p), 0, map[])
  {
    var names := SortedKeys(p.variables.Keys);
    assert names == VariableNames(p);
    var variables: map<string, string> := map[];
    var k := 0;
    while k < |names|
      invariant 0 <= k <= |names|
      invariant BindVariables(p, input, names, k, variables) == BindVariables(p, input, names, 0, map[])
    {
      var collected := EvaluateCases(names[k], p.variables[names[k]], input);
      if collected.CaseError? {
        return VariableError(collected.reason);
      }
      if |collected.values| > 1 {
        return Conflict(names[k]);
      }
      ghost var bound := BindValue(variables, names[k], collected.values);
      if collected.values != {} {
        var value :| value in collected.values;
        assert forall other | other in collected.values :: other == value by {
          forall other | other in collected.values { OnlyMember(collected.values, value, other); }
        }
        variables := variables[names[k] := value];
      }
      assert variables == bound;
      k := k + 1;
    }
    return Bound(variables);
  }

  method EvaluateRecord(p: Policy, record: Record) returns (item: Work)
    ensures item == Evaluate(p, record)
  {
    item := NewWork(record);
    var input := Input(record.device, record.user, map[]);
    var k := 0;
    while k < |p.overrides|
      invariant 0 <= k <= |p.overrides|
      invariant FindOverride(p, input, k) == FindOverride(p, input, 0)
    {
      var matched := EvalBool(p.overrides[k].when, input);
      if matched == None {
        return Invalidate(item, OverrideFailed(p.overrides[k].name));
      }
      if matched.value {
        return ApplyOverride(p, item, p.overrides[k]);
      }
      k := k + 1;
    }
    var variables := EvaluateVariables(p, input);
    if variables.VariableError? {
      return Invalidate(item, variables.reason);
    }
    if variables.Conflict? {
      return item.(plan := item.plan.(status := Unresolved, reason := ConflictingValues(variables.name)));
    }
    item := EvaluateRules(p, item, input.(variables := variables.variables));
  }

  method EvaluateRules(p: Policy, item: Work, input: Input) returns (r: Work)
    ensures r == ApplyRule(p, item, FindRule(p, input, 0))
  {
    var k := 0;
    while k < |p.rules|
      invariant 0 <= k <= |p.rules|
      invariant FindRule(p, input, k) == FindRule(p, input, 0)
    {
      var matched := EvalBool(p.rules[k].when, input);
      if matched == None {
        return Invalidate(item, RuleConditionFailed(p.rules[k].name));
      }
      if matched.value {
        var name := EvalString(p.rules[k].desiredName, input);
        if name == None {
          return Invalidate(item, RuleNameFailed(p.rules[k].name));
        }
        return ApplyRule(p, item, RuleMatch(p.rules[k], name.value));
      }
      k := k + 1;
    }
    return ApplyRule(p, item, NoRule);
  }

  method EvaluateRanks(p: Policy, work: array<Work>)
    modifies work
    ensures forall i | 0 <= i < work.Length :: work[i] == WithRanks(p, old(work[i]))
  {
    var i := 0;
    while i < work.Length
      invariant 0 <= i <= work.Length
      invariant forall j | 0 <= j < i :: work[j] == WithRanks(p, old(work[j]))
      invariant forall j | i <= j < work.Length :: work[j] == old(work[j])
    {
      if work[i].candidate {
        var k := 0;
        while k < |p.ranks| && work[i].candidate
          invariant 0 <= k <= |p.ranks|
          invariant work[i].candidate ==> RankFrom(p, work[i], k) == RankFrom(p, old(work[i]), 0)
          invariant !work[i].candidate ==> work[i] == RankFrom(p, old(work[i]), 0)
          invariant forall j | 0 <= j < i :: work[j] == WithRanks(p, old(work[j]))
          invariant forall j | i < j < work.Length :: work[j] == old(work[j])
          decreases |p.ranks| - k
        {
          var value := EvalRank(p.ranks[k].program, Input(work[i].record.device, work[i].record.user, map[]));
          if value == None {
            work[i] := Invalidate(work[i], RankFailed(k));
          } else {
            work[i] := work[i].(ranks := work[i].ranks + [value.value]);
          }
          k := k + 1;
        }
      }
      i := i + 1;
    }
  }
}
