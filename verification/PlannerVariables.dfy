/** What the variables of a record come to, told from what its expressions give (planner.go, evaluateVariables). */
module PlannerVariables {
  import opened Basics
  import opened Sorting
  import opened Ordering
  import opened PlannerModel

  predicate True(when: Program, input: Input) {
    when.eval(input) == Some(BoolValue(true))
  }

  predicate False(when: Program, input: Input) {
    when.eval(input) == Some(BoolValue(false))
  }

  /** The expression fails, or gives something that is not a boolean. */
  predicate Fails(when: Program, input: Input) {
    !True(when, input) && !False(when, input)
  }

  predicate GivesText(program: Program, input: Input) {
    var result := program.eval(input);
    result.Some? && result.value.StringValue?
  }

  // The cases of one variable.

  predicate CaseWorks(c: VariableCase, input: Input) {
    !Fails(c.when, input) && (True(c.when, input) && c.ComputedCase? ==> GivesText(c.expression, input))
  }

  /** No condition fails, and no expression of a matching case does. */
  predicate CasesWork(cases: seq<VariableCase>, input: Input) {
    forall k | 0 <= k < |cases| :: CaseWorks(cases[k], input)
  }

  predicate CaseGives(c: VariableCase, input: Input, value: string) {
    && True(c.when, input)
    && match c
       case FixedCase(_, fixed) => value == fixed
       case ComputedCase(_, expression) => expression.eval(input) == Some(StringValue(value))
  }

  /** The values of the cases that match. */
  function MatchedValues(cases: seq<VariableCase>, input: Input): set<string> {
    (set k | 0 <= k < |cases| && True(cases[k].when, input) && cases[k].FixedCase? :: cases[k].value)
    + (set k | 0 <= k < |cases| && True(cases[k].when, input) && cases[k].ComputedCase?
               && GivesText(cases[k].expression, input) :: cases[k].expression.eval(input).value.s)
  }

  lemma MatchedExactly(cases: seq<VariableCase>, input: Input, v: string)
    ensures v in MatchedValues(cases, input) <==> exists k :: 0 <= k < |cases| && CaseGives(cases[k], input, v)
  {
  }

  /** The first case that does not work, and why. */
  ghost predicate FirstFault(cases: seq<VariableCase>, input: Input, name: string, k: nat, reason: Reason) {
    && k < |cases| && !CaseWorks(cases[k], input) && (forall j | 0 <= j < k :: CaseWorks(cases[j], input))
    && reason == if Fails(cases[k].when, input) then VariableConditionFailed(name) else VariableExpressionFailed(name)
  }

  ghost predicate Faulty(cases: seq<VariableCase>, input: Input, name: string, reason: Reason) {
    exists k: nat :: FirstFault(cases, input, name, k, reason)
  }

  lemma CollectStep(name: string, cases: seq<VariableCase>, input: Input, k: nat, values: set<string>)
    requires k < |cases|
    ensures var next := CollectCases(name, cases, input, k, values);
            if !CaseWorks(cases[k], input) then
              next == CaseError(if Fails(cases[k].when, input) then VariableConditionFailed(name)
                                else VariableExpressionFailed(name))
            else if False(cases[k].when, input) then next == CollectCases(name, cases, input, k + 1, values)
            else exists v :: CaseGives(cases[k], input, v)
                             && next == CollectCases(name, cases, input, k + 1, values + {v})
  {
    if CaseWorks(cases[k], input) && True(cases[k].when, input) {
      var v := CaseValue(cases[k], input).value;
      assert CaseGives(cases[k], input, v);
    }
  }

  /** Once the first `k` cases have been looked at. */
  ghost predicate Upto(cases: seq<VariableCase>, input: Input, k: nat, values: set<string>)
    requires k <= |cases|
  {
    && (forall j | 0 <= j < k :: CaseWorks(cases[j], input))
    && forall v :: v in values <==> exists j :: 0 <= j < k && CaseGives(cases[j], input, v)
  }

  lemma {:induction false} CollectExactly(name: string, cases: seq<VariableCase>, input: Input, k: nat,
          values: set<string>)
    requires k <= |cases| && Upto(cases, input, k, values)
    ensures match CollectCases(name, cases, input, k, values)
            case CaseValues(found) => CasesWork(cases, input) && found == MatchedValues(cases, input)
            case CaseError(reason) => !CasesWork(cases, input) && Faulty(cases, input, name, reason)
    decreases |cases| - k
  {
    if k == |cases| {
      forall v ensures v in values <==> v in MatchedValues(cases, input) {
        MatchedExactly(cases, input, v);
      }
    } else {
      CollectStep(name, cases, input, k, values);
      if !CaseWorks(cases[k], input) {
        assert FirstFault(cases, input, name, k, CollectCases(name, cases, input, k, values).reason);
      } else if False(cases[k].when, input) {
        CollectExactly(name, cases, input, k + 1, values);
      } else {
        var v :| CaseGives(cases[k], input, v)
                 && CollectCases(name, cases, input, k, values)
                    == CollectCases(name, cases, input, k + 1, values + {v});
        CollectExactly(name, cases, input, k + 1, values + {v});
      }
    }
  }

  // All variables.

  /** Its cases work, and all that match agree. */
  ghost predicate Binds(p: Policy, input: Input, name: string)
    requires name in p.variables
  {
    CasesWork(p.variables[name], input) && |MatchedValues(p.variables[name], input)| <= 1
  }

  /** The first variable, in the order of names, that does not bind. */
  ghost predicate FirstUnbound(p: Policy, input: Input, name: string) {
    && name in p.variables && !Binds(p, input, name)
    && forall other | other in p.variables && other != name && !Binds(p, input, other) :: Smaller(name, other)
  }

  /** Every variable is unset without a match, and otherwise has the value all its matching cases agree on. */
  ghost predicate AllAgree(p: Policy, input: Input, bound: map<string, string>) {
    && bound.Keys <= p.variables.Keys
    && forall name | name in p.variables ::
         && CasesWork(p.variables[name], input)
         && MatchedValues(p.variables[name], input) == if name in bound then {bound[name]} else {}
  }

  /** What looking at all variables comes to. */
  ghost predicate Bindings(p: Policy, input: Input, outcome: VariableOutcome) {
    match outcome
    case Bound(variables) => AllAgree(p, input, variables)
    case Conflict(name) => FirstUnbound(p, input, name) && CasesWork(p.variables[name], input)
    case VariableError(reason) =>
      exists name :: FirstUnbound(p, input, name) && Faulty(p.variables[name], input, name, reason)
  }

  lemma OneValue(values: set<string>, bound: map<string, string>, name: string)
    requires |values| <= 1 && name !in bound
    ensures if values == {} then BindValue(bound, name, values) == bound
            else exists v :: values == {v} && BindValue(bound, name, values) == bound[name := v]
  {
    if values != {} {
      var v :| v in values && BindValue(bound, name, values) == bound[name := v];
      assert |values - {v}| == 0;
      assert values == {v};
    }
  }

  /** The first `k` names are dealt with. */
  ghost predicate BoundUpto(p: Policy, input: Input, names: seq<string>, k: nat, bound: map<string, string>)
    requires k <= |names|
  {
    && (forall name | name in bound :: name in names[..k])
    && forall i | 0 <= i < k ::
         && names[i] in p.variables && CasesWork(p.variables[names[i]], input)
         && MatchedValues(p.variables[names[i]], input) == if names[i] in bound then {bound[names[i]]} else {}
  }

  ghost predicate NamesOf(p: Policy, names: seq<string>) {
    Ascending(names, Below) && forall name :: name in names <==> name in p.variables
  }

  lemma NamesAreNames(p: Policy)
    ensures NamesOf(p, VariableNames(p))
  {
    BelowLinear(p.variables.Keys);
    SortSetMembers(p.variables.Keys, Below);
    SortSetAscends(p.variables.Keys, Below);
    var names := VariableNames(p);
    forall name ensures name in names <==> name in p.variables {
      assert name in names <==> name in Elements(names);
    }
  }

  lemma EarlierBind(p: Policy, input: Input, names: seq<string>, k: nat, bound: map<string, string>)
    requires k <= |names| && BoundUpto(p, input, names, k, bound)
    ensures forall i | 0 <= i < k :: Binds(p, input, names[i])
  {
  }

  lemma UnboundIsFirst(p: Policy, input: Input, names: seq<string>, k: nat, bound: map<string, string>)
    requires NamesOf(p, names) && k < |names| && BoundUpto(p, input, names, k, bound)
    requires names[k] in p.variables && !Binds(p, input, names[k])
    ensures FirstUnbound(p, input, names[k])
  {
    EarlierBind(p, input, names, k, bound);
    forall other | other in p.variables && other != names[k] && !Binds(p, input, other)
      ensures Smaller(names[k], other)
    {
      var i :| 0 <= i < |names| && names[i] == other;
      BelowExactly(names[k], names[i]);
    }
  }

  lemma NewName(names: seq<string>, k: nat)
    requires Ascending(names, Below) && k < |names|
    ensures names[k] !in names[..k] && names[..k + 1] == names[..k] + [names[k]]
  {
    forall i | 0 <= i < k ensures names[i] != names[k] {
      assert Below(names[i], names[k]);
    }
  }

  lemma BoundOneMore(p: Policy, input: Input, names: seq<string>, k: nat, bound: map<string, string>,
          after: map<string, string>)
    requires k < |names| && names[k] !in names[..k] && names[..k + 1] == names[..k] + [names[k]]
    requires BoundUpto(p, input, names, k, bound) && names[k] in p.variables && CasesWork(p.variables[names[k]], input)
    requires var values := MatchedValues(p.variables[names[k]], input);
             if values == {} then after == bound else exists v :: values == {v} && after == bound[names[k] := v]
    ensures BoundUpto(p, input, names, k + 1, after)
  {
    forall i | 0 <= i < k ensures names[i] in names[..k] {
      assert names[..k][i] == names[i];
    }
  }

  lemma {:induction false} BindExactly(p: Policy, input: Input, names: seq<string>, k: nat, bound: map<string, string>)
    requires NamesOf(p, names) && k <= |names| && BoundUpto(p, input, names, k, bound)
    ensures Bindings(p, input, BindVariables(p, input, names, k, bound))
    decreases |names| - k
  {
    if k == |names| {
      assert names[..k] == names;
      forall name | name in p.variables ensures exists i :: 0 <= i < |names| && names[i] == name {
        assert name in names;
      }
    } else {
      var cases := p.variables[names[k]];
      CollectExactly(names[k], cases, input, 0, {});
      if Binds(p, input, names[k]) {
        NewName(names, k);
        OneValue(MatchedValues(cases, input), bound, names[k]);
        BoundOneMore(p, input, names, k, bound, BindValue(bound, names[k], MatchedValues(cases, input)));
        BindExactly(p, input, names, k + 1, BindValue(bound, names[k], MatchedValues(cases, input)));
      } else {
        UnboundIsFirst(p, input, names, k, bound);
      }
    }
  }

  lemma VariablesTell(p: Policy, input: Input)
    ensures Bindings(p, input, BindVariables(p, input, VariableNames(p), 0, map[]))
  {
    NamesAreNames(p);
    BindExactly(p, input, VariableNames(p), 0, map[]);
  }

  lemma OnlyFirst(p: Policy, input: Input, a: string, b: string)
    requires FirstUnbound(p, input, a) && FirstUnbound(p, input, b)
    ensures a == b
  {
    if a != b {
      BelowExactly(a, b);
      BelowExactly(b, a);
      CompareFlips(a, b);
    }
  }

  lemma AgreeMeansBinds(p: Policy, input: Input, bound: map<string, string>)
    requires AllAgree(p, input, bound)
    ensures forall name | name in p.variables :: Binds(p, input, name)
  {
  }

  /** Only one reading of the variables agrees with all their cases. */
  lemma AgreeOnce(p: Policy, input: Input, a: map<string, string>, b: map<string, string>)
    requires AllAgree(p, input, a) && AllAgree(p, input, b)
    ensures a == b
  {
    forall name ensures name in a <==> name in b {
      assert name in a || name in b ==> name in p.variables;
    }
    forall name | name in a ensures a[name] == b[name] {
      assert a[name] in MatchedValues(p.variables[name], input);
    }
  }

  lemma OneFault(cases: seq<VariableCase>, input: Input, name: string, a: Reason, b: Reason)
    requires Faulty(cases, input, name, a) && Faulty(cases, input, name, b)
    ensures a == b && !CasesWork(cases, input)
  {
    var i: nat :| FirstFault(cases, input, name, i, a);
    var j: nat :| FirstFault(cases, input, name, j, b);
    assert i == j;
  }

  /**
   * Each way the variables of a record may end, exactly: all are bound if and only if every one's
   * cases work and the matching ones agree, and then to what they agree on; otherwise the first that
   * does not bind decides, by a conflict if its cases work, and else by the first case that does not.
   */
  lemma VariablesExactly(p: Policy, input: Input)
    ensures var outcome := BindVariables(p, input, VariableNames(p), 0, map[]);
            && (outcome.Bound? <==> forall name | name in p.variables :: Binds(p, input, name))
            && (forall bound :: outcome == Bound(bound) <==> AllAgree(p, input, bound))
            && (forall name :: outcome == Conflict(name) <==>
                  FirstUnbound(p, input, name) && CasesWork(p.variables[name], input))
            && (forall reason :: outcome == VariableError(reason) <==>
                  exists name :: FirstUnbound(p, input, name) && Faulty(p.variables[name], input, name, reason))
  {
    var outcome := BindVariables(p, input, VariableNames(p), 0, map[]);
    VariablesTell(p, input);
    forall a, b | FirstUnbound(p, input, a) && FirstUnbound(p, input, b) ensures a == b {
      OnlyFirst(p, input, a, b);
    }
    forall bound ensures outcome == Bound(bound) <==> AllAgree(p, input, bound) {
      if AllAgree(p, input, bound) {
        AgreeMeansBinds(p, input, bound);
        if outcome.Bound? {
          AgreeOnce(p, input, bound, outcome.variables);
        }
      }
    }
    forall name | FirstUnbound(p, input, name) && CasesWork(p.variables[name], input)
      ensures outcome == Conflict(name)
    {
      NoFaultIfWorking(p.variables[name], input, name);
    }
    forall reason, name | FirstUnbound(p, input, name) && Faulty(p.variables[name], input, name, reason)
      ensures outcome == VariableError(reason)
    {
      OneFault(p.variables[name], input, name, reason, reason);
      if outcome.VariableError? {
        OneFault(p.variables[name], input, name, reason, outcome.reason);
      }
    }
  }

  lemma NoFaultIfWorking(cases: seq<VariableCase>, input: Input, name: string)
    requires CasesWork(cases, input)
    ensures forall reason :: !Faulty(cases, input, name, reason)
  {
  }
}
