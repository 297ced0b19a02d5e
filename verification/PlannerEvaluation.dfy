/** What evaluating one record means, told from what its expressions give (planner.go, evaluate and evaluateRanks). */
module PlannerEvaluation {
  import opened Basics
  import opened PlannerModel
  import opened PlannerVariables

  // Names.

  /** Non-empty, matching, at most 15 bytes on Windows and 63 on Apple's platforms, and within the policy's limit. */
  predicate Fits(p: Policy, name: string, platform: string) {
    && name != "" && p.pattern(name) && |name| <= p.maxLength
    && (platform == "windows" ==> |name| <= 15)
    && (platform == "ios" || platform == "macos" ==> |name| <= 63)
  }

  /** The greatest length a name may have on the platform. */
  predicate IsLimit(p: Policy, platform: string, limit: int) {
    && limit <= p.maxLength
    && (platform == "windows" ==> limit <= 15)
    && (platform == "ios" || platform == "macos" ==> limit <= 63)
    && (limit == p.maxLength || (limit == 15 && platform == "windows")
        || (limit == 63 && (platform == "ios" || platform == "macos")))
  }

  /** Why a name does not fit: emptiness is looked at first, then the length, then the pattern. */
  ghost predicate Misfits(p: Policy, name: string, platform: string, fault: Fault) {
    match fault
    case NoFault => false
    case Empty => name == ""
    case TooLong(limit) => name != "" && |name| > limit && IsLimit(p, platform, limit)
    case PatternMismatch =>
      name != "" && !p.pattern(name) && exists limit :: IsLimit(p, platform, limit) && |name| <= limit
  }

  lemma FaultExactly(p: Policy, name: string, platform: string)
    ensures InvalidName(p, name, platform) == NoFault <==> Fits(p, name, platform)
    ensures !Fits(p, name, platform) ==>
              forall fault :: Misfits(p, name, platform, fault) <==> fault == InvalidName(p, name, platform)
  {
    assert IsLimit(p, platform, MaximumLength(p, platform));
  }

  // The outcome of one record.

  function Bare(r: Record): Input {
    Input(r.device, r.user, map[])
  }

  /** The plan item of a record with these findings. */
  function ItemFor(r: Record, rule: string, name: string, status: Status, reason: Reason): Item {
    Item(r.device.source, r.device.namespace, r.device.id, r.device.serialNumber, r.device.platform,
         r.device.currentName, name, r.user.userPrincipalName, rule, status, reason)
  }

  /** No candidate, and nothing found but a status. */
  predicate Settled(r: Record, w: Work, rule: string, status: Status, reason: Reason) {
    w == Work(r, ItemFor(r, rule, "", status, reason), false, false, [])
  }

  /** A candidate for `name` if it fits, and invalid for the name's fault if it does not. */
  ghost predicate Named(p: Policy, r: Record, w: Work, rule: string, name: string, fixed: bool) {
    if Fits(p, name, r.device.platform) then w == Work(r, ItemFor(r, rule, name, Unset, NoReason), true, fixed, [])
    else exists fault ::
        && Misfits(p, name, r.device.platform, fault)
        && var reason := if fixed then FixedNameInvalid(fault) else DesiredNameInvalid(fault);
           w == Work(r, ItemFor(r, rule, name, Invalid, reason), false, fixed, [])
  }

  // How far the evaluation of a record gets, and where that leads.

  ghost predicate NoOverrides(p: Policy, r: Record) {
    forall j | 0 <= j < |p.overrides| :: False(p.overrides[j].when, Bare(r))
  }

  ghost predicate FirstOverride(p: Policy, r: Record, k: nat) {
    && k < |p.overrides| && !False(p.overrides[k].when, Bare(r))
    && forall j | 0 <= j < k :: False(p.overrides[j].when, Bare(r))
  }

  /** No override matches, and the variables come to `variables`. */
  ghost predicate ReachesRules(p: Policy, r: Record, variables: map<string, string>) {
    NoOverrides(p, r) && AllAgree(p, Bare(r), variables)
  }

  function With(r: Record, variables: map<string, string>): Input {
    Input(r.device, r.user, variables)
  }

  ghost predicate FirstRule(p: Policy, r: Record, variables: map<string, string>, k: nat) {
    && k < |p.rules| && !False(p.rules[k].when, With(r, variables))
    && forall j | 0 <= j < k :: False(p.rules[j].when, With(r, variables))
  }

  ghost predicate NoRules(p: Policy, r: Record, variables: map<string, string>) {
    forall j | 0 <= j < |p.rules| :: False(p.rules[j].when, With(r, variables))
  }

  datatype Path =
    | AtOverride(k: nat)
    | AtVariable(name: string)
    | AtRule(variables: map<string, string>, k: nat)
    | AtEnd(variables: map<string, string>)

  ghost predicate Follows(p: Policy, r: Record, path: Path) {
    match path
    case AtOverride(k) => FirstOverride(p, r, k)
    case AtVariable(name) => NoOverrides(p, r) && FirstUnbound(p, Bare(r), name)
    case AtRule(variables, k) => ReachesRules(p, r, variables) && FirstRule(p, r, variables, k)
    case AtEnd(variables) => ReachesRules(p, r, variables) && NoRules(p, r, variables)
  }

  /**
   * The first override that does not evaluate to false decides: if it fails the item is invalid; if
   * it excludes, the item is excluded; otherwise its name is fixed. Without one, the first variable
   * that does not bind decides: a conflict leaves the item unresolved, a fault makes it invalid. With
   * all of them bound, the first rule that does not evaluate to false decides: if it or its name
   * fails the item is invalid, otherwise it names the device. Without any, the device is unmanaged.
   */
  ghost predicate Leads(p: Policy, r: Record, path: Path, w: Work)
    requires Follows(p, r, path)
  {
    match path
    case AtOverride(k) =>
      var o := p.overrides[k];
      if !True(o.when, Bare(r)) then Settled(r, w, "", Invalid, OverrideFailed(o.name))
      else if o.exclude then Settled(r, w, o.name, Excluded, MatchedOverride)
      else Named(p, r, w, o.name, o.desiredName, true)
    case AtVariable(name) =>
      if CasesWork(p.variables[name], Bare(r)) then Settled(r, w, "", Unresolved, ConflictingValues(name))
      else Settled(r, w, "", Invalid, w.plan.reason) && Faulty(p.variables[name], Bare(r), name, w.plan.reason)
    case AtRule(variables, k) =>
      var rule := p.rules[k];
      if !True(rule.when, With(r, variables)) then Settled(r, w, "", Invalid, RuleConditionFailed(rule.name))
      else if !GivesText(rule.desiredName, With(r, variables))
      then Settled(r, w, "", Invalid, RuleNameFailed(rule.name))
      else Named(p, r, w, rule.name, rule.desiredName.eval(With(r, variables)).value.s, false)
    case AtEnd(_) => Settled(r, w, "", Unmanaged, NoRuleMatched)
  }

  // Overrides.

  lemma {:induction false} OverrideFound(p: Policy, r: Record, from: nat, k: nat)
    requires from <= k && FirstOverride(p, r, k)
    ensures FindOverride(p, Bare(r), from)
            == if True(p.overrides[k].when, Bare(r)) then OverrideMatch(p.overrides[k])
               else OverrideError(p.overrides[k].name)
    decreases k - from
  {
    if from < k {
      OverrideFound(p, r, from + 1, k);
    }
  }

  lemma {:induction false} NoOverrideFound(p: Policy, r: Record, from: nat)
    requires NoOverrides(p, r)
    ensures FindOverride(p, Bare(r), from) == NoOverride
    decreases |p.overrides| - from
  {
    if from < |p.overrides| {
      NoOverrideFound(p, r, from + 1);
    }
  }

  lemma FirstOverrideDecides(p: Policy, r: Record, k: nat)
    requires FirstOverride(p, r, k)
    ensures Leads(p, r, AtOverride(k), Evaluate(p, r))
  {
    OverrideFound(p, r, 0, k);
    FaultExactly(p, p.overrides[k].desiredName, r.device.platform);
  }

  // Variables.

  lemma FirstUnboundDecides(p: Policy, r: Record, name: string)
    requires NoOverrides(p, r) && FirstUnbound(p, Bare(r), name)
    ensures Leads(p, r, AtVariable(name), Evaluate(p, r))
  {
    NoOverrideFound(p, r, 0);
    VariablesTell(p, Bare(r));
    forall a, b | FirstUnbound(p, Bare(r), a) && FirstUnbound(p, Bare(r), b) ensures a == b {
      OnlyFirst(p, Bare(r), a, b);
    }
    forall other, reason | FirstUnbound(p, Bare(r), other) && Faulty(p.variables[other], Bare(r), other, reason)
      ensures !CasesWork(p.variables[other], Bare(r))
    {
      OneFault(p.variables[other], Bare(r), other, reason, reason);
    }
  }

  // Rules.

  lemma {:induction false} RuleFound(p: Policy, r: Record, variables: map<string, string>, from: nat, k: nat)
    requires from <= k && FirstRule(p, r, variables, k)
    ensures FindRule(p, With(r, variables), from)
            == if !True(p.rules[k].when, With(r, variables)) then RuleError(RuleConditionFailed(p.rules[k].name))
               else match p.rules[k].desiredName.eval(With(r, variables))
                 case Some(StringValue(name)) => RuleMatch(p.rules[k], name)
                 case _ => RuleError(RuleNameFailed(p.rules[k].name))
    decreases k - from
  {
    if from < k {
      RuleFound(p, r, variables, from + 1, k);
    }
  }

  lemma {:induction false} NoRuleFound(p: Policy, r: Record, variables: map<string, string>, from: nat)
    requires NoRules(p, r, variables)
    ensures FindRule(p, With(r, variables), from) == NoRule
    decreases |p.rules| - from
  {
    if from < |p.rules| {
      NoRuleFound(p, r, variables, from + 1);
    }
  }

  lemma RulesAreReached(p: Policy, r: Record, variables: map<string, string>)
    requires ReachesRules(p, r, variables)
    ensures Evaluate(p, r) == ApplyRule(p, NewWork(r), FindRule(p, With(r, variables), 0))
  {
    NoOverrideFound(p, r, 0);
    VariablesExactly(p, Bare(r));
  }

  lemma FirstRuleDecides(p: Policy, r: Record, variables: map<string, string>, k: nat)
    requires ReachesRules(p, r, variables) && FirstRule(p, r, variables, k)
    ensures Leads(p, r, AtRule(variables, k), Evaluate(p, r))
  {
    RulesAreReached(p, r, variables);
    RuleFound(p, r, variables, 0, k);
    if GivesText(p.rules[k].desiredName, With(r, variables)) {
      FaultExactly(p, p.rules[k].desiredName.eval(With(r, variables)).value.s, r.device.platform);
    }
  }

  lemma NoRuleDecides(p: Policy, r: Record, variables: map<string, string>)
    requires ReachesRules(p, r, variables) && NoRules(p, r, variables)
    ensures Leads(p, r, AtEnd(variables), Evaluate(p, r))
  {
    RulesAreReached(p, r, variables);
    NoRuleFound(p, r, variables, 0);
  }

  // Every record takes one of the four ways.

  lemma FirstNotFalse(whens: seq<Program>, input: Input)
    requires exists j :: 0 <= j < |whens| && !False(whens[j], input)
    ensures exists k: nat ::
              k < |whens| && !False(whens[k], input) && forall j | 0 <= j < k :: False(whens[j], input)
  {
    var k: nat := 0;
    while False(whens[k], input)
      invariant k < |whens| && forall j | 0 <= j < k :: False(whens[j], input)
      decreases |whens| - k
    {
      k := k + 1;
    }
  }

  lemma SomeOverrideIsFirst(p: Policy, r: Record)
    requires !NoOverrides(p, r)
    ensures exists k: nat :: FirstOverride(p, r, k)
  {
    var whens := seq(|p.overrides|, i requires 0 <= i < |p.overrides| => p.overrides[i].when);
    var j :| 0 <= j < |p.overrides| && !False(p.overrides[j].when, Bare(r));
    assert !False(whens[j], Bare(r));
    FirstNotFalse(whens, Bare(r));
    var k: nat :| k < |whens| && !False(whens[k], Bare(r)) && forall j | 0 <= j < k :: False(whens[j], Bare(r));
    forall j | 0 <= j < k ensures False(p.overrides[j].when, Bare(r)) {
      assert whens[j] == p.overrides[j].when;
    }
    assert FirstOverride(p, r, k);
  }

  lemma SomeRuleIsFirst(p: Policy, r: Record, variables: map<string, string>)
    requires !NoRules(p, r, variables)
    ensures exists k: nat :: FirstRule(p, r, variables, k)
  {
    var input, whens := With(r, variables), seq(|p.rules|, i requires 0 <= i < |p.rules| => p.rules[i].when);
    var j :| 0 <= j < |p.rules| && !False(p.rules[j].when, input);
    assert !False(whens[j], input);
    FirstNotFalse(whens, input);
    var k: nat :| k < |whens| && !False(whens[k], input) && forall j | 0 <= j < k :: False(whens[j], input);
    forall j | 0 <= j < k ensures False(p.rules[j].when, input) {
      assert whens[j] == p.rules[j].when;
    }
    assert FirstRule(p, r, variables, k);
  }

  lemma SomePathIsFollowed(p: Policy, r: Record)
    ensures exists path :: Follows(p, r, path)
  {
    if !NoOverrides(p, r) {
      SomeOverrideIsFirst(p, r);
      var k: nat :| FirstOverride(p, r, k);
      assert Follows(p, r, AtOverride(k));
    } else {
      VariablesTell(p, Bare(r));
      match BindVariables(p, Bare(r), VariableNames(p), 0, map[])
      case Conflict(name) => assert Follows(p, r, AtVariable(name));
      case VariableError(reason) =>
        var name :| FirstUnbound(p, Bare(r), name);
        assert Follows(p, r, AtVariable(name));
      case Bound(variables) => BoundPath(p, r, variables);
    }
  }

  lemma BoundPath(p: Policy, r: Record, variables: map<string, string>)
    requires ReachesRules(p, r, variables)
    ensures exists path :: Follows(p, r, path)
  {
    if NoRules(p, r, variables) {
      assert Follows(p, r, AtEnd(variables));
    } else {
      SomeRuleIsFirst(p, r, variables);
      var k: nat :| FirstRule(p, r, variables, k);
      assert Follows(p, r, AtRule(variables, k));
    }
  }

  /** Whichever way a record goes, its work item is what that way leads to. */
  lemma PathDecides(p: Policy, r: Record, path: Path)
    requires Follows(p, r, path)
    ensures Leads(p, r, path, Evaluate(p, r))
  {
    match path
    case AtOverride(k) => FirstOverrideDecides(p, r, k);
    case AtVariable(name) => FirstUnboundDecides(p, r, name);
    case AtRule(variables, k) => FirstRuleDecides(p, r, variables, k);
    case AtEnd(variables) => NoRuleDecides(p, r, variables);
  }

  // What a record asks for.

  /** An override fixes this name for the record. */
  ghost predicate Fixes(p: Policy, r: Record, rule: string, name: string) {
    exists k: nat ::
      FirstOverride(p, r, k) && True(p.overrides[k].when, Bare(r)) && !p.overrides[k].exclude
      && p.overrides[k].name == rule && p.overrides[k].desiredName == name
  }

  /** A rule gives the record this name. */
  ghost predicate Computes(p: Policy, r: Record, rule: string, name: string) {
    exists variables, k: nat ::
      ReachesRules(p, r, variables) && FirstRule(p, r, variables, k) && True(p.rules[k].when, With(r, variables))
      && p.rules[k].name == rule && p.rules[k].desiredName.eval(With(r, variables)) == Some(StringValue(name))
  }

  lemma FixesDecides(p: Policy, r: Record, rule: string, name: string)
    requires Fixes(p, r, rule, name)
    ensures Named(p, r, Evaluate(p, r), rule, name, true)
  {
    var k: nat :| FirstOverride(p, r, k) && True(p.overrides[k].when, Bare(r)) && !p.overrides[k].exclude
                  && p.overrides[k].name == rule && p.overrides[k].desiredName == name;
    FirstOverrideDecides(p, r, k);
  }

  lemma ComputesDecides(p: Policy, r: Record, rule: string, name: string)
    requires Computes(p, r, rule, name)
    ensures Named(p, r, Evaluate(p, r), rule, name, false)
  {
    var variables, k: nat :|
      ReachesRules(p, r, variables) && FirstRule(p, r, variables, k) && True(p.rules[k].when, With(r, variables))
      && p.rules[k].name == rule && p.rules[k].desiredName.eval(With(r, variables)) == Some(StringValue(name));
    FirstRuleDecides(p, r, variables, k);
  }

  lemma CandidateIsNamed(p: Policy, r: Record, path: Path)
    requires Follows(p, r, path) && Leads(p, r, path, Evaluate(p, r)) && Evaluate(p, r).candidate
    ensures var w := Evaluate(p, r);
            && Fits(p, w.plan.desiredName, r.device.platform)
            && if w.authoritative then Fixes(p, r, w.plan.rule, w.plan.desiredName)
               else Computes(p, r, w.plan.rule, w.plan.desiredName)
  {
    match path
    case AtOverride(k) => assert True(p.overrides[k].when, Bare(r));
    case AtVariable(_) =>
    case AtRule(variables, k) => assert True(p.rules[k].when, With(r, variables));
    case AtEnd(_) =>
  }

  /**
   * A record is a candidate for a name exactly if an override fixes it, or a rule gives it, and it
   * fits; its item then says so and nothing else.
   */
  lemma CandidatesExactly(p: Policy, r: Record, rule: string, name: string, fixed: bool)
    ensures Evaluate(p, r) == Work(r, ItemFor(r, rule, name, Unset, NoReason), true, fixed, [])
            <==> && Fits(p, name, r.device.platform)
                 && if fixed then Fixes(p, r, rule, name) else Computes(p, r, rule, name)
  {
    SomePathIsFollowed(p, r);
    var path :| Follows(p, r, path);
    PathDecides(p, r, path);
    if Evaluate(p, r).candidate {
      CandidateIsNamed(p, r, path);
    }
    if Fits(p, name, r.device.platform) {
      if fixed && Fixes(p, r, rule, name) {
        FixesDecides(p, r, rule, name);
      }
      if !fixed && Computes(p, r, rule, name) {
        ComputesDecides(p, r, rule, name);
      }
    }
  }

  lemma ExcludedExactly(p: Policy, r: Record, path: Path)
    requires Follows(p, r, path) && Leads(p, r, path, Evaluate(p, r))
    ensures Evaluate(p, r).plan.status == Excluded <==>
            exists k: nat :: FirstOverride(p, r, k) && True(p.overrides[k].when, Bare(r)) && p.overrides[k].exclude
  {
    forall k: nat | FirstOverride(p, r, k) ensures Leads(p, r, AtOverride(k), Evaluate(p, r)) {
      FirstOverrideDecides(p, r, k);
    }
  }

  lemma UnresolvedExactly(p: Policy, r: Record, path: Path)
    requires Follows(p, r, path) && Leads(p, r, path, Evaluate(p, r))
    ensures Evaluate(p, r).plan.status == Unresolved <==>
            NoOverrides(p, r) && exists name ::
              FirstUnbound(p, Bare(r), name) && CasesWork(p.variables[name], Bare(r))
  {
    forall name | NoOverrides(p, r) && FirstUnbound(p, Bare(r), name)
      ensures Leads(p, r, AtVariable(name), Evaluate(p, r))
    {
      FirstUnboundDecides(p, r, name);
    }
  }

  lemma UnmanagedAtEnd(p: Policy, r: Record, path: Path)
    requires Follows(p, r, path) && Leads(p, r, path, Evaluate(p, r)) && Evaluate(p, r).plan.status == Unmanaged
    ensures path.AtEnd?
  {
  }

  lemma UnmanagedExactly(p: Policy, r: Record, path: Path)
    requires Follows(p, r, path) && Leads(p, r, path, Evaluate(p, r))
    ensures Evaluate(p, r).plan.status == Unmanaged <==>
            exists variables :: ReachesRules(p, r, variables) && NoRules(p, r, variables)
  {
    if Evaluate(p, r).plan.status == Unmanaged {
      UnmanagedAtEnd(p, r, path);
      assert ReachesRules(p, r, path.variables) && NoRules(p, r, path.variables);
    } else if variables :| ReachesRules(p, r, variables) && NoRules(p, r, variables) {
      NoRuleDecides(p, r, variables);
      assert false;
    }
  }

  /** Exactly when a record is excluded, unresolved or unmanaged. */
  lemma StatusExactly(p: Policy, r: Record)
    ensures Evaluate(p, r).plan.status == Excluded <==>
            exists k: nat :: FirstOverride(p, r, k) && True(p.overrides[k].when, Bare(r)) && p.overrides[k].exclude
    ensures Evaluate(p, r).plan.status == Unresolved <==>
            NoOverrides(p, r) && exists name ::
              FirstUnbound(p, Bare(r), name) && CasesWork(p.variables[name], Bare(r))
    ensures Evaluate(p, r).plan.status == Unmanaged <==>
            exists variables :: ReachesRules(p, r, variables) && NoRules(p, r, variables)
  {
    SomePathIsFollowed(p, r);
    var path :| Follows(p, r, path);
    PathDecides(p, r, path);
    ExcludedExactly(p, r, path);
    UnresolvedExactly(p, r, path);
    UnmanagedExactly(p, r, path);
  }
}
