/** Naming policy, inventory records and plan items (internal/planner, internal/domain, internal/config). */
module PlannerModel {
  import opened Basics
  import opened Sorting

  datatype Device = Device(
    source: string, namespace: string, id: string,
    currentName: string, serialNumber: string, platform: string,
    enrolledAt: int, userID: string, model: string, osVersion: string,
    lastSeenAt: int, attributes: map<string, string>)

  datatype User = User(
    present: bool, id: string, mailNickname: string, userPrincipalName: string,
    displayName: string, department: string, groups: seq<string>, attributes: map<string, string>)

  datatype Record = Record(device: Device, user: User)

  function Identity(r: Record): Key {
    Key(r.device.source, r.device.namespace, r.device.id)
  }

  // Compiled expressions: arbitrary total functions that may fail or give a value of the wrong type.

  datatype Kind = KindBool | KindInt | KindString | KindTimestamp | KindOther

  datatype Value =
    | BoolValue(b: bool) | IntValue(i: int) | StringValue(s: string) | TimestampValue(t: int) | OtherValue

  datatype Input = Input(device: Device, user: User, variables: map<string, string>)

  datatype Program = Program(kind: Kind, eval: Input -> Option<Value>)

  datatype Override = Override(name: string, when: Program, exclude: bool, desiredName: string)

  datatype VariableCase =
    | FixedCase(when: Program, value: string)
    | ComputedCase(when: Program, expression: Program)

  datatype Rule = Rule(name: string, when: Program, desiredName: Program)

  datatype Rank = Rank(program: Program, descending: bool)

  /** A validated policy; each configured expression sits beside its compiled program. */
  datatype Policy = Policy(
    overrides: seq<Override>,
    variables: map<string, seq<VariableCase>>,
    rules: seq<Rule>,
    ranks: seq<Rank>,
    preserveExisting: bool,
    separator: string,
    maxLength: int,
    pattern: string -> bool,
    fold: string -> string)

  function EvalBool(program: Program, input: Input): Option<bool> {
    match program.eval(input)
    case Some(BoolValue(b)) => Some(b)
    case _ => None
  }

  function EvalString(program: Program, input: Input): Option<string> {
    match program.eval(input)
    case Some(StringValue(s)) => Some(s)
    case _ => None
  }

  datatype RankValue = RankValue(kind: Kind, integer: int, text: string, timestamp: int)

  function EvalRank(program: Program, input: Input): Option<RankValue> {
    match (program.kind, program.eval(input))
    case (KindInt, Some(IntValue(i))) => Some(RankValue(KindInt, i, "", 0))
    case (KindString, Some(StringValue(s))) => Some(RankValue(KindString, 0, s, 0))
    case (KindTimestamp, Some(TimestampValue(t))) => Some(RankValue(KindTimestamp, 0, "", t))
    case _ => None
  }

  datatype Status = Unset | Excluded | Invalid | Rename | Unchanged | Unmanaged | Unresolved

  datatype Fault = NoFault | Empty | TooLong(limit: int) | PatternMismatch

  datatype Reason =
    | NoReason
    | MatchedOverride
    | OverrideFailed(name: string)
    | FixedNameInvalid(fault: Fault)
    | VariableConditionFailed(name: string)
    | VariableExpressionFailed(name: string)
    | ConflictingValues(name: string)
    | RuleConditionFailed(name: string)
    | RuleNameFailed(name: string)
    | DesiredNameInvalid(fault: Fault)
    | NoRuleMatched
    | RankFailed(index: nat)
    | AuthoritativeConflict
    | AuthoritativeTaken
    | AuthoritativeSuffix
    | SuffixTooLong
    | SequenceExhausted
    | AlreadyMatches
    | Differs

  datatype Item = Item(
    source: string, namespace: string, id: string, serialNumber: string, platform: string,
    currentName: string, desiredName: string, user: string, rule: string,
    status: Status, reason: Reason)

  /** The planner's mutable work item. */
  datatype Work = Work(record: Record, plan: Item, candidate: bool, authoritative: bool, ranks: seq<RankValue>)

  function NewWork(r: Record): Work {
    Work(r,
         Item(r.device.source, r.device.namespace, r.device.id, r.device.serialNumber, r.device.platform,
              r.device.currentName, "", r.user.userPrincipalName, "", Unset, NoReason),
         false, false, [])
  }

  function Invalidate(w: Work, reason: Reason): Work {
    w.(candidate := false, plan := w.plan.(status := Invalid, reason := reason))
  }

  function Finish(w: Work): Work {
    if w.plan.currentName == w.plan.desiredName
    then w.(plan := w.plan.(status := Unchanged, reason := AlreadyMatches))
    else w.(plan := w.plan.(status := Rename, reason := Differs))
  }

  predicate Finished(item: Item) {
    item.status == Rename || item.status == Unchanged
  }

  function Min(a: int, b: int): int {
    if a <= b then a else b
  }

  function MaximumLength(p: Policy, platform: string): int {
    if platform == "windows" then Min(p.maxLength, 15)
    else if platform == "ios" || platform == "macos" then Min(p.maxLength, 63)
    else p.maxLength
  }

  function InvalidName(p: Policy, name: string, platform: string): Fault {
    if name == "" then Empty
    else if |name| > MaximumLength(p, platform) then TooLong(MaximumLength(p, platform))
    else if !p.pattern(name) then PatternMismatch
    else NoFault
  }

  function Reserve(p: Policy, names: set<string>, name: string): set<string> {
    if name != "" then names + {p.fold(name)} else names
  }

  // Evaluation of one record, before collisions are considered.

  datatype OverrideOutcome = NoOverride | OverrideError(name: string) | OverrideMatch(override: Override)

  function FindOverride(p: Policy, input: Input, k: nat): OverrideOutcome
    decreases |p.overrides| - k
  {
    if k >= |p.overrides| then NoOverride
    else match EvalBool(p.overrides[k].when, input)
      case None => OverrideError(p.overrides[k].name)
      case Some(matched) => if matched then OverrideMatch(p.overrides[k]) else FindOverride(p, input, k + 1)
  }

  function ApplyOverride(p: Policy, w: Work, o: Override): Work {
    var named := w.(plan := w.plan.(rule := o.name));
    if o.exclude then
      named.(plan := named.plan.(status := Excluded, reason := MatchedOverride))
    else
      var fixed := named.(plan := named.plan.(desiredName := o.desiredName), candidate := true, authoritative := true);
      var fault := InvalidName(p, o.desiredName, w.record.device.platform);
      if fault != NoFault then Invalidate(fixed, FixedNameInvalid(fault)) else fixed
  }

  datatype VariableOutcome =
    Bound(variables: map<string, string>) | Conflict(name: string) | VariableError(reason: Reason)

  datatype CaseOutcome = CaseValues(values: set<string>) | CaseError(reason: Reason)

  /** The distinct values of the cases that match, from case `k` on. */
  function CollectCases(name: string, cases: seq<VariableCase>, input: Input, k: nat, values: set<string>): CaseOutcome
    decreases |cases| - k
  {
    if k >= |cases| then CaseValues(values)
    else match EvalBool(cases[k].when, input)
      case None => CaseError(VariableConditionFailed(name))
      case Some(matched) =>
        if !matched then CollectCases(name, cases, input, k + 1, values)
        else match CaseValue(cases[k], input)
          case None => CaseError(VariableExpressionFailed(name))
          case Some(v) => CollectCases(name, cases, input, k + 1, values + {v})
  }

  function CaseValue(c: VariableCase, input: Input): Option<string> {
    match c
    case FixedCase(_, value) => Some(value)
    case ComputedCase(_, expression) => EvalString(expression, input)
  }

  ghost function BindVariables(p: Policy, input: Input, names: seq<string>, k: nat,
          bound: map<string, string>): VariableOutcome
    requires forall i | 0 <= i < |names| :: names[i] in p.variables
    decreases |names| - k
  {
    if k >= |names| then Bound(bound)
    else match CollectCases(names[k], p.variables[names[k]], input, 0, {})
      case CaseError(reason) => VariableError(reason)
      case CaseValues(values) =>
        if |values| > 1 then Conflict(names[k])
        else BindVariables(p, input, names, k + 1, BindValue(bound, names[k], values))
  }

  ghost function BindValue(bound: map<string, string>, name: string, values: set<string>): map<string, string> {
    if values == {} then bound
    else
      var v :| v in values;
      bound[name := v]
  }

  datatype RuleOutcome = NoRule | RuleError(reason: Reason) | RuleMatch(rule: Rule, desiredName: string)

  function FindRule(p: Policy, input: Input, k: nat): RuleOutcome
    decreases |p.rules| - k
  {
    if k >= |p.rules| then NoRule
    else match EvalBool(p.rules[k].when, input)
      case None => RuleError(RuleConditionFailed(p.rules[k].name))
      case Some(matched) =>
        if !matched then FindRule(p, input, k + 1)
        else match EvalString(p.rules[k].desiredName, input)
          case None => RuleError(RuleNameFailed(p.rules[k].name))
          case Some(name) => RuleMatch(p.rules[k], name)
  }

  function ApplyRule(p: Policy, w: Work, outcome: RuleOutcome): Work {
    match outcome
    case NoRule => w.(plan := w.plan.(status := Unmanaged, reason := NoRuleMatched))
    case RuleError(reason) => Invalidate(w, reason)
    case RuleMatch(rule, name) =>
      var named := w.(plan := w.plan.(rule := rule.name, desiredName := name), candidate := true);
      var fault := InvalidName(p, name, w.record.device.platform);
      if fault != NoFault then Invalidate(named, DesiredNameInvalid(fault)) else named
  }

  ghost function VariableNames(p: Policy): (names: seq<string>)
    ensures forall i | 0 <= i < |names| :: names[i] in p.variables
  {
    SortSetMembers(p.variables.Keys, Below);
    var names := SortSet(p.variables.Keys, Below);
    assert forall i | 0 <= i < |names| :: names[i] in Elements(names);
    names
  }

  /** The work item for one record: overrides first, then variables, then rules. */
  ghost function Evaluate(p: Policy, r: Record): Work {
    var w := NewWork(r);
    var input := Input(r.device, r.user, map[]);
    match FindOverride(p, input, 0)
    case OverrideError(name) => Invalidate(w, OverrideFailed(name))
    case OverrideMatch(o) => ApplyOverride(p, w, o)
    case NoOverride =>
      match BindVariables(p, input, VariableNames(p), 0, map[])
      case VariableError(reason) => Invalidate(w, reason)
      case Conflict(name) => w.(plan := w.plan.(status := Unresolved, reason := ConflictingValues(name)))
      case Bound(variables) => ApplyRule(p, w, FindRule(p, input.(variables := variables), 0))
  }

  /** Appends the collision ranks from `k` on; the first failing rank invalidates the item. */
  function RankFrom(p: Policy, w: Work, k: nat): Work
    decreases |p.ranks| - k
  {
    if k >= |p.ranks| then w
    else match EvalRank(p.ranks[k].program, Input(w.record.device, w.record.user, map[]))
      case None => Invalidate(w, RankFailed(k))
      case Some(v) => RankFrom(p, w.(ranks := w.ranks + [v]), k + 1)
  }

  function WithRanks(p: Policy, w: Work): Work {
    if w.candidate then RankFrom(p, w, 0) else w
  }
}
