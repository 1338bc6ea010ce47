/** The policy engine of capfence/core/policy.py: rules, their conditions, and the staged search. */
module Policy {
  import opened Json
  import opened Events
  import opened Capabilities

  datatype Action = Allow | Deny | Block | RequireApproval | Warn

  datatype Comparison = Gt | Gte | Lt | Lte

  /** The condition keys that are compared with the context and the payload directly. */
  datatype DirectKey = Environment | UserRole | Tenant | TableName | ToolName | RiskLevel

  function KeyName(k: DirectKey): string
  {
    match k
    case Environment => "environment"
    case UserRole => "user_role"
    case Tenant => "tenant"
    case TableName => "table"
    case ToolName => "tool_name"
    case RiskLevel => "risk_level"
  }

  datatype Condition =
    | MatchKeywords(keywords: seq<Json>)
    | MatchRegex(patterns: seq<Json>)
    | Contains(text: Json)
    | Amount(cmp: Comparison, bound: real)
    | PathPrefix(prefix: Json)
    | CallerDepth(cmp: Comparison, bound: real)
    | Direct(key: DirectKey, expected: Json)

  datatype Rule = Rule(capability: string, action: Action, conditions: seq<Condition>)

  datatype PolicyRules = PolicyRules(rules: seq<Rule>, riskLevels: map<string, Action>)

  /** What a policy is asked about. An absent payload is the empty one. */
  datatype Request = Request(capability: string, context: Dict, payload: Dict)

  // ---------------------------------------------------------------- matching one rule

  predicate CapabilityMatches(ruleCapability: string, capability: string)
  {
    var own, req := Parse(ruleCapability), Parse(capability);
    if own.Some? && req.Some? then Covers(own.value, req.value)
    else
      || ruleCapability == "*"
      || ruleCapability == capability
      || (EndsWith(ruleCapability, ".*") && StartsWith(capability, ruleCapability[..|ruleCapability| - 2]))
  }

  predicate Compare(cmp: Comparison, x: real, bound: real)
  {
    match cmp
    case Gt => x > bound
    case Gte => x >= bound
    case Lt => x < bound
    case Lte => x <= bound
  }

  const AMOUNT_KEYS := ["amount", "total", "value", "sum", "quantity", "price", "cost"]
  const PATH_KEYS := ["path", "file", "filepath", "filename", "target", "directory", "root"]

  /** The first of the keys whose value converts to a number. */
  function ExtractAmount(t: Text, payload: Dict, keys: seq<string>): Option<real>
  {
    if keys == [] then None
    else
      var val := Get(payload, keys[0]);
      if val != JNull && Float(t, val).Some? then Float(t, val)
      else ExtractAmount(t, payload, keys[1..])
  }

  /** The text of the first of the keys that is present and not null. */
  function ExtractPath(t: Text, payload: Dict, keys: seq<string>): Option<string>
  {
    if keys == [] then None
    else if Get(payload, keys[0]) != JNull then Some(Str(t, Get(payload, keys[0])))
    else ExtractPath(t, payload, keys[1..])
  }

  predicate ValueMatches(t: Text, actual: Json, expected: Json)
  {
    PythonEqual(actual, expected) || (actual.JStr? && expected.JStr? && t.glob(actual.s, expected.s))
  }

  predicate Holds(t: Text, c: Condition, context: Dict, payload: Dict)
  {
    match c
    case MatchKeywords(keywords) => exists k :: k in keywords && t.mentions(payload, Str(t, k))
    case MatchRegex(patterns) => exists p :: p in patterns && t.search(payload, Str(t, p))
    case Contains(text) => t.mentions(payload, Str(t, text))
    case Amount(cmp, bound) =>
      var amount := ExtractAmount(t, payload, AMOUNT_KEYS);
      amount.Some? && Compare(cmp, amount.value, bound)
    case PathPrefix(prefix) =>
      var path := ExtractPath(t, payload, PATH_KEYS);
      path.Some? && StartsWith(path.value, Str(t, prefix))
    case CallerDepth(cmp, bound) =>
      var depth := Float(t, Get(context, "caller_depth"));
      depth.Some? && Compare(cmp, depth.value, bound)
    case Direct(key, expected) =>
      || ValueMatches(t, Get(context, KeyName(key)), expected)
      || ValueMatches(t, Get(payload, KeyName(key)), expected)
  }

  predicate Matches(t: Text, r: Rule, q: Request)
  {
    CapabilityMatches(r.capability, q.capability)
    && forall i :: 0 <= i < |r.conditions| ==> Holds(t, r.conditions[i], q.context, q.payload)
  }

  // ---------------------------------------------------------------- what conditions mean

  /** A rule is about a capability if its own covers it; where one of the two is no capability, if it is `*`, the same
      text, or ends in `.*` and the requested text goes on from what is in front of that. */
  lemma CapabilityMatchesIff(own: string, requested: string)
    ensures CapabilityMatches(own, requested) <==>
      if Parse(own).Some? && Parse(requested).Some? then Covers(Parse(own).value, Parse(requested).value)
      else own == "*" || own == requested || exists p, rest :: own == p + ".*" && requested == p + rest
  {
    hide Parse;
    if p, rest :| own == p + ".*" && requested == p + rest {
      assert own[..|own| - 2] == p && own[|own| - 2..] == ".*";
    }
    if EndsWith(own, ".*") && StartsWith(requested, own[..|own| - 2]) {
      var p := own[..|own| - 2];
      assert own == p + ".*" && requested == p + requested[|p|..];
    }
  }

  /** Further conditions narrow a rule: all of them have to hold as well. */
  lemma ConditionsNarrow(t: Text, r: Rule, more: seq<Condition>, q: Request)
    ensures Matches(t, r.(conditions := r.conditions + more), q)
            <==> Matches(t, r, q) && forall i :: 0 <= i < |more| ==> Holds(t, more[i], q.context, q.payload)
  {
    var all := r.conditions + more;
    assert forall i :: 0 <= i < |more| ==> all[|r.conditions| + i] == more[i];
    assert forall i :: 0 <= i < |r.conditions| ==> all[i] == r.conditions[i];
  }

  predicate Readable(t: Text, payload: Dict, key: string)
  {
    Get(payload, key) != JNull && Float(t, Get(payload, key)).Some?
  }

  ghost predicate FirstReadable(t: Text, payload: Dict, keys: seq<string>, i: int)
  {
    0 <= i < |keys| && Readable(t, payload, keys[i]) && forall j :: 0 <= j < i ==> !Readable(t, payload, keys[j])
  }

  /** The amount is the number under the first key that has one; keys before it that have none are passed over. */
  lemma {:induction false} AmountIsFirstReadable(t: Text, payload: Dict, keys: seq<string>)
    ensures ExtractAmount(t, payload, keys).None? <==> forall k :: k in keys ==> !Readable(t, payload, k)
    ensures forall i :: FirstReadable(t, payload, keys, i) ==>
      ExtractAmount(t, payload, keys) == Float(t, Get(payload, keys[i]))
  {
    if keys == [] {
    } else {
      AmountIsFirstReadable(t, payload, keys[1..]);
      assert keys[0] in keys && forall k :: k in keys[1..] ==> k in keys;
      assert keys == [keys[0]] + keys[1..];
      forall i | FirstReadable(t, payload, keys, i)
        ensures ExtractAmount(t, payload, keys) == Float(t, Get(payload, keys[i]))
      {
        assert i > 0 ==> FirstReadable(t, payload, keys[1..], i - 1);
      }
    }
  }

  /** Of two opposite bounds on the amount exactly one holds when there is an amount, and neither when there is
      none; likewise for the caller depth. */
  lemma {:induction false} OppositeBounds(t: Text, bound: real, context: Dict, payload: Dict)
    ensures var known := exists k :: k in AMOUNT_KEYS && Readable(t, payload, k);
      && (Holds(t, Amount(Gt, bound), context, payload) <==> known && !Holds(t, Amount(Lte, bound), context, payload))
      && (Holds(t, Amount(Lt, bound), context, payload) <==> known && !Holds(t, Amount(Gte, bound), context, payload))
    ensures var known := Float(t, Get(context, "caller_depth")).Some?;
      && (Holds(t, CallerDepth(Gt, bound), context, payload)
          <==> known && !Holds(t, CallerDepth(Lte, bound), context, payload))
      && (Holds(t, CallerDepth(Lt, bound), context, payload)
          <==> known && !Holds(t, CallerDepth(Gte, bound), context, payload))
  {
    hide ExtractAmount;
    AmountIsFirstReadable(t, payload, AMOUNT_KEYS);
  }

  /** `holds(cmp, bound)` compares one number with bounds, or holds of none when there is no number: below `b` lies `a`,
      so what is above `b` is above `a`, nothing is both, and the number itself is neither above nor below itself. */
  ghost predicate ComparesAs(number: Option<real>, holds: (Comparison, real) -> bool, a: real, b: real)
  {
    && (a < b ==> (holds(Gte, b) ==> holds(Gt, a)) && (holds(Lte, a) ==> holds(Lt, b)))
    && (a < b ==> !(holds(Gte, b) && holds(Lte, a)))
    && (holds(Gt, a) ==> holds(Gte, a)) && (holds(Lt, a) ==> holds(Lte, a)) && !(holds(Gt, a) && holds(Lt, a))
    && (number == Some(a) ==> holds(Gte, a) && holds(Lte, a))
    && (number == None ==> !holds(Gt, a) && !holds(Gte, a) && !holds(Lt, a) && !holds(Lte, a))
  }

  /** Bounds on the amount and on the caller depth point the way their names say: `gt` and `gte` are bounds from below,
      `lt` and `lte` from above, and only `gte` and `lte` are met by the bound itself. */
  lemma {:induction false} BoundsPointTheirWay(t: Text, a: real, b: real, context: Dict, payload: Dict)
    ensures ComparesAs(ExtractAmount(t, payload, AMOUNT_KEYS),
              (cmp, bound) => Holds(t, Amount(cmp, bound), context, payload), a, b)
    ensures ComparesAs(Float(t, Get(context, "caller_depth")),
              (cmp, bound) => Holds(t, CallerDepth(cmp, bound), context, payload), a, b)
  {
    hide ExtractAmount;
  }

  /** Keywords are alternatives, each of them looked for as `contains` looks for its text; so are patterns. */
  lemma {:induction false} ListsAreAlternatives(t: Text, vs: seq<Json>, more: seq<Json>, s: string, context: Dict,
          payload: Dict)
    ensures !Holds(t, MatchKeywords([]), context, payload) && !Holds(t, MatchRegex([]), context, payload)
    ensures Holds(t, MatchKeywords(vs + more), context, payload)
            <==> Holds(t, MatchKeywords(vs), context, payload) || Holds(t, MatchKeywords(more), context, payload)
    ensures Holds(t, MatchRegex(vs + more), context, payload)
            <==> Holds(t, MatchRegex(vs), context, payload) || Holds(t, MatchRegex(more), context, payload)
    ensures t.mentions(payload, s) <==> Holds(t, Contains(JStr(s)), context, payload)
    ensures t.mentions(payload, s) <==> Holds(t, MatchKeywords([JStr(s)]), context, payload)
    ensures t.search(payload, s) <==> Holds(t, MatchRegex([JStr(s)]), context, payload)
  {
    assert Str(t, JStr(s)) == s && JStr(s) in [JStr(s)];
  }

  ghost predicate FirstPresent(payload: Dict, keys: seq<string>, i: int)
  {
    0 <= i < |keys| && Get(payload, keys[i]) != JNull && forall j :: 0 <= j < i ==> Get(payload, keys[j]) == JNull
  }

  /** The path is the text under the first key that is there. */
  lemma {:induction false} PathIsFirstPresent(t: Text, payload: Dict, keys: seq<string>)
    ensures ExtractPath(t, payload, keys).None? <==> forall k :: k in keys ==> Get(payload, k) == JNull
    ensures forall i :: FirstPresent(payload, keys, i) ==>
      ExtractPath(t, payload, keys) == Some(Str(t, Get(payload, keys[i])))
  {
    if keys == [] {
    } else {
      PathIsFirstPresent(t, payload, keys[1..]);
      assert keys[0] in keys && forall k :: k in keys[1..] ==> k in keys;
      assert keys == [keys[0]] + keys[1..];
      forall i | FirstPresent(payload, keys, i)
        ensures ExtractPath(t, payload, keys) == Some(Str(t, Get(payload, keys[i])))
      {
        assert i > 0 ==> FirstPresent(payload, keys[1..], i - 1);
      }
    }
  }

  /** A path prefix holds if and only if the text under the first of these keys that is there goes on from it. */
  lemma {:induction false} PrefixesOfThePath(t: Text, prefix: string, context: Dict, payload: Dict)
    ensures var keys := ["path", "file", "filepath", "filename", "target", "directory", "root"];
      Holds(t, PathPrefix(JStr(prefix)), context, payload)
      <==> exists i, rest :: FirstPresent(payload, keys, i) && Str(t, Get(payload, keys[i])) == prefix + rest
  {
    hide ExtractPath;
    PathIsFirstPresent(t, payload, PATH_KEYS);
    if Holds(t, PathPrefix(JStr(prefix)), context, payload) {
      var i := FirstThere(payload, PATH_KEYS);
      var text := Str(t, Get(payload, PATH_KEYS[i]));
      assert text == prefix + text[|prefix|..];
    }
  }

  lemma FirstThere(payload: Dict, keys: seq<string>) returns (i: int)
    requires exists k :: k in keys && Get(payload, k) != JNull
    ensures FirstPresent(payload, keys, i)
  {
    i := 0;
    while Get(payload, keys[i]) == JNull
      invariant 0 <= i < |keys| && forall j :: 0 <= j < i ==> Get(payload, keys[j]) == JNull
      invariant exists j :: i <= j < |keys| && Get(payload, keys[j]) != JNull
      decreases |keys| - i
    {
      i := i + 1;
    }
  }

  /** A bound on the amount is compared with the number under the first of these keys that has one. */
  lemma {:induction false} BoundsReadTheAmount(t: Text, cmp: Comparison, bound: real, context: Dict, payload: Dict)
    ensures var keys := ["amount", "total", "value", "sum", "quantity", "price", "cost"];
      Holds(t, Amount(cmp, bound), context, payload)
      <==> exists i :: FirstReadable(t, payload, keys, i) && Compare(cmp, Float(t, Get(payload, keys[i])).value, bound)
  {
    hide ExtractAmount;
    AmountIsFirstReadable(t, payload, AMOUNT_KEYS);
    if Holds(t, Amount(cmp, bound), context, payload) {
      var i := FirstNumber(t, payload, AMOUNT_KEYS);
    }
  }

  lemma FirstNumber(t: Text, payload: Dict, keys: seq<string>) returns (i: int)
    requires exists k :: k in keys && Readable(t, payload, k)
    ensures FirstReadable(t, payload, keys, i)
  {
    i := 0;
    while !Readable(t, payload, keys[i])
      invariant 0 <= i < |keys| && forall j :: 0 <= j < i ==> !Readable(t, payload, keys[j])
      invariant exists j :: i <= j < |keys| && Readable(t, payload, keys[j])
      decreases |keys| - i
    {
      i := i + 1;
    }
  }

  /** A direct condition holds when the context or the payload has, under the name of the key, a value that meets it;
      each of the two suffices. */
  lemma {:induction false} EitherSideSuffices(t: Text, key: DirectKey, expected: Json, context: Dict, payload: Dict)
    ensures Holds(t, Direct(key, expected), context, payload)
            <==> exists side :: side in [context, payload] && ValueMatches(t, Get(side, KeyName(key)), expected)
  {
    hide ValueMatches;
    var sides := [context, payload];
    assert sides[0] in sides && sides[1] in sides;
  }

  /** What meets an expected value: for texts the same text or one that it matches as a shell pattern, for numbers and
      truth values the same value, and for null null alone. */
  lemma MetByValue(t: Text, actual: Json, expected: Json)
    ensures expected.JStr? ==> (ValueMatches(t, actual, expected)
              <==> (actual == expected || (actual.JStr? && t.glob(actual.s, expected.s))))
    ensures IsNumber(expected) ==> (ValueMatches(t, actual, expected)
              <==> IsNumber(actual) && NumberValue(actual) == NumberValue(expected))
    ensures expected.JNull? ==> (ValueMatches(t, actual, expected) <==> actual.JNull?)
  {
  }

  // ---------------------------------------------------------------- the staged search

  datatype Ruling = Allowed | Warned | Denied | ApprovalRequired | DefaultDenied

  datatype Section = DenySection | ApprovalSection | RiskSection | AllowSection | WarnSection | DefaultSection

  datatype Explanation = Explanation(ruling: Ruling, section: Section, index: Option<nat>)

  const DENIES: set<Action> := {Deny, Block}
  const APPROVALS: set<Action> := {RequireApproval}
  const PERMITS: set<Action> := {Allow, Warn}

  predicate Selected(t: Text, r: Rule, actions: set<Action>, q: Request)
  {
    r.action in actions && Matches(t, r, q)
  }

  /** The index of the first matching rule with one of the actions, looking from `i` on. */
  function FirstMatch(t: Text, rules: seq<Rule>, actions: set<Action>, q: Request, i: nat): (r: Option<nat>)
    requires i <= |rules|
    ensures r.Some? ==> i <= r.value < |rules| && Selected(t, rules[r.value], actions, q)
    ensures forall j :: i <= j < (if r.Some? then r.value else |rules|) ==> !Selected(t, rules[j], actions, q)
    decreases |rules| - i
  {
    if i == |rules| then None
    else if Selected(t, rules[i], actions, q) then Some(i)
    else FirstMatch(t, rules, actions, q, i + 1)
  }

  function RiskAction(p: PolicyRules, q: Request): Option<Action>
  {
    var level := Get(q.context, "risk_level");
    if level.JStr? && level.s in p.riskLevels then Some(p.riskLevels[level.s]) else None
  }

  function RiskRuling(a: Action): Ruling
  {
    match a
    case Deny => Denied
    case Block => Denied
    case RequireApproval => ApprovalRequired
    case Warn => Warned
    case Allow => Allowed
  }

  function Explain(t: Text, p: PolicyRules, q: Request): Explanation
  {
    var deny := FirstMatch(t, p.rules, DENIES, q, 0);
    var approval := FirstMatch(t, p.rules, APPROVALS, q, 0);
    var risk := RiskAction(p, q);
    var permit := FirstMatch(t, p.rules, PERMITS, q, 0);
    if deny.Some? then Explanation(Denied, DenySection, deny)
    else if approval.Some? then Explanation(ApprovalRequired, ApprovalSection, approval)
    else if risk.Some? && risk.value != Allow then Explanation(RiskRuling(risk.value), RiskSection, None)
    else if permit.Some? then
      if p.rules[permit.value].action == Warn then Explanation(Warned, WarnSection, permit)
      else Explanation(Allowed, AllowSection, permit)
    else Explanation(DefaultDenied, DefaultSection, None)
  }

  function Evaluate(t: Text, p: PolicyRules, q: Request): Ruling
  {
    Explain(t, p, q).ruling
  }

  // ---------------------------------------------------------------- what a ruling means

  /** Some rule with one of the actions matches. */
  ghost predicate AnyMatch(t: Text, rules: seq<Rule>, actions: set<Action>, q: Request)
  {
    exists r :: r in rules && Selected(t, r, actions, q)
  }

  /** The first permitting rule that matches has this action. */
  ghost predicate FirstPermit(t: Text, rules: seq<Rule>, q: Request, a: Action)
  {
    exists i: nat :: IsFirst(t, rules, PERMITS, q, i) && rules[i].action == a
  }

  ghost predicate IsFirst(t: Text, rules: seq<Rule>, actions: set<Action>, q: Request, i: nat)
  {
    i < |rules| && Selected(t, rules[i], actions, q) && forall j :: 0 <= j < i ==> !Selected(t, rules[j], actions, q)
  }

  /** A deny match decides; without one an approval match; without either a risk level that is not `allow`;
      without any of these the first permitting match; otherwise nothing is permitted. */
  ghost function Meaning(t: Text, p: PolicyRules, q: Request): Ruling
  {
    if AnyMatch(t, p.rules, DENIES, q) then Denied
    else if AnyMatch(t, p.rules, APPROVALS, q) then ApprovalRequired
    else if RiskAction(p, q).Some? && RiskAction(p, q).value != Allow then RiskRuling(RiskAction(p, q).value)
    else if FirstPermit(t, p.rules, q, Allow) then Allowed
    else if FirstPermit(t, p.rules, q, Warn) then Warned
    else DefaultDenied
  }

  /** The rule actions a section looks for. */
  function StageActions(s: Section): set<Action>
  {
    match s
    case DenySection => DENIES
    case ApprovalSection => APPROVALS
    case _ => PERMITS
  }

  lemma {:induction false} FirstMatchIffAny(t: Text, rules: seq<Rule>, actions: set<Action>, q: Request)
    ensures FirstMatch(t, rules, actions, q, 0).Some? <==> AnyMatch(t, rules, actions, q)
  {
    var r := FirstMatch(t, rules, actions, q, 0);
    if r.Some? {
      assert rules[r.value] in rules;
    }
  }

  /** The staged search computes the declared meaning, and names the first match of the winning stage. */
  lemma ExplainRefinesMeaning(t: Text, p: PolicyRules, q: Request)
    ensures var x := Explain(t, p, q);
      && x.ruling == Meaning(t, p, q)
      && (x.section == DenySection <==> AnyMatch(t, p.rules, DENIES, q))
      && (x.section == ApprovalSection
          <==> !AnyMatch(t, p.rules, DENIES, q) && AnyMatch(t, p.rules, APPROVALS, q))
      && (x.section in {RiskSection, DefaultSection} <==> x.index.None?)
      && (x.section == DefaultSection <==> x.ruling == DefaultDenied)
      && (x.index.Some? ==> IsFirst(t, p.rules, StageActions(x.section), q, x.index.value))
      && (x.section == AllowSection <==> x.index.Some? && p.rules[x.index.value].action == Allow)
      && (x.section == WarnSection <==> x.index.Some? && p.rules[x.index.value].action == Warn)
  {
    FirstMatchIffAny(t, p.rules, DENIES, q);
    FirstMatchIffAny(t, p.rules, APPROVALS, q);
    var permit := FirstMatch(t, p.rules, PERMITS, q, 0);
    if permit.Some? {
      assert IsFirst(t, p.rules, PERMITS, q, permit.value);
    }
  }

  // ---------------------------------------------------------------- what the ruling depends on

  /** The context keys rules can look at. */
  const CONTEXT_KEYS: set<string> :=
    {"environment", "user_role", "tenant", "table", "tool_name", "risk_level", "caller_depth"}

  predicate AgreeOn(a: Dict, b: Dict, keys: set<string>)
  {
    forall k :: k in keys ==> Get(a, k) == Get(b, k)
  }

  /** Keys of the context that no condition names do not matter. */
  lemma OtherContextKeysIgnored(t: Text, p: PolicyRules, q: Request, context: Dict)
    requires AgreeOn(q.context, context, CONTEXT_KEYS)
    ensures Explain(t, p, q) == Explain(t, p, q.(context := context))
  {
    var q' := q.(context := context);
    forall r | r in p.rules
      ensures Matches(t, r, q) <==> Matches(t, r, q')
    {
      forall i | 0 <= i < |r.conditions|
        ensures Holds(t, r.conditions[i], q.context, q.payload) <==> Holds(t, r.conditions[i], context, q.payload)
      {
        ConditionReadsKnownKeys(t, r.conditions[i], q.context, context, q.payload);
      }
    }
    SameSearch(t, p.rules, DENIES, q, q', 0);
    SameSearch(t, p.rules, APPROVALS, q, q', 0);
    SameSearch(t, p.rules, PERMITS, q, q', 0);
  }

  lemma ConditionReadsKnownKeys(t: Text, c: Condition, a: Dict, b: Dict, payload: Dict)
    requires AgreeOn(a, b, CONTEXT_KEYS)
    ensures Holds(t, c, a, payload) <==> Holds(t, c, b, payload)
  {
    match c
    case Direct(key, _) => assert KeyName(key) in CONTEXT_KEYS;
    case _ =>
  }

  lemma {:induction false} SameSearch(t: Text, rules: seq<Rule>, actions: set<Action>, q: Request, q': Request, i: nat)
    requires i <= |rules|
    requires forall r :: r in rules ==> (Matches(t, r, q) <==> Matches(t, r, q'))
    ensures FirstMatch(t, rules, actions, q, i) == FirstMatch(t, rules, actions, q', i)
    decreases |rules| - i
  {
    if i < |rules| {
      assert rules[i] in rules;
      SameSearch(t, rules, actions, q, q', i + 1);
    }
  }

  /** The rules with one of these actions, in order. */
  function Only(rules: seq<Rule>, actions: set<Action>): seq<Rule>
  {
    if rules == [] then []
    else Only(rules[..|rules| - 1], actions) + if rules[|rules| - 1].action in actions then [rules[|rules| - 1]] else []
  }

  /** The first rule with one of the actions that matches, found from the back. */
  function FirstRule(t: Text, rules: seq<Rule>, actions: set<Action>, q: Request): Option<Rule>
  {
    if rules == [] then None
    else
      var earlier := FirstRule(t, rules[..|rules| - 1], actions, q);
      if earlier.Some? then earlier
      else if Selected(t, rules[|rules| - 1], actions, q) then Some(rules[|rules| - 1])
      else None
  }

  lemma {:induction false} FirstRuleIsFirst(t: Text, rules: seq<Rule>, actions: set<Action>, q: Request, i: nat)
    requires IsFirst(t, rules, actions, q, i)
    ensures FirstRule(t, rules, actions, q) == Some(rules[i])
  {
    var n := |rules| - 1;
    if i < n {
      FirstRuleIsFirst(t, rules[..n], actions, q, i);
    } else {
      NoFirstRule(t, rules[..n], actions, q);
    }
  }

  lemma {:induction false} NoFirstRule(t: Text, rules: seq<Rule>, actions: set<Action>, q: Request)
    requires forall j :: 0 <= j < |rules| ==> !Selected(t, rules[j], actions, q)
    ensures FirstRule(t, rules, actions, q) == None
  {
    if rules == [] {
    } else {
      NoFirstRule(t, rules[..|rules| - 1], actions, q);
    }
  }

  /** The first permitting match, if any, is the first rule found in the permitting part of the list. */
  lemma {:induction false} FirstPermitInOnly(t: Text, rules: seq<Rule>, q: Request, a: Action)
    ensures FirstPermit(t, rules, q, a)
            <==> exists r :: FirstRule(t, Only(rules, PERMITS), PERMITS, q) == Some(r) && r.action == a
  {
    FirstRuleInOnly(t, rules, PERMITS, q);
    var m := FirstMatch(t, rules, PERMITS, q, 0);
    if m.Some? {
      assert IsFirst(t, rules, PERMITS, q, m.value);
      FirstRuleIsFirst(t, rules, PERMITS, q, m.value);
    } else {
      NoFirstRule(t, rules, PERMITS, q);
    }
  }

  lemma {:induction false} FirstRuleInOnly(t: Text, rules: seq<Rule>, actions: set<Action>, q: Request)
    ensures FirstRule(t, Only(rules, actions), actions, q) == FirstRule(t, rules, actions, q)
  {
    if rules == [] {
    } else {
      var front, r := rules[..|rules| - 1], rules[|rules| - 1];
      FirstRuleInOnly(t, front, actions, q);
      if r.action in actions {
        assert (Only(front, actions) + [r])[..|Only(front, actions)|] == Only(front, actions);
      } else {
        assert Only(rules, actions) == Only(front, actions);
      }
    }
  }

  lemma {:induction false} SamePermits(t: Text, rules: seq<Rule>, rules': seq<Rule>, q: Request)
    requires Only(rules, PERMITS) == Only(rules', PERMITS)
    ensures FirstPermit(t, rules, q, Allow) <==> FirstPermit(t, rules', q, Allow)
    ensures FirstPermit(t, rules, q, Warn) <==> FirstPermit(t, rules', q, Warn)
  {
    FirstPermitInOnly(t, rules, q, Allow);
    FirstPermitInOnly(t, rules', q, Allow);
    FirstPermitInOnly(t, rules, q, Warn);
    FirstPermitInOnly(t, rules', q, Warn);
  }

  lemma SameMatches(t: Text, rules: seq<Rule>, rules': seq<Rule>, actions: set<Action>, q: Request)
    requires multiset(rules) == multiset(rules')
    ensures AnyMatch(t, rules, actions, q) <==> AnyMatch(t, rules', actions, q)
  {
    assert forall r :: r in rules <==> r in multiset(rules);
    assert forall r :: r in rules' <==> r in multiset(rules');
  }

  /** Any permutation of the rules that keeps the permitting rules in their order gives the same ruling. */
  lemma RulingIgnoresOrder(t: Text, p: PolicyRules, p': PolicyRules, q: Request)
    requires multiset(p.rules) == multiset(p'.rules) && p.riskLevels == p'.riskLevels
    requires Only(p.rules, PERMITS) == Only(p'.rules, PERMITS)
    ensures Evaluate(t, p, q) == Evaluate(t, p', q)
  {
    hide Explain, FirstPermit, AnyMatch;
    ExplainRefinesMeaning(t, p, q);
    ExplainRefinesMeaning(t, p', q);
    SameMatches(t, p.rules, p'.rules, DENIES, q);
    SameMatches(t, p.rules, p'.rules, APPROVALS, q);
    SamePermits(t, p.rules, p'.rules, q);
  }

  predicate Permits(r: Ruling)
  {
    r == Allowed || r == Warned
  }

  /** Whether anything is permitted at all does not even depend on that order. */
  lemma PermissionIgnoresOrder(t: Text, p: PolicyRules, p': PolicyRules, q: Request)
    requires multiset(p.rules) == multiset(p'.rules) && p.riskLevels == p'.riskLevels
    ensures Permits(Evaluate(t, p, q)) <==> Permits(Evaluate(t, p', q))
    ensures !Permits(Evaluate(t, p, q)) ==> Evaluate(t, p, q) == Evaluate(t, p', q)
  {
    hide Explain, FirstPermit, AnyMatch;
    ExplainRefinesMeaning(t, p, q);
    ExplainRefinesMeaning(t, p', q);
    SameMatches(t, p.rules, p'.rules, DENIES, q);
    SameMatches(t, p.rules, p'.rules, APPROVALS, q);
    SameMatches(t, p.rules, p'.rules, PERMITS, q);
    SomePermitIffAny(t, p.rules, q);
    SomePermitIffAny(t, p'.rules, q);
  }

  lemma SomePermitIffAny(t: Text, rules: seq<Rule>, q: Request)
    ensures AnyMatch(t, rules, PERMITS, q) <==> FirstPermit(t, rules, q, Allow) || FirstPermit(t, rules, q, Warn)
  {
    FirstMatchIffAny(t, rules, PERMITS, q);
    var r := FirstMatch(t, rules, PERMITS, q, 0);
    if r.Some? {
      assert IsFirst(t, rules, PERMITS, q, r.value);
    }
  }

  /** The order of two permitting rules does decide between a plain and a warned permission. */
  lemma PermitOrderMatters(t: Text, q: Request)
    ensures exists p: PolicyRules, p': PolicyRules ::
      && multiset(p.rules) == multiset(p'.rules) && p.riskLevels == p'.riskLevels
      && Evaluate(t, p, q) != Evaluate(t, p', q)
  {
    var allow, warn := Rule("*", Allow, []), Rule("*", Warn, []);
    FirstRuleDecides(t, allow, warn, q);
    FirstRuleDecides(t, warn, allow, q);
    assert multiset([allow, warn]) == multiset([warn, allow]);
    assert Evaluate(t, PolicyRules([allow, warn], map[]), q) != Evaluate(t, PolicyRules([warn, allow], map[]), q);
  }

  lemma FirstRuleDecides(t: Text, first: Rule, second: Rule, q: Request)
    requires first in {Rule("*", Allow, []), Rule("*", Warn, [])} && second.action in PERMITS
    ensures Evaluate(t, PolicyRules([first, second], map[]), q) == if first.action == Allow then Allowed else Warned
  {
    hide Explain;
    StarMatches(q.capability);
    ExplainRefinesMeaning(t, PolicyRules([first, second], map[]), q);
    assert IsFirst(t, [first, second], PERMITS, q, 0);
  }

  /** A rule on `*` matches every capability, well formed or not. */
  lemma StarMatches(capability: string)
    ensures CapabilityMatches("*", capability) && Parse("*") == Some(TOP)
  {
    assert Dot("*", 0) == Dot("*", 1) == 1;
    assert Parse("*") == Some(TOP);
  }

  // ---------------------------------------------------------------- redundant deny rules

  /** `r` denies, and another rule denies unconditionally on a capability that covers the one of `r`. */
  predicate CoveredDeny(before: seq<Rule>, r: Rule, after: seq<Rule>, broad: Rule)
  {
    && broad in before + after && broad.action in DENIES && broad.conditions == []
    && r.action in DENIES
    && Parse(broad.capability).Some? && Parse(r.capability).Some?
    && Covers(Parse(broad.capability).value, Parse(r.capability).value)
  }

  /** Without `r` the verdict is the same. */
  predicate Redundant(t: Text, before: seq<Rule>, r: Rule, after: seq<Rule>, risk: map<string, Action>, q: Request)
  {
    Evaluate(t, PolicyRules(before + [r] + after, risk), q) == Evaluate(t, PolicyRules(before + after, risk), q)
  }

  /** For a request, every deny that an unconditional one covers is redundant if and only if the requested capability
      is well formed. */
  lemma RedundantIffWellFormed(t: Text, q: Request)
    ensures (forall before, r, after, broad, risk :: CoveredDeny(before, r, after, broad) ==> Redundant(t, before, r,
            after, risk, q))
            <==> Parse(q.capability).Some?
  {
    if Parse(q.capability).Some? {
      forall before, r, after, broad, risk | CoveredDeny(before, r, after, broad)
        ensures Redundant(t, before, r, after, risk, q)
      {
        CoveredDenyIsRedundant(t, before, r, after, broad, risk, q);
      }
    } else {
      CoveredDenyNeededWhenMalformed(t, q);
      var broad := BroadDeny(q);
      assert CoveredDeny([broad], NARROW_DENY, [ALLOW_ALL], broad);
      assert !Redundant(t, [broad], NARROW_DENY, [ALLOW_ALL], map[], q);
    }
  }

  /** An unconditional deny makes every deny on a capability it covers redundant, for well-formed requests. */
  lemma CoveredDenyIsRedundant(t: Text, before: seq<Rule>, r: Rule, after: seq<Rule>, broad: Rule, risk: map<string,
          Action>, q: Request)
    requires CoveredDeny(before, r, after, broad) && Parse(q.capability).Some?
    ensures Redundant(t, before, r, after, risk, q)
  {
    hide Explain, FirstPermit;
    var p, p' := PolicyRules(before + [r] + after, risk), PolicyRules(before + after, risk);
    ExplainRefinesMeaning(t, p, q);
    ExplainRefinesMeaning(t, p', q);
    if Matches(t, r, q) {
      CoveringIsPartialOrder(Parse(broad.capability).value, Parse(r.capability).value, Parse(q.capability).value);
      assert Selected(t, broad, DENIES, q);
    }
    MatchesWithout(t, before, r, after, DENIES, q);
    MatchesWithout(t, before, r, after, APPROVALS, q);
    OnlyWithout(before, r, after);
    SamePermits(t, p.rules, p'.rules, q);
  }

  lemma MatchesWithout(t: Text, before: seq<Rule>, r: Rule, after: seq<Rule>, actions: set<Action>, q: Request)
    requires Selected(t, r, actions, q) ==> AnyMatch(t, before + after, actions, q)
    ensures AnyMatch(t, before + [r] + after, actions, q) <==> AnyMatch(t, before + after, actions, q)
  {
    assert forall x :: x in before + [r] + after <==> x in before + after || x == r;
  }

  lemma {:induction false} OnlyWithout(before: seq<Rule>, r: Rule, after: seq<Rule>)
    requires r.action !in PERMITS
    ensures Only(before + [r] + after, PERMITS) == Only(before + after, PERMITS)
  {
    if after == [] {
      assert before + [r] + after == before + [r] && before + after == before;
      assert (before + [r])[..|before|] == before;
    } else {
      var n := |after| - 1;
      OnlyWithout(before, r, after[..n]);
      assert (before + [r] + after)[..|before| + 1 + n] == before + [r] + after[..n];
      assert (before + after)[..|before| + n] == before + after[..n];
    }
  }

  const NARROW_DENY := Rule(".*", Deny, [])
  const ALLOW_ALL := Rule("*", Allow, [])

  /** A deny that covers the one on `.*` but does not match the malformed request. */
  function BroadDeny(q: Request): Rule
  {
    Rule(if StartsWith(q.capability, ".*") then "*.*.*" else ".*.*", Deny, [])
  }

  /** For a request that is not a well-formed capability it is not: taking the covered deny away permits it. */
  lemma CoveredDenyNeededWhenMalformed(t: Text, q: Request)
    requires Parse(q.capability) == None
    ensures CoveredDeny([BroadDeny(q)], NARROW_DENY, [ALLOW_ALL], BroadDeny(q))
    ensures Evaluate(t, PolicyRules([BroadDeny(q)] + [NARROW_DENY] + [ALLOW_ALL], map[]), q) == Denied
    ensures Evaluate(t, PolicyRules([BroadDeny(q)] + [ALLOW_ALL], map[]), q) == Allowed
  {
    StarMatches(q.capability);
    WildcardTexts();
    BroadDenyMisses(q);
    DenyDecides(t, PolicyRules([BroadDeny(q)] + [NARROW_DENY] + [ALLOW_ALL], map[]), NARROW_DENY, q);
    AllowIsLeft(t, BroadDeny(q), q);
  }

  lemma DenyDecides(t: Text, p: PolicyRules, r: Rule, q: Request)
    requires r in p.rules && r.action in DENIES && Matches(t, r, q)
    ensures Evaluate(t, p, q) == Denied
  {
    ExplainRefinesMeaning(t, p, q);
    assert Selected(t, r, DENIES, q);
  }

  lemma AllowIsLeft(t: Text, broad: Rule, q: Request)
    requires broad.action == Deny && !Matches(t, broad, q)
    ensures Evaluate(t, PolicyRules([broad] + [ALLOW_ALL], map[]), q) == Allowed
  {
    var rules := [broad] + [ALLOW_ALL];
    StarMatches(q.capability);
    ExplainRefinesMeaning(t, PolicyRules(rules, map[]), q);
    assert IsFirst(t, rules, PERMITS, q, 1);
  }

  lemma BroadDenyMisses(q: Request)
    requires Parse(q.capability) == None
    ensures !CapabilityMatches(BroadDeny(q).capability, q.capability) && CapabilityMatches(".*", q.capability)
  {
    WildcardTexts();
    assert ".*"[..0] == "" && ".*.*"[..2] == ".*" && "*.*.*"[..3] == "*.*";
    assert "*.*"[0] == '*' && ".*"[0] == '.';
  }

  lemma WildcardTexts()
    ensures Parse("*.*.*") == Some(TOP) && Parse(".*.*") == Some(Capability("", "*", "*"))
    ensures Parse(".*") == Some(Capability("", "*", "*"))
  {
    hide Parse;
    ParseThree("*", "*", "*");
    ParseThree("", "*", "*");
    ParseTwo("", "*");
    assert "*" + "." + "*" + "." + "*" == "*.*.*" && "" + "." + "*" + "." + "*" == ".*.*" && "" + "." + "*" == ".*";
  }
}
