/** What a policy inherits from the files it extends. */
module PolicyLayers {
  import opened Json
  import opened Events
  import opened Policy
  import opened PolicyLoader

  /** `q` is `path` or a name it extends, directly or not. */
  ghost predicate Reaches(d: Disk, path: string, q: string, rank: string -> nat)
    requires Acyclic(d, rank)
    decreases rank(path)
  {
    path == q || exists i :: 0 <= i < |Bases(d, path)| && Reaches(d, Bases(d, path)[i], q, rank)
  }

  // ---------------------------------------------------------------- stacking policies

  const NOTHING := PolicyRules([], map[])

  /** Policies merged one after the other over the empty one. */
  function Stack(ps: seq<PolicyRules>): PolicyRules
  {
    if ps == [] then NOTHING else Merged(Stack(ps[..|ps| - 1]), ps[|ps| - 1])
  }

  /** The rules of each policy, last policy first. */
  function NewestFirst(ps: seq<PolicyRules>): seq<Rule>
  {
    if ps == [] then [] else NewestFirst(ps[1..]) + ps[0].rules
  }

  lemma {:induction false} StackRules(ps: seq<PolicyRules>)
    ensures Stack(ps).rules == NewestFirst(ps)
  {
    if |ps| == 1 {
      assert ps[..0] == [] && ps[1..] == [];
    } else if ps != [] {
      var n := |ps| - 1;
      StackRules(ps[..n]);
      NewestFirstSnoc(ps[..n], ps[n]);
      assert ps == ps[..n] + [ps[n]];
    }
  }

  lemma {:induction false} NewestFirstSnoc(ps: seq<PolicyRules>, p: PolicyRules)
    ensures NewestFirst(ps + [p]) == p.rules + NewestFirst(ps)
  {
    if ps == [] {
      assert ([p])[1..] == [] && ps + [p] == [p];
    } else {
      NewestFirstSnoc(ps[1..], p);
      assert (ps + [p])[1..] == ps[1..] + [p];
    }
  }

  lemma {:induction false} StackMembers(ps: seq<PolicyRules>, r: Rule)
    ensures r in Stack(ps).rules <==> exists p :: p in ps && r in p.rules
  {
    if ps == [] {
    } else {
      StackMembers(ps[..|ps| - 1], r);
      assert ps == ps[..|ps| - 1] + [ps[|ps| - 1]];
    }
  }

  function Level(p: PolicyRules, level: string): Option<Action>
  {
    if level in p.riskLevels then Some(p.riskLevels[level]) else None
  }

  /** What the last policy that mentions the level says about it. */
  function LastSaid(ps: seq<PolicyRules>, level: string): (a: Option<Action>)
    ensures a == None <==> forall p :: p in ps ==> level !in p.riskLevels
  {
    if ps == [] then None
    else
      assert ps == ps[..|ps| - 1] + [ps[|ps| - 1]];
      if level in ps[|ps| - 1].riskLevels then Level(ps[|ps| - 1], level)
      else LastSaid(ps[..|ps| - 1], level)
  }

  lemma {:induction false} StackLevels(ps: seq<PolicyRules>, level: string)
    ensures Level(Stack(ps), level) == LastSaid(ps, level)
  {
    if ps == [] {
    } else {
      StackLevels(ps[..|ps| - 1], level);
    }
  }

  // ---------------------------------------------------------------- a loaded policy is a stack

  /** The loaded policies of the first `n` names that `path` extends. */
  ghost function BasePolicies(d: Disk, path: string, n: nat, rank: string -> nat): seq<PolicyRules>
    requires Acyclic(d, rank) && n <= |Bases(d, path)| && Layers(d, path, n, rank).Ok?
  {
    if n == 0 then [] else BasePolicies(d, path, n - 1, rank) + [Flatten(d, Bases(d, path)[n - 1], rank).value]
  }

  lemma {:induction false} BasePoliciesLength(d: Disk, path: string, n: nat, rank: string -> nat)
    requires Acyclic(d, rank) && n <= |Bases(d, path)| && Layers(d, path, n, rank).Ok?
    ensures |BasePolicies(d, path, n, rank)| == n
  {
    if n == 0 {
    } else {
      BasePoliciesLength(d, path, n - 1, rank);
    }
  }

  lemma LayersStep(d: Disk, path: string, n: nat, rank: string -> nat)
    requires Acyclic(d, rank) && 0 < n <= |Bases(d, path)| && Layers(d, path, n, rank).Ok?
    ensures Layers(d, path, n - 1, rank).Ok? && Flatten(d, Bases(d, path)[n - 1], rank).Ok?
    ensures Layers(d, path, n, rank).value == Merged(Layers(d, path, n - 1, rank).value,
            Flatten(d, Bases(d, path)[n - 1], rank).value)
  {
  }

  lemma {:induction false} LayersAreStack(d: Disk, path: string, n: nat, rank: string -> nat)
    requires Acyclic(d, rank) && n <= |Bases(d, path)| && Layers(d, path, n, rank).Ok?
    ensures Layers(d, path, n, rank).value == Stack(BasePolicies(d, path, n, rank))
    ensures |BasePolicies(d, path, n, rank)| == n
  {
    BasePoliciesLength(d, path, n, rank);
    if n == 0 {
    } else {
      LayersStep(d, path, n, rank);
      LayersAreStack(d, path, n - 1, rank);
      StackSnoc(BasePolicies(d, path, n - 1, rank), Flatten(d, Bases(d, path)[n - 1], rank).value);
    }
  }

  lemma {:induction false} StackSnoc(ps: seq<PolicyRules>, p: PolicyRules)
    ensures Stack(ps + [p]) == Merged(Stack(ps), p)
  {
    assert (ps + [p])[..|ps|] == ps;
  }

  lemma {:induction false} BasePolicyAt(d: Disk, path: string, n: nat, rank: string -> nat, i: nat)
    requires Acyclic(d, rank) && i < n <= |Bases(d, path)| && Layers(d, path, n, rank).Ok?
    ensures Flatten(d, Bases(d, path)[i], rank).Ok?
    ensures |BasePolicies(d, path, n, rank)| == n
    ensures BasePolicies(d, path, n, rank)[i] == Flatten(d, Bases(d, path)[i], rank).value
  {
    hide Flatten, Layers;
    LayersStep(d, path, n, rank);
    BasePoliciesLength(d, path, n, rank);
    BasePoliciesLength(d, path, n - 1, rank);
    if i < n - 1 {
      BasePolicyAt(d, path, n - 1, rank, i);
    }
  }

  /** The policies below a loaded one, in the order of its `extends` list. */
  ghost function Below(d: Disk, path: string, rank: string -> nat): seq<PolicyRules>
    requires Acyclic(d, rank) && Flatten(d, path, rank).Ok?
  {
    if Bases(d, path) == [] then [] else BasePolicies(d, path, |Bases(d, path)|, rank)
  }

  /** Loading a name gives its own rules, then those of its last base, and so on back to its first base; each
      base is itself a loaded policy. */
  lemma {:induction false} LoadedIsStack(d: Disk, path: string, rank: string -> nat)
    requires Acyclic(d, rank) && Flatten(d, path, rank).Ok?
    ensures OwnAt(d, path).Ok? && |Below(d, path, rank)| == |Bases(d, path)|
    ensures forall i :: 0 <= i < |Bases(d, path)| ==> Flatten(d, Bases(d, path)[i], rank) == Ok(Below(d, path, rank)[i])
    ensures Flatten(d, path, rank).value == Merged(Stack(Below(d, path, rank)), OwnAt(d, path).value)
    ensures Flatten(d, path, rank).value.rules == OwnAt(d, path).value.rules + NewestFirst(Below(d, path, rank))
  {
    if Bases(d, path) != [] {
      var n := |Bases(d, path)|;
      LayersAreStack(d, path, n, rank);
      forall i | 0 <= i < n
        ensures Flatten(d, Bases(d, path)[i], rank) == Ok(Below(d, path, rank)[i])
      {
        BasePolicyAt(d, path, n, rank, i);
      }
    }
    StackRules(Below(d, path, rank));
  }

  /** A risk level means what the policy itself says, else what the last base that mentions it says. */
  lemma {:induction false} RiskLevelsOverride(d: Disk, path: string, level: string, rank: string -> nat)
    requires Acyclic(d, rank) && Flatten(d, path, rank).Ok?
    ensures OwnAt(d, path).Ok?
    ensures Level(Flatten(d, path, rank).value, level)
            == if Level(OwnAt(d, path).value, level).Some? then Level(OwnAt(d, path).value, level)
               else LastSaid(Below(d, path, rank), level)
  {
    LoadedIsStack(d, path, rank);
    StackLevels(Below(d, path, rank), level);
  }

  // ---------------------------------------------------------------- what loads

  /** The file of this name is there, is a YAML mapping that passes validation, and has no section that is null. */
  predicate Loadable(d: Disk, path: string)
  {
    var at := Locate(d, path);
    at in d.files && d.files[at].Document? && Validates(d.files[at].raw) && !HasNull(d.files[at].raw)
  }

  /** A name loads if and only if every file it reaches is loadable. */
  lemma {:induction false} LoadsIff(d: Disk, path: string, rank: string -> nat)
    requires Acyclic(d, rank)
    ensures Flatten(d, path, rank).Ok? <==> forall q :: Reaches(d, path, q, rank) ==> Loadable(d, q)
    decreases rank(path)
  {
    assert Reaches(d, path, path, rank);
    forall i | 0 <= i < |Bases(d, path)|
      ensures Flatten(d, Bases(d, path)[i], rank).Ok?
              <==> forall q :: Reaches(d, Bases(d, path)[i], q, rank) ==> Loadable(d, q)
    {
      LoadsIff(d, Bases(d, path)[i], rank);
    }
    LayersLoadIff(d, path, |Bases(d, path)|, rank);
  }

  lemma {:induction false} LayersLoadIff(d: Disk, path: string, n: nat, rank: string -> nat)
    requires Acyclic(d, rank) && n <= |Bases(d, path)|
    ensures Layers(d, path, n, rank).Ok? <==> forall i :: 0 <= i < n ==> Flatten(d, Bases(d, path)[i], rank).Ok?
  {
    hide Flatten;
    if n == 0 {
    } else {
      LayersLoadIff(d, path, n - 1, rank);
    }
  }

  // ---------------------------------------------------------------- inheritance only tightens

  /** The rules of a loaded policy are exactly the own rules of the files it reaches. */
  lemma {:induction false} RulesAreThoseReached(d: Disk, path: string, r: Rule, rank: string -> nat)
    requires Acyclic(d, rank) && Flatten(d, path, rank).Ok?
    ensures r in Flatten(d, path, rank).value.rules <==> exists q :: Contributes(d, path, q, r, rank)
  {
    if r in Flatten(d, path, rank).value.rules {
      var q := LoadedRuleIsReached(d, path, r, rank);
    }
    if q :| Contributes(d, path, q, r, rank) {
      ReachedRuleIsLoaded(d, path, q, r, rank);
    }
  }

  lemma {:induction false} LoadedRuleIsReached(d: Disk, path: string, r: Rule, rank: string -> nat) returns (q: string)
    requires Acyclic(d, rank) && Flatten(d, path, rank).Ok? && r in Flatten(d, path, rank).value.rules
    ensures Contributes(d, path, q, r, rank)
    decreases rank(path)
  {
    var below := Below(d, path, rank);
    LoadedIsStack(d, path, rank);
    StackMembers(below, r);
    if r in OwnAt(d, path).value.rules {
      q := path;
    } else {
      var i :| 0 <= i < |below| && r in below[i].rules;
      q := LoadedRuleIsReached(d, Bases(d, path)[i], r, rank);
    }
  }

  lemma {:induction false} ReachedRuleIsLoaded(d: Disk, path: string, q: string, r: Rule, rank: string -> nat)
    requires Acyclic(d, rank) && Flatten(d, path, rank).Ok? && Contributes(d, path, q, r, rank)
    ensures r in Flatten(d, path, rank).value.rules
    decreases rank(path)
  {
    var below := Below(d, path, rank);
    LoadedIsStack(d, path, rank);
    if q != path {
      var i :| 0 <= i < |Bases(d, path)| && Reaches(d, Bases(d, path)[i], q, rank);
      ReachedRuleIsLoaded(d, Bases(d, path)[i], q, r, rank);
      assert below[i] in below;
      StackMembers(below, r);
    }
  }

  ghost predicate Contributes(d: Disk, path: string, q: string, r: Rule, rank: string -> nat)
    requires Acyclic(d, rank)
  {
    Reaches(d, path, q, rank) && OwnAt(d, q).Ok? && r in OwnAt(d, q).value.rules
  }

  /** Whatever a policy adds, a matching deny rule anywhere among the files it reaches denies the request, and a
      matching approval rule at least demands approval. */
  lemma {:induction false} NoDescendantRelaxes(t: Text, d: Disk, path: string, q: string, r: Rule, req: Request,
          rank: string -> nat)
    requires Acyclic(d, rank) && Flatten(d, path, rank).Ok?
    requires Contributes(d, path, q, r, rank) && Matches(t, r, req)
    ensures r.action in DENIES ==> Evaluate(t, Flatten(d, path, rank).value, req) == Denied
    ensures r.action == RequireApproval ==> Evaluate(t, Flatten(d, path, rank).value, req) in {ApprovalRequired, Denied}
  {
    var p := Flatten(d, path, rank).value;
    RulesAreThoseReached(d, path, r, rank);
    ExplainRefinesMeaning(t, p, req);
    if r.action in DENIES {
      assert Selected(t, r, DENIES, req);
    } else if r.action == RequireApproval {
      assert Selected(t, r, APPROVALS, req);
    }
  }

  /** And nothing else denies by rule: a deny rule decides exactly when one of the files reached has it. */
  lemma {:induction false} DeniedByRuleIff(t: Text, d: Disk, path: string, req: Request, rank: string -> nat)
    requires Acyclic(d, rank) && Flatten(d, path, rank).Ok?
    ensures Explain(t, Flatten(d, path, rank).value, req).section == DenySection
            <==> exists q, r :: Contributes(d, path, q, r, rank) && r.action in DENIES && Matches(t, r, req)
  {
    var p := Flatten(d, path, rank).value;
    ExplainRefinesMeaning(t, p, req);
    if AnyMatch(t, p.rules, DENIES, req) {
      var r :| r in p.rules && Selected(t, r, DENIES, req);
      RulesAreThoseReached(d, path, r, rank);
    }
    if q, r :| Contributes(d, path, q, r, rank) && r.action in DENIES && Matches(t, r, req) {
      NoDescendantRelaxes(t, d, path, q, r, req, rank);
      RulesAreThoseReached(d, path, r, rank);
      assert Selected(t, r, DENIES, req);
    }
  }

  // ---------------------------------------------------------------- what is permitted

  const FORBIDS: set<Action> := DENIES + APPROVALS

  /** A file that `path` reaches has a matching rule with one of the actions. */
  ghost predicate ReachedMatch(t: Text, d: Disk, path: string, actions: set<Action>, req: Request, rank: string -> nat)
    requires Acyclic(d, rank)
  {
    exists q, r :: Contributes(d, path, q, r, rank) && Selected(t, r, actions, req)
  }

  lemma {:induction false} ReachedMatchIff(t: Text, d: Disk, path: string, actions: set<Action>, req: Request,
          rank: string -> nat)
    requires Acyclic(d, rank) && Flatten(d, path, rank).Ok?
    ensures ReachedMatch(t, d, path, actions, req, rank)
            <==> AnyMatch(t, Flatten(d, path, rank).value.rules, actions, req)
  {
    var rules := Flatten(d, path, rank).value.rules;
    if ReachedMatch(t, d, path, actions, req, rank) {
      var q, r :| Contributes(d, path, q, r, rank) && Selected(t, r, actions, req);
      RulesAreThoseReached(d, path, r, rank);
    }
    if AnyMatch(t, rules, actions, req) {
      var r :| r in rules && Selected(t, r, actions, req);
      RulesAreThoseReached(d, path, r, rank);
    }
  }

  /** What a loaded policy says about the level: its own file, else the last base that mentions it. */
  ghost function LevelSaid(d: Disk, path: string, level: string, rank: string -> nat): Option<Action>
    requires Acyclic(d, rank) && Flatten(d, path, rank).Ok?
  {
    if Level(OwnAt(d, path).value, level).Some? then Level(OwnAt(d, path).value, level)
    else LastSaid(Below(d, path, rank), level)
  }

  /** And about the level of the request, if it has one. */
  ghost function RiskSaid(d: Disk, path: string, req: Request, rank: string -> nat): Option<Action>
    requires Acyclic(d, rank) && Flatten(d, path, rank).Ok?
  {
    var level := Get(req.context, "risk_level");
    if level.JStr? then LevelSaid(d, path, level.s, rank) else None
  }

  lemma {:induction false} RiskSaidIsRiskAction(d: Disk, path: string, req: Request, rank: string -> nat)
    requires Acyclic(d, rank) && Flatten(d, path, rank).Ok?
    ensures RiskSaid(d, path, req, rank) == RiskAction(Flatten(d, path, rank).value, req)
  {
    var level := Get(req.context, "risk_level");
    if level.JStr? {
      RiskLevelsOverride(d, path, level.s, rank);
    }
  }

  /** A permission of a policy: no rule forbids, and the risk level warns, or does not restrict and a rule permits. */
  lemma PermitsIff(t: Text, p: PolicyRules, req: Request)
    ensures Permits(Evaluate(t, p, req)) <==>
      && !AnyMatch(t, p.rules, FORBIDS, req)
      && (RiskAction(p, req) == Some(Warn)
          || ((RiskAction(p, req) == None || RiskAction(p, req) == Some(Allow)) && AnyMatch(t, p.rules, PERMITS, req)))
  {
    ExplainRefinesMeaning(t, p, req);
    SomePermitIffAny(t, p.rules, req);
    assert forall r :: Selected(t, r, FORBIDS, req) <==> Selected(t, r, DENIES, req) || Selected(t, r, APPROVALS, req);
  }

  /** What a loaded policy permits, told from the files it reaches: none of them has a matching rule that denies or
      demands approval, and the level of the request warns, or it is absent or allowed and one of them has a matching
      rule that permits. */
  lemma {:induction false} PermittedIff(t: Text, d: Disk, path: string, req: Request, rank: string -> nat)
    requires Acyclic(d, rank) && Flatten(d, path, rank).Ok?
    ensures var said := RiskSaid(d, path, req, rank);
      Permits(Evaluate(t, Flatten(d, path, rank).value, req)) <==>
        && !ReachedMatch(t, d, path, FORBIDS, req, rank)
        && (|| said == Some(Warn)
            || ((said == None || said == Some(Allow)) && ReachedMatch(t, d, path, PERMITS, req, rank)))
  {
    PermitsIff(t, Flatten(d, path, rank).value, req);
    ReachedMatchIff(t, d, path, FORBIDS, req, rank);
    ReachedMatchIff(t, d, path, PERMITS, req, rank);
    RiskSaidIsRiskAction(d, path, req, rank);
  }

  // ---------------------------------------------------------------- when a level is relaxed

  lemma {:induction false} LastSaidSplits(a: seq<PolicyRules>, b: seq<PolicyRules>, level: string)
    ensures LastSaid(a + b, level) == if LastSaid(b, level).Some? then LastSaid(b, level) else LastSaid(a, level)
  {
    if b == [] {
      assert a + b == a;
    } else {
      var n := |b| - 1;
      LastSaidSplits(a, b[..n], level);
      assert (a + b)[..|a| + n] == a + b[..n];
    }
  }

  /** What the own file says about the level of the request, else the last of the bases behind base `i`. */
  ghost function SaidAfter(d: Disk, path: string, i: nat, req: Request, rank: string -> nat): Option<Action>
    requires Acyclic(d, rank) && Flatten(d, path, rank).Ok? && i < |Below(d, path, rank)|
  {
    var level := Get(req.context, "risk_level");
    if !level.JStr? then None
    else if Level(OwnAt(d, path).value, level.s).Some? then Level(OwnAt(d, path).value, level.s)
    else LastSaid(Below(d, path, rank)[i + 1..], level.s)
  }

  /** The risk level of the request stops it at this policy. */
  predicate LevelStops(p: PolicyRules, req: Request)
  {
    RiskAction(p, req).Some? && RiskAction(p, req).value in FORBIDS
  }

  /** A request that the risk level of a base stops is permitted by the policy on top of it if and only if no file
      reached forbids it by rule, and the own file, or else the last later base to mention the level, says that it
      warns, or that it is allowed where a file reached has a matching rule that permits. */
  lemma {:induction false} RelaxedIff(t: Text, d: Disk, path: string, i: nat, req: Request, rank: string -> nat)
    requires Acyclic(d, rank) && Flatten(d, path, rank).Ok? && i < |Below(d, path, rank)|
    requires LevelStops(Below(d, path, rank)[i], req)
    ensures var said := SaidAfter(d, path, i, req, rank);
      Permits(Evaluate(t, Flatten(d, path, rank).value, req)) <==>
        && !ReachedMatch(t, d, path, FORBIDS, req, rank)
        && (said == Some(Warn) || (said == Some(Allow) && ReachedMatch(t, d, path, PERMITS, req, rank)))
    ensures !Permits(Evaluate(t, Below(d, path, rank)[i], req))
  {
    hide ReachedMatch, RiskSaid, SaidAfter, Evaluate;
    PermittedIff(t, d, path, req, rank);
    PermitsIff(t, Below(d, path, rank)[i], req);
    SaidSplits(d, path, i, req, rank);
  }

  lemma {:induction false} SaidSplits(d: Disk, path: string, i: nat, req: Request, rank: string -> nat)
    requires Acyclic(d, rank) && Flatten(d, path, rank).Ok? && i < |Below(d, path, rank)|
    requires RiskAction(Below(d, path, rank)[i], req).Some?
    ensures RiskSaid(d, path, req, rank)
            == if SaidAfter(d, path, i, req, rank).Some? then SaidAfter(d, path, i, req, rank)
               else RiskAction(Below(d, path, rank)[i], req)
  {
    LaterMentionDecides(Below(d, path, rank), i, Get(req.context, "risk_level").s);
  }

  lemma {:induction false} LaterMentionDecides(ps: seq<PolicyRules>, i: nat, level: string)
    requires i < |ps| && Level(ps[i], level).Some?
    ensures LastSaid(ps, level) == if LastSaid(ps[i + 1..], level).Some? then LastSaid(ps[i + 1..], level)
            else Level(ps[i], level)
  {
    assert ps == ps[..i + 1] + ps[i + 1..];
    LastSaidSplits(ps[..i + 1], ps[i + 1..], level);
  }

  /** A file that says one thing about one level. */
  function LevelFile(level: string, action: string, bases: seq<string>): RawPolicy
  {
    EMPTY_POLICY.(riskLevels := Listed([RawLevel(level, Some(action))]), bases := bases)
  }

  /** A base that denies a level, and a file on top of it that warns about it. */
  function TwoFiles(level: string): Disk
  {
    Disk(map["/base" := Document(LevelFile(level, "deny", [])),
        "/child" := Document(LevelFile(level, "warn", ["/base"]))], [])
  }

  const DEPTH: string -> nat := path => if path == "/child" then 1 else 0

  lemma LevelFileLoads(level: string, action: string, bases: seq<string>)
    requires ActionNamed(action).Some?
    ensures Own(LevelFile(level, action, bases)) == Ok(PolicyRules([], map[level := ActionNamed(action).value]))
  {
    var levels := [RawLevel(level, Some(action))];
    assert ValidLevel(levels[0]) && levels[..0] == [];
    assert ParsedLevels(levels) == map[level := ActionNamed(action).value];
    assert ParsedRules(LevelFile(level, action, bases)) == [];
  }

  lemma TwoFilesLoad(level: string)
    ensures var d := TwoFiles(level);
      && Acyclic(d, DEPTH) && Bases(d, "/base") == [] && Bases(d, "/child") == ["/base"]
      && OwnAt(d, "/base") == Ok(PolicyRules([], map[level := Deny]))
      && OwnAt(d, "/child") == Ok(PolicyRules([], map[level := Warn]))
  {
    hide Own;
    assert forall path :: Locate(TwoFiles(level), path) == path;
    LevelFileLoads(level, "deny", []);
    LevelFileLoads(level, "warn", ["/base"]);
  }

  /** So risk levels, unlike rules, can be relaxed: of these two files the base denies the request by its level and
      the one that extends it permits it. */
  lemma RiskLevelsCanBeRelaxed(t: Text, req: Request)
    requires Get(req.context, "risk_level").JStr?
    ensures var d := TwoFiles(Get(req.context, "risk_level").s);
      && Acyclic(d, DEPTH) && Flatten(d, "/base", DEPTH).Ok? && Flatten(d, "/child", DEPTH).Ok?
      && Evaluate(t, Flatten(d, "/base", DEPTH).value, req) == Denied
      && Evaluate(t, Flatten(d, "/child", DEPTH).value, req) == Warned
  {
    var level := Get(req.context, "risk_level").s;
    TwoFilesLoad(level);
    ExtendsOne(TwoFiles(level), "/child", "/base", DEPTH);
    LevelDecides(t, OwnAt(TwoFiles(level), "/base").value, req);
    LevelDecides(t, Flatten(TwoFiles(level), "/child", DEPTH).value, req);
  }

  lemma {:induction false} ExtendsOne(d: Disk, path: string, base: string, rank: string -> nat)
    requires Acyclic(d, rank) && Bases(d, path) == [base] && Bases(d, base) == []
    requires OwnAt(d, path).Ok? && OwnAt(d, base).Ok?
    ensures Flatten(d, base, rank) == OwnAt(d, base)
    ensures Flatten(d, path, rank) == Ok(Merged(Merged(NOTHING, OwnAt(d, base).value), OwnAt(d, path).value))
  {
    assert Layers(d, path, 0, rank) == Ok(NOTHING);
    assert Layers(d, path, 1, rank) == Ok(Merged(NOTHING, OwnAt(d, base).value));
  }

  lemma LevelDecides(t: Text, p: PolicyRules, req: Request)
    requires p.rules == [] && RiskAction(p, req).Some? && RiskAction(p, req).value != Allow
    ensures Evaluate(t, p, req) == RiskRuling(RiskAction(p, req).value)
  {
    ExplainRefinesMeaning(t, p, req);
  }
}
