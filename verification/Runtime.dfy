/** The action runtime of capfence/core/runtime.py:149-292: one event, one verdict, one audit row. */
module Runtime {
  import opened Json
  import opened Events
  import opened Capabilities
  import opened Policy
  import CapabilitySystem
  import opened Approvals
  import opened Audit
  import opened AuditRuns

  /** The primitives the gate is built on, and the operator secret. */
  datatype World = World(text: Text, mac: Mac, crypto: Crypto, secret: string)

  /** What decides a capability: a policy, or without one the plain lists. */
  datatype Rulebook = Rulebook(policy: Option<PolicyRules>, lists: CapabilitySystem.Lists)

  /** The state that events act on. */
  datatype State = State(store: Store, log: Table)

  // ---------------------------------------------------------------- reading an event

  /** The capability an event needs: the exact one its metadata names, else resource.action.scope. */
  function RequiredCapability(e: ActionEvent): string
  {
    var named, scope := Get(e.metadata, "capability"), Get(e.metadata, "scope");
    if named.JStr? then named.s
    else e.resource + "." + e.action + "." + (if NonEmptyString(scope) then scope.s else e.environment)
  }

  /** The level rules see, in lower case: the event's own if it is a text, else the one in the metadata. */
  function ContextRisk(t: Text, e: ActionEvent): Json
  {
    var level := if e.risk.JStr? then e.risk else Get(e.metadata, "risk_level");
    if level.JNull? then JNull else JStr(Lower(Str(t, level)))
  }

  function ContextOf(t: Text, e: ActionEvent): Dict
  {
    e.metadata + [("actor", JStr(e.actor)), ("action", JStr(e.action)), ("resource", JStr(e.resource)),
                  ("environment", JStr(e.environment)), ("risk_level", ContextRisk(t, e))]
  }

  function PolicyPayload(e: ActionEvent): Dict
  {
    var p := Get(e.metadata, "payload");
    if p.JObj? then p.members else []
  }

  /** The payload an approval is about: the event's own unless it is missing or empty, then all of its metadata. */
  function ApprovalPayload(e: ActionEvent): Dict
  {
    if PolicyPayload(e) != [] then PolicyPayload(e) else e.metadata
  }

  function SessionOf(e: ActionEvent): Option<string>
  {
    var s := Get(e.metadata, "session_id");
    if s.JStr? then Some(s.s) else None
  }

  function PolicyRequest(t: Text, e: ActionEvent): Request
  {
    Request(RequiredCapability(e), ContextOf(t, e), PolicyPayload(e))
  }

  function AskOf(e: ActionEvent): Ask
  {
    Ask(e.actor, RequiredCapability(e), e.environment, SessionOf(e))
  }

  /** An event that names no capability needs the one with its resource, its action, and its scope or else its
      environment as parts. */
  lemma NeedsItsOwnParts(e: ActionEvent, scope: string)
    requires Get(e.metadata, "capability") == JNull
    requires if NonEmptyString(Get(e.metadata, "scope")) then Get(e.metadata, "scope") == JStr(scope)
      else scope == e.environment
    requires NoDot(e.resource) && NoDot(e.action)
    requires AllValid(e.resource) && AllValid(e.action) && AllValid(scope)
    ensures Parse(RequiredCapability(e)) == Some(Capability(e.resource, e.action, scope))
  {
    ParseThree(e.resource, e.action, scope);
  }

  // ---------------------------------------------------------------- what rules see of an event

  lemma {:induction false} ContextLookup(t: Text, e: ActionEvent, k: string)
    ensures Get(ContextOf(t, e), k) ==
      if k == "risk_level" then ContextRisk(t, e)
      else if k == "environment" then JStr(e.environment)
      else if k == "resource" then JStr(e.resource)
      else if k == "action" then JStr(e.action)
      else if k == "actor" then JStr(e.actor)
      else Get(e.metadata, k)
  {
    hide Get, ContextRisk;
    var c1 := Put(e.metadata, "actor", JStr(e.actor));
    var c2 := Put(c1, "action", JStr(e.action));
    var c3 := Put(c2, "resource", JStr(e.resource));
    var c4 := Put(c3, "environment", JStr(e.environment));
    FiveMore(e.metadata, ("actor", JStr(e.actor)), ("action", JStr(e.action)), ("resource", JStr(e.resource)),
      ("environment", JStr(e.environment)), ("risk_level", ContextRisk(t, e)));
    GetAppended(e.metadata, "actor", JStr(e.actor), k);
    GetAppended(c1, "action", JStr(e.action), k);
    GetAppended(c2, "resource", JStr(e.resource), k);
    GetAppended(c3, "environment", JStr(e.environment), k);
    GetAppended(c4, "risk_level", ContextRisk(t, e), k);
  }

  lemma FiveMore<T>(s: seq<T>, a: T, b: T, c: T, d: T, e: T)
    ensures s + [a, b, c, d, e] == s + [a] + [b] + [c] + [d] + [e]
  {
  }

  /** The level an event names: its risk if that is a text, else the one in its metadata. */
  function LevelNamed(e: ActionEvent): Option<string>
  {
    if e.risk.JStr? then Some(e.risk.s)
    else match Get(e.metadata, "risk_level") case JStr(s) => Some(s) case _ => None
  }

  /** The event names this level, in whatever case of letters; here it is written without capitals. */
  predicate NamesLevel(e: ActionEvent, level: string)
  {
    LevelNamed(e).Some? && SameLetters(LevelNamed(e).value, level) && NoCapitals(level)
  }

  /** The action of `risk_levels` for an event is that of the entry for the level that it names, in whatever case; an
      entry written with capitals is never found. */
  lemma RiskEntryOfEvent(t: Text, p: PolicyRules, e: ActionEvent, a: Action)
    requires ValidEvent(e)
    ensures RiskAction(p, PolicyRequest(t, e)) == Some(a)
            <==> exists level :: level in p.riskLevels && NamesLevel(e, level) && p.riskLevels[level] == a
  {
    ContextLookup(t, e, "risk_level");
    CheckedLookup(e.metadata, "risk_level");
    if LevelNamed(e).Some? {
      forall level
        ensures NamesLevel(e, level) <==> level == Lower(LevelNamed(e).value)
      {
        LowerIsTheOneWithoutCapitals(LevelNamed(e).value, level);
      }
    }
  }

  /** Without the entries that are written with capitals. */
  function WithoutCapitals(p: PolicyRules): PolicyRules
  {
    p.(riskLevels := map level | level in p.riskLevels && NoCapitals(level) :: p.riskLevels[level])
  }

  /** Entries of `risk_levels` that are written with capitals decide nothing for any event. */
  lemma CapitalLevelsDecideNothing(t: Text, p: PolicyRules, e: ActionEvent)
    requires ValidEvent(e)
    ensures Explain(t, p, PolicyRequest(t, e)) == Explain(t, WithoutCapitals(p), PolicyRequest(t, e))
  {
    var q := PolicyRequest(t, e);
    ContextLookup(t, e, "risk_level");
    CheckedLookup(e.metadata, "risk_level");
    if Get(q.context, "risk_level").JStr? {
      LowerIsTheOneWithoutCapitals(LevelNamed(e).value, Lower(LevelNamed(e).value));
    }
    assert RiskAction(p, q) == RiskAction(WithoutCapitals(p), q);
  }

  /** What the policy is asked about an event: its capability, and its payload if the metadata has one. A condition on
      one value reads the payload, and besides it the event's own environment or the tool name in the metadata. A user
      role, a tenant or a table is read in the payload alone, since checked metadata cannot give one. */
  lemma ConditionsReadEvent(t: Text, e: ActionEvent, v: Json)
    requires ValidEvent(e) && v != JNull
    ensures PolicyRequest(t, e).capability == RequiredCapability(e)
    ensures PolicyRequest(t, e).payload == match Get(e.metadata, "payload") case JObj(given) => given case _ => []
    ensures var context, payload := PolicyRequest(t, e).context, PolicyRequest(t, e).payload;
      && (Holds(t, Direct(Environment, v), context, payload)
          <==> ValueMatches(t, JStr(e.environment), v) || ValueMatches(t, Get(payload, "environment"), v))
      && (Holds(t, Direct(ToolName, v), context, payload)
          <==> ValueMatches(t, Get(e.metadata, "tool_name"), v) || ValueMatches(t, Get(payload, "tool_name"), v))
      && (Holds(t, Direct(UserRole, v), context, payload) <==> ValueMatches(t, Get(payload, "user_role"), v))
      && (Holds(t, Direct(Tenant, v), context, payload) <==> ValueMatches(t, Get(payload, "tenant"), v))
      && (Holds(t, Direct(TableName, v), context, payload) <==> ValueMatches(t, Get(payload, "table"), v))
  {
    hide ValueMatches, ValidMetadata, RequiredCapability, ContextOf, Get;
    NullMeetsNothingElse(t, v);
    ContextLookup(t, e, "environment");
    ContextLookup(t, e, "tool_name");
    ContextLookup(t, e, "user_role");
    ContextLookup(t, e, "tenant");
    ContextLookup(t, e, "table");
    NotInMetadata(e, "user_role");
    NotInMetadata(e, "tenant");
    NotInMetadata(e, "table");
  }

  /** A condition on the risk level reads the level that the event names, without capitals, or the payload. */
  lemma LevelConditionReadsEvent(t: Text, e: ActionEvent, v: Json)
    requires ValidEvent(e) && v != JNull
    ensures Holds(t, Direct(RiskLevel, v), PolicyRequest(t, e).context, PolicyRequest(t, e).payload)
            <==> || ValueMatches(t, Get(PolicyRequest(t, e).payload, "risk_level"), v)
                 || exists named :: NamesLevel(e, named) && ValueMatches(t, JStr(named), v)
  {
    hide ValueMatches, ValidMetadata, Lower, ContextOf, Get;
    NullMeetsNothingElse(t, v);
    ContextLookup(t, e, "risk_level");
    CheckedLookup(e.metadata, "risk_level");
    if LevelNamed(e).Some? {
      forall named
        ensures NamesLevel(e, named) <==> named == Lower(LevelNamed(e).value)
      {
        LowerIsTheOneWithoutCapitals(LevelNamed(e).value, named);
      }
    }
  }

  lemma NullMeetsNothingElse(t: Text, v: Json)
    requires v != JNull
    ensures !ValueMatches(t, JNull, v)
  {
  }

  /** Checked metadata has no keys but the allowed ones. */
  lemma {:induction false} NotInMetadata(e: ActionEvent, k: string)
    requires ValidEvent(e) && k !in METADATA_KEYS
    ensures Get(e.metadata, k) == JNull
  {
    CheckedLookup(e.metadata, k);
  }

  // ---------------------------------------------------------------- deciding

  function RulingOf(w: World, b: Rulebook, e: ActionEvent): Result<Ruling>
  {
    CapabilitySystem.Answer(w.text, b.policy, b.lists, PolicyRequest(w.text, e))
  }

  /** The ruling sends the event to the approval engine. */
  predicate Gated(w: World, b: Rulebook, e: ActionEvent)
  {
    && RulingOf(w, b, e).Ok?
    && (RulingOf(w, b, e).value == ApprovalRequired
        || (RulingOf(w, b, e).value == DefaultDenied && Truthy(Get(e.metadata, "require_approval"))))
  }

  datatype Outcome = Outcome(authorized: bool, decision: Decision, reason: string, approvalId: Option<nat>)

  function GatedOutcome(w: World, s: Store, e: ActionEvent, now: real): Result<Outcome>
  {
    match CheckGrants(w.mac, w.secret, s.grants, AskOf(e), now)
    case BadCapability(text) => Raised(InvalidCapability(text))
    case Found(g) => Ok(Outcome(true, Permit, "approved_grant:" + w.text.idText(g.id) + ":" + g.grantedBy, Some(g.id)))
    case NotFound =>
      if HasApproved(s.requests, e.actor, e.action, ApprovalPayload(e)) then Ok(Outcome(true, Permit,
          "previously_approved", None))
      else Ok(Outcome(false, Hold, "approval_required:" + w.text.idText(s.nextId), Some(s.nextId)))
  }

  function Decide(w: World, b: Rulebook, s: Store, e: ActionEvent, now: real): Result<Outcome>
  {
    match RulingOf(w, b, e)
    case Raised(x) => Raised(x)
    case Ok(ruling) =>
      if ruling == Allowed then Ok(Outcome(true, Permit, "policy_allow", None))
      else if ruling == Warned then Ok(Outcome(true, Permit, "policy_warn", None))
      else if ruling == Denied then Ok(Outcome(false, Refuse, "policy_deny", None))
      else if Gated(w, b, e) then GatedOutcome(w, s, e, now)
      else Ok(Outcome(false, Refuse, "policy_default_deny", None))
  }

  /** The request that a held event leaves in the queue. */
  function Queued(w: World, s: Store, e: ActionEvent, now: real): ApprovalRequest
  {
    NewRequest(s.nextId, e.actor, e.action, RequiredCapability(e), ApprovalPayload(e),
               "Action Runtime enforce: require_approval for " + RequiredCapability(e), EXPIRES_IN, now)
  }

  function StoreAfter(w: World, s: Store, o: Outcome, e: ActionEvent, now: real): Store
  {
    if o.decision == Hold then s.(requests := s.requests + [Queued(w, s, e, now)], nextId := s.nextId + 1) else s
  }

  function VerdictFor(o: Outcome, e: ActionEvent, now: real, latency: int, observe: bool): Verdict
  {
    Verdict(o.authorized || observe, o.decision,
            if observe then "observed: would_have_blocked_due_to_" + o.reason else o.reason,
            e, now, o.approvalId, latency, RequiredCapability(e), observe)
  }

  /** Two events that differ only in the case of the letters of their risk get the same ruling and the same decision. */
  lemma RiskCaseIgnored(w: World, b: Rulebook, s: Store, e: ActionEvent, risk: string, now: real)
    requires e.risk.JStr? && SameLetters(e.risk.s, risk)
    ensures RulingOf(w, b, e.(risk := JStr(risk))) == RulingOf(w, b, e)
    ensures Decide(w, b, s, e.(risk := JStr(risk)), now) == Decide(w, b, s, e, now)
  {
    hide CapabilitySystem.Answer;
    SameLettersFoldAlike(e.risk.s, risk);
  }

  /** One execution: a verdict and the state after it, or an exception and no change. */
  function Executed(w: World, keys: Option<Keypair>, b: Rulebook, observe: bool, s: State, e: ActionEvent, now: real,
          latency: int): (Result<Verdict>, State)
  {
    match Decide(w, b, s.store, e, now)
    case Raised(x) => (Raised(x), s)
    case Ok(o) =>
      var v := VerdictFor(o, e, now, latency, observe);
      (Ok(v), State(StoreAfter(w, s.store, o, e, now), Step(w.text, w.crypto, s.log, Record(keys, v))))
  }

  /** The verdict carries the decision, and the store shows it; an exception leaves everything as it was. */
  lemma ExecutionDecides(w: World, keys: Option<Keypair>, b: Rulebook, observe: bool, s: State, e: ActionEvent,
          now: real, latency: int)
    ensures var o := Decide(w, b, s.store, e, now);
      var (r, after) := Executed(w, keys, b, observe, s, e, now, latency);
      match o
      case Raised(x) => r == Raised(x) && after == s
      case Ok(outcome) =>
        && r == Ok(VerdictFor(outcome, e, now, latency, observe))
        && after.store == StoreAfter(w, s.store, outcome, e, now)
        && r.value.event == e && r.value.timestamp == now && r.value.latencyMs == latency
        && r.value.decision == outcome.decision && r.value.approvalId == outcome.approvalId
        && r.value.requiredCapability == RequiredCapability(e) && r.value.observeMode == observe
  {
    hide Decide, StoreAfter, Step;
  }

  /** Observe mode decides the same, queues the same and raises the same; it only lets everything pass and says so. */
  lemma ObserveOnlyLetsPass(w: World, keys: Option<Keypair>, b: Rulebook, s: State, e: ActionEvent, now: real,
          latency: int)
    ensures var (enforced, store) := Executed(w, keys, b, false, s, e, now, latency);
      var (observed, after) := Executed(w, keys, b, true, s, e, now, latency);
      && after.store == store.store && (observed.Raised? ==> observed == enforced && after == store)
      && (observed.Ok? ==>
            && enforced.Ok? && observed.value.authorized && observed.value.decision == enforced.value.decision
            && observed.value.reason == "observed: would_have_blocked_due_to_" + enforced.value.reason
            && observed.value.approvalId == enforced.value.approvalId)
  {
    hide Decide, StoreAfter, Step;
  }

  class ActionRuntime {
    const world: World
    const caps: CapabilitySystem.CapabilitySystem
    const approvals: ApprovalManager
    const audit: AuditLogger
    const observe: bool

    constructor (world: World, caps: CapabilitySystem.CapabilitySystem, approvals: ApprovalManager,
            audit: AuditLogger, observe: bool)
      ensures this.world == world && this.caps == caps && this.approvals == approvals && this.audit == audit
      ensures this.observe == observe
    {
      this.world, this.caps, this.approvals, this.audit, this.observe := world, caps, approvals, audit, observe;
    }

    ghost predicate Valid()
      reads approvals
    {
      && caps.text == world.text && approvals.mac == world.mac
      && audit.text == world.text && audit.crypto == world.crypto
      && approvals.Valid()
    }

    function Rules(): Rulebook
      reads caps
    {
      Rulebook(caps.policy, caps.Contents())
    }

    function Now(): State
      reads approvals, audit
    {
      State(approvals.Contents(), Table(audit.rows, audit.nextId))
    }

    method Execute(e: ActionEvent, now: real, latency: int) returns (r: Result<Verdict>)
      requires Valid()
      modifies approvals, audit
      ensures Valid()
      ensures (r, Now()) == Executed(world, audit.keys, old(Rules()), observe, old(Now()), e, now, latency)
    {
      ghost var was := Now();
      var outcome := Authorize(e, now);
      if outcome.Raised? {
        return Raised(outcome.error);
      }
      var verdict := VerdictFor(outcome.value, e, now, latency, observe);
      audit.RecordEvent(verdict);
      assert Now().log == Step(world.text, world.crypto, was.log, Record(audit.keys, verdict));
      return Ok(verdict);
    }

    /** The decision of `execute`, before observe mode and the audit trail. */
    method Authorize(e: ActionEvent, now: real) returns (r: Result<Outcome>)
      requires Valid()
      modifies approvals
      ensures Valid()
      ensures r == Decide(world, old(Rules()), old(approvals.Contents()), e, now)
      ensures approvals.Contents()
              == if r.Ok? then StoreAfter(world, old(approvals.Contents()), r.value, e, now)
                      else old(approvals.Contents())
    {
      var ruling := caps.EvaluateCapability(PolicyRequest(world.text, e));
      if ruling.Raised? {
        return Raised(ruling.error);
      }
      if ruling.value == Allowed || ruling.value == Warned {
        return Ok(Outcome(true, Permit, if ruling.value == Warned then "policy_warn" else "policy_allow", None));
      } else if ruling.value == Denied {
        return Ok(Outcome(false, Refuse, "policy_deny", None));
      } else if ruling.value == ApprovalRequired || Truthy(Get(e.metadata, "require_approval")) {
        r := SeekApproval(e, now);
      } else {
        return Ok(Outcome(false, Refuse, "policy_default_deny", None));
      }
    }

    /** The approval branch of `execute`: a live grant, else an approved request, else a new pending request. */
    method SeekApproval(e: ActionEvent, now: real) returns (r: Result<Outcome>)
      requires Valid()
      modifies approvals
      ensures Valid()
      ensures r == GatedOutcome(world, old(approvals.Contents()), e, now)
      ensures approvals.Contents()
              == if r.Ok? then StoreAfter(world, old(approvals.Contents()), r.value, e, now)
                      else old(approvals.Contents())
    {
      var requiredCap := RequiredCapability(e);
      var check := approvals.CheckApproval(world.secret, AskOf(e), now);
      if check.BadCapability? {
        return Raised(InvalidCapability(check.text));
      }
      if check.Found? {
        var why := "approved_grant:" + world.text.idText(check.grant.id) + ":" + check.grant.grantedBy;
        return Ok(Outcome(true, Permit, why, Some(check.grant.id)));
      }
      var payload := ApprovalPayload(e);
      var approved := approvals.HasApprovedRequest(e.actor, e.action, payload);
      if approved {
        return Ok(Outcome(true, Permit, "previously_approved", None));
      }
      var why := "Action Runtime enforce: require_approval for " + requiredCap;
      var req := approvals.RequestApproval(e.actor, e.action, requiredCap, payload, why, EXPIRES_IN, now);
      return Ok(Outcome(false, Hold, "approval_required:" + world.text.idText(req.id), Some(req.id)));
    }
  }
}
