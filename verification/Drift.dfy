/** When replaying a recorded run reports no drift. A live enforce-mode run is recorded as one trace entry per
    completed execution: the event, and whether it passed. */
module Drift {
  import opened Json
  import opened Events
  import opened Capabilities
  import opened Policy
  import opened Approvals
  import CapabilitySystem
  import opened Runtime
  import opened SystemRuns
  import opened Replay
  import opened ReplayFacts

  function Passed(authorized: bool): string
  {
    if authorized then "pass" else "fail"
  }

  /** The trace entry of an event and its outcome. */
  function Annotate(e: ActionEvent, authorized: bool): Dict
  {
    [("actor", JStr(e.actor)), ("action", JStr(e.action)), ("resource", JStr(e.resource)),
     ("environment", JStr(e.environment)), ("risk", e.risk), ("metadata", JObj(e.metadata)),
     ("decision", JStr(Passed(authorized)))]
  }

  /** The event that replay makes of the entry: a risk that counts as false becomes "low", and the recorded outcome
      joins the metadata. */
  function Replayed(e: ActionEvent, authorized: bool): ActionEvent
  {
    e.(risk := if Truthy(e.risk) then e.risk else JStr("low"),
       metadata := Put(e.metadata, "decision", JStr(Passed(authorized))))
  }

  // ---------------------------------------------------------------- reading the entry back

  /** The entry, built up one member at a time. */
  lemma EntryBuilt(e: ActionEvent, authorized: bool)
    ensures var raw := Annotate(e, authorized);
      && raw[..1] == Put([], "actor", JStr(e.actor)) && raw[..2] == Put(raw[..1], "action", JStr(e.action))
      && raw[..3] == Put(raw[..2], "resource", JStr(e.resource))
      && raw[..4] == Put(raw[..3], "environment", JStr(e.environment))
      && raw[..5] == Put(raw[..4], "risk", e.risk) && raw[..6] == Put(raw[..5], "metadata", JObj(e.metadata))
      && raw == Put(raw[..6], "decision", JStr(Passed(authorized)))
  {
  }

  lemma {:induction false} EntryLookup(e: ActionEvent, authorized: bool, k: string)
    ensures Get(Annotate(e, authorized), k) ==
      if k == "decision" then JStr(Passed(authorized))
      else if k == "metadata" then JObj(e.metadata)
      else if k == "risk" then e.risk
      else if k == "environment" then JStr(e.environment)
      else if k == "resource" then JStr(e.resource)
      else if k == "action" then JStr(e.action)
      else if k == "actor" then JStr(e.actor)
      else JNull
  {
    var raw := Annotate(e, authorized);
    EntryBuilt(e, authorized);
    GetAppended([], "actor", JStr(e.actor), k);
    GetAppended(raw[..1], "action", JStr(e.action), k);
    GetAppended(raw[..2], "resource", JStr(e.resource), k);
    GetAppended(raw[..3], "environment", JStr(e.environment), k);
    GetAppended(raw[..4], "risk", e.risk, k);
    GetAppended(raw[..5], "metadata", JObj(e.metadata), k);
    GetAppended(raw[..6], "decision", JStr(Passed(authorized)), k);
  }

  lemma {:induction false} OthersSnoc(raw: Dict, k: string, v: Json)
    ensures Others(Put(raw, k, v)) == Others(raw) + if k in RESERVED then [] else [(k, v)]
  {
    assert Put(raw, k, v)[..|raw|] == raw;
  }

  lemma OnlyDecisionIsKept(e: ActionEvent, authorized: bool)
    ensures Others(Annotate(e, authorized)) == [("decision", JStr(Passed(authorized)))]
  {
    var raw := Annotate(e, authorized);
    OthersSnoc(raw[..6], "decision", JStr(Passed(authorized)));
    OthersSnoc(raw[..5], "metadata", JObj(e.metadata));
    OthersSnoc(raw[..4], "risk", e.risk);
    OthersSnoc(raw[..3], "environment", JStr(e.environment));
    OthersSnoc(raw[..2], "resource", JStr(e.resource));
    OthersSnoc(raw[..1], "action", JStr(e.action));
    OthersSnoc([], "actor", JStr(e.actor));
    EntryBuilt(e, authorized);
  }

  lemma StillValid(d: Dict, text: string)
    requires ValidMetadata(d)
    ensures ValidMetadata(Put(d, "decision", JStr(text)))
  {
    var d' := Put(d, "decision", JStr(text));
    forall i | 0 <= i < |d'|
      ensures ValidMember(d'[i].0, Get(d', d'[i].0))
    {
      GetAppended(d, "decision", JStr(text), d'[i].0);
      if i < |d| {
        assert ValidMember(d[i].0, Get(d, d[i].0));
      }
    }
  }

  /** Parsing the entry of a valid event gives that event, as replayed. */
  lemma EntryParses(e: ActionEvent, authorized: bool)
    requires ValidEvent(e)
    ensures ParseEvent(Annotate(e, authorized)) == Ok(Replayed(e, authorized))
    ensures Original(Annotate(e, authorized)) == JStr(Passed(authorized))
  {
    hide Get, Annotate, Others;
    EntryLookup(e, authorized, "actor");
    EntryLookup(e, authorized, "action");
    EntryLookup(e, authorized, "resource");
    EntryLookup(e, authorized, "environment");
    EntryLookup(e, authorized, "risk");
    EntryLookup(e, authorized, "risk_score");
    EntryLookup(e, authorized, "metadata");
    EntryLookup(e, authorized, "decision");
    OnlyDecisionIsKept(e, authorized);
    StillValid(e.metadata, Passed(authorized));
    assert Lower("low") == "low";
    assert NormalRisk(JStr("low")) == Some(JStr("low"));
    assert [] + [("decision", JStr(Passed(authorized)))] == [("decision", JStr(Passed(authorized)))];
  }

  lemma OutcomeReadBack(authorized: bool, authorized': bool)
    ensures Differs(JStr(Passed(authorized)), authorized') <==> authorized' != authorized
  {
    assert Lower("pass") == "pass" && Lower("fail") == "fail";
  }

  // ---------------------------------------------------------------- what the replayed event keeps

  lemma {:induction false} SameLookups(e: ActionEvent, authorized: bool, k: string)
    requires k != "decision"
    ensures Get(Replayed(e, authorized).metadata, k) == Get(e.metadata, k)
  {
    GetAppended(e.metadata, "decision", JStr(Passed(authorized)), k);
  }

  /** The risk that rules see is the same on replay. A risk score of zero is the one kind of risk that may not be. */
  predicate RiskSurvives(t: Text, e: ActionEvent)
  {
    Truthy(e.risk) || ContextRisk(t, e) == JStr("low")
  }

  lemma SameContextRisk(t: Text, e: ActionEvent, authorized: bool)
    requires ValidEvent(e) && RiskSurvives(t, e)
    ensures ContextRisk(t, Replayed(e, authorized)) == ContextRisk(t, e)
  {
    SameLookups(e, authorized, "risk_level");
    assert Lower("low") == "low";
  }

  lemma SameQuestions(e: ActionEvent, authorized: bool)
    ensures var e' := Replayed(e, authorized);
      && RequiredCapability(e') == RequiredCapability(e) && PolicyPayload(e') == PolicyPayload(e)
      && AskOf(e') == AskOf(e) && Get(e'.metadata, "require_approval") == Get(e.metadata, "require_approval")
  {
    SameLookups(e, authorized, "capability");
    SameLookups(e, authorized, "scope");
    SameLookups(e, authorized, "payload");
    SameLookups(e, authorized, "session_id");
    SameLookups(e, authorized, "require_approval");
  }

  lemma SameRuling(w: World, b: Rulebook, e: ActionEvent, authorized: bool)
    requires ValidEvent(e) && RiskSurvives(w.text, e)
    ensures RulingOf(w, b, Replayed(e, authorized)) == RulingOf(w, b, e)
  {
    var e' := Replayed(e, authorized);
    SameQuestions(e, authorized);
    SameContextRisk(w.text, e, authorized);
    forall k | k in CONTEXT_KEYS
      ensures Get(ContextOf(w.text, e'), k) == Get(ContextOf(w.text, e), k)
    {
      ContextLookup(w.text, e, k);
      ContextLookup(w.text, e', k);
      SameLookups(e, authorized, k);
    }
    if b.policy.Some? {
      OtherContextKeysIgnored(w.text, b.policy.value, PolicyRequest(w.text, e), ContextOf(w.text, e'));
    }
  }

  // ---------------------------------------------------------------- one event

  /** Replaying the event on a store where it had an outcome does not give that outcome again. */
  predicate Drifts(w: World, b: Rulebook, s: Store, e: ActionEvent, now: real)
  {
    var o := Decide(w, b, s, e, now);
    o.Ok? && !(Decide(w, b, s, Replayed(e, o.value.authorized), now).Ok?
               && Decide(w, b, s, Replayed(e, o.value.authorized), now).value.authorized == o.value.authorized)
  }

  /** What a caller can check before recording: the risk is read back as it was, and the payload is not empty
      (unless the capability is malformed, when no approval is ever looked up). */
  predicate Faithful(t: Text, e: ActionEvent)
  {
    RiskSurvives(t, e) && (PolicyPayload(e) != [] || Parse(RequiredCapability(e)).None?)
  }

  lemma FaithfulNeverDrifts(w: World, b: Rulebook, s: Store, e: ActionEvent, now: real)
    requires ValidEvent(e) && Faithful(w.text, e)
    ensures !Drifts(w, b, s, e, now)
  {
    if Decide(w, b, s, e, now).Ok? {
      var authorized := Decide(w, b, s, e, now).value.authorized;
      SameRuling(w, b, e, authorized);
      SameQuestions(e, authorized);
      SameGatedOutcome(w, s, e, authorized, now);
      SameDecisionOf(w, b, s, e, Replayed(e, authorized), now);
    }
  }

  /** A decision is made from the ruling, the approval flag and the outcome of seeking approval. */
  lemma SameDecisionOf(w: World, b: Rulebook, s: Store, e: ActionEvent, e': ActionEvent, now: real)
    requires RulingOf(w, b, e') == RulingOf(w, b, e) && GatedOutcome(w, s, e', now) == GatedOutcome(w, s, e, now)
    requires Get(e'.metadata, "require_approval") == Get(e.metadata, "require_approval")
    ensures Decide(w, b, s, e', now) == Decide(w, b, s, e, now)
  {
    hide RulingOf, GatedOutcome;
  }

  lemma SameGatedOutcome(w: World, s: Store, e: ActionEvent, authorized: bool, now: real)
    requires PolicyPayload(e) != [] || Parse(RequiredCapability(e)).None?
    ensures GatedOutcome(w, s, Replayed(e, authorized), now) == GatedOutcome(w, s, e, now)
  {
    SameQuestions(e, authorized);
  }

  /** Rules under which a lost risk score shows: everything is allowed but what is rated low. */
  function LowRiskDenied(): Rulebook
  {
    Rulebook(Some(PolicyRules([Rule("*", Allow, [])], map["low" := Deny])), CapabilitySystem.NO_LISTS)
  }

  lemma LowRiskRuling(w: World, e: ActionEvent)
    ensures RulingOf(w, LowRiskDenied(), e) == Ok(if ContextRisk(w.text, e) == JStr("low") then Denied else Allowed)
  {
    var p := LowRiskDenied().policy.value;
    ContextLookup(w.text, e, "risk_level");
    StarMatches(RequiredCapability(e));
    assert Selected(w.text, p.rules[0], PERMITS, PolicyRequest(w.text, e));
  }

  lemma LostRiskDrifts(w: World, s: Store, e: ActionEvent, now: real)
    requires ValidEvent(e) && !RiskSurvives(w.text, e)
    ensures Drifts(w, LowRiskDenied(), s, e, now)
  {
    var e' := Replayed(e, true);
    assert Lower("low") == "low" && ContextRisk(w.text, e') == JStr("low");
    LowRiskRuling(w, e);
    LowRiskRuling(w, e');
  }

  /** Rules that send everything to approval, and a store in which one payload is approved. */
  function AllGated(): Rulebook
  {
    Rulebook(Some(PolicyRules([Rule("*", RequireApproval, [])], map[])), CapabilitySystem.NO_LISTS)
  }

  function WithApproved(e: ActionEvent, payload: Dict): Store
  {
    var asked := NewRequest(0, e.actor, e.action, RequiredCapability(e), payload, "", EXPIRES_IN, 0.0);
    Store([], [Resolved(asked, Approved, None, 0.0)], 1)
  }

  lemma GatedByPayload(w: World, e: ActionEvent, payload: Dict, now: real)
    requires Parse(RequiredCapability(e)).Some?
    ensures var o := Decide(w, AllGated(), WithApproved(e, payload), e, now);
      o.Ok? && (o.value.authorized <==> SameJson(payload, ApprovalPayload(e)))
  {
    var p := AllGated().policy.value;
    StarMatches(RequiredCapability(e));
    assert Selected(w.text, p.rules[0], APPROVALS, PolicyRequest(w.text, e));
    var s := WithApproved(e, payload);
    assert s.requests[0] in s.requests;
    assert HasApproved(s.requests, e.actor, e.action, ApprovalPayload(e)) <==> SameJson(payload, ApprovalPayload(e));
  }

  /** The metadata already records a block. */
  predicate RecordsBlock(e: ActionEvent)
  {
    var d := CanonDict(e.metadata, true);
    "decision" in d && d["decision"] == CStr("fail")
  }

  /** The payload to approve so that an event without one drifts. */
  function Tempting(e: ActionEvent): Dict
  {
    if RecordsBlock(e) then e.metadata else Put(e.metadata, "decision", JStr("fail"))
  }

  lemma {:induction false} CanonOfPut(d: Dict, k: string, v: Json)
    ensures CanonDict(Put(d, k, v), true) == CanonDict(d, true)[k := Canon(v, true)]
  {
    assert Put(d, k, v)[..|d|] == d;
  }

  lemma TemptingMatches(e: ActionEvent)
    ensures SameJson(Tempting(e), e.metadata) <==> RecordsBlock(e)
    ensures SameJson(Tempting(e), Put(e.metadata, "decision", JStr(Passed(RecordsBlock(e))))) <==> !RecordsBlock(e)
  {
    CanonOfPut(e.metadata, "decision", JStr("fail"));
    CanonOfPut(e.metadata, "decision", JStr("pass"));
  }

  lemma MissingPayloadDrifts(w: World, e: ActionEvent, now: real)
    requires ValidEvent(e) && PolicyPayload(e) == [] && Parse(RequiredCapability(e)).Some?
    ensures Drifts(w, AllGated(), WithApproved(e, Tempting(e)), e, now)
  {
    var e' := Replayed(e, RecordsBlock(e));
    TemptingMatches(e);
    SameQuestions(e, RecordsBlock(e));
    GatedByPayload(w, e, Tempting(e), now);
    GatedByPayload(w, e', Tempting(e), now);
    assert WithApproved(e', Tempting(e)) == WithApproved(e, Tempting(e));
  }

  /** An event never drifts, whatever the rules, the stored grants and requests and the time, if and only if it is
      faithful. */
  lemma NeverDriftsIffFaithful(w: World, e: ActionEvent)
    requires ValidEvent(e)
    ensures (forall b, s, now :: !Drifts(w, b, s, e, now)) <==> Faithful(w.text, e)
  {
    if Faithful(w.text, e) {
      forall b, s, now
        ensures !Drifts(w, b, s, e, now)
      {
        FaithfulNeverDrifts(w, b, s, e, now);
      }
    } else if !RiskSurvives(w.text, e) {
      LostRiskDrifts(w, Store([], [], 0), e, 0.0);
    } else {
      MissingPayloadDrifts(w, e, 0.0);
    }
  }

  // ---------------------------------------------------------------- whole runs

  /** A move that no operator makes and that takes no time. */
  predicate Quiet(m: Move)
  {
    m.Act? || m.Sweep? || m.Reopen?
  }

  /** The recording of a run: one entry per completed execution. */
  function Recording(g: Gate, y: Sys, moves: seq<Move>): seq<Dict>
  {
    if moves == [] then []
    else
      var front, m := moves[..|moves| - 1], moves[|moves| - 1];
      Recording(g, y, front)
      + if m.Act? && Acted(g, After(g, y, front), m.e, m.latency).0.Ok?
        then [Annotate(m.e, Acted(g, After(g, y, front), m.e, m.latency).0.value.authorized)] else []
  }

  ghost predicate AllFaithful(t: Text, moves: seq<Move>)
  {
    forall i :: 0 <= i < |moves| && moves[i].Act? ==> ValidEvent(moves[i].e) && Faithful(t, moves[i].e)
  }

  lemma SweepKeepsApproved(requests: seq<ApprovalRequest>, now: real, agentId: string, toolName: string, payload: Dict)
    ensures HasApproved(Swept(requests, now), agentId, toolName, payload)
            <==> HasApproved(requests, agentId, toolName, payload)
  {
    var swept := Swept(requests, now);
    if HasApproved(requests, agentId, toolName, payload) {
      var i :| && 0 <= i < |requests| && requests[i].status == Approved
               && SameRequest(requests[i], agentId, toolName, payload);
      assert swept[i] in swept;
    }
    if HasApproved(swept, agentId, toolName, payload) {
      var i :| 0 <= i < |swept| && swept[i].status == Approved && SameRequest(swept[i], agentId, toolName, payload);
      assert requests[i] in requests;
    }
  }

  lemma QuietMoveKeepsStanding(g: Gate, y: Sys, m: Move)
    requires Quiet(m)
    ensures SameStanding(y.state.store, Next(g, y, m).state.store) && Next(g, y, m).clock == y.clock
  {
    var s := y.state.store;
    match m {
      case Act(e, _) =>
        if Decide(g.world, g.rules, s, e, y.clock).Ok? {
          DecidingKeepsStanding(g.world, g.rules, s, e, y.clock);
        }
      case Sweep =>
        forall agentId, toolName, payload
          ensures HasApproved(Swept(s.requests, y.clock), agentId, toolName, payload)
                  <==> HasApproved(s.requests, agentId, toolName, payload)
        {
          SweepKeepsApproved(s.requests, y.clock, agentId, toolName, payload);
        }
      case Reopen =>
    }
  }

  lemma {:induction false} QuietRunKeepsStanding(g: Gate, y: Sys, moves: seq<Move>)
    requires forall m :: m in moves ==> Quiet(m)
    ensures SameStanding(y.state.store, After(g, y, moves).state.store) && After(g, y, moves).clock == y.clock
  {
    if moves == [] {
    } else {
      QuietRunKeepsStanding(g, y, moves[..|moves| - 1]);
      QuietMoveKeepsStanding(g, After(g, y, moves[..|moves| - 1]), moves[|moves| - 1]);
    }
  }

  /** An entry recorded on one store reads back without drift on any store with the same standing. */
  lemma EntryDoesNotDrift(x: Sandbox, s: Store, recorded: Store, e: ActionEvent, now: real)
    requires !x.observe && SameStanding(recorded, s) && ValidEvent(e) && Faithful(x.world.text, e)
    requires Decide(x.world, x.rules, recorded, e, now).Ok?
    ensures var one := Alone(x, s, Annotate(e, Decide(x.world, x.rules, recorded, e, now).value.authorized), now);
      one.Ok? && !one.value.differs
  {
    var authorized := Decide(x.world, x.rules, recorded, e, now).value.authorized;
    DecisionNeedsOnlyStanding(x.world, x.rules, recorded, s, e, now);
    FaithfulNeverDrifts(x.world, x.rules, s, e, now);
    EntryParses(e, authorized);
    var o := Decide(x.world, x.rules, s, Replayed(e, authorized), now);
    assert o.Ok? && o.value.authorized == authorized;
    OutcomeReadBack(authorized, o.value.authorized);
  }

  /** No entry of the recording, replayed alone, drifts. */
  lemma {:induction false} RecordingDoesNotDrift(g: Gate, y: Sys, moves: seq<Move>, x: Sandbox, s: Store)
    requires forall m :: m in moves ==> Quiet(m)
    requires AllFaithful(g.world.text, moves)
    requires x.world == g.world && x.rules == g.rules && !x.observe && SameStanding(y.state.store, s)
    ensures forall raw :: raw in Recording(g, y, moves) ==>
      Alone(x, s, raw, y.clock).Ok? && !Alone(x, s, raw, y.clock).value.differs
  {
    hide Next, Acted, Decide, Alone, SameStanding;
    if moves == [] {
    } else {
      var front, m := moves[..|moves| - 1], moves[|moves| - 1];
      RecordingDoesNotDrift(g, y, front, x, s);
      QuietRunKeepsStanding(g, y, front);
      var was := After(g, y, front);
      if m.Act? {
        ActDecides(g, was, m.e, m.latency);
      }
      StandingComposes(y.state.store, was.state.store, s);
      if m.Act? && Decide(g.world, g.rules, was.state.store, m.e, y.clock).Ok? {
        EntryDoesNotDrift(x, s, was.state.store, m.e, y.clock);
      }
    }
  }

  lemma {:induction false} NoneDiffers(results: seq<Bare>)
    requires forall i :: 0 <= i < |results| ==> !results[i].differs
    ensures CountIf(results, IS_DIFFERENT) == 0
  {
    if results == [] {
    } else {
      NoneDiffers(results[..|results| - 1]);
    }
  }

  /** Zero drift: record a live run of faithful events during which no operator acted and the clock stood still,
      and replay the recording on the approvals the run left; the replay completes, reports no differences and
      certifies compliance. */
  lemma {:induction false} RecordedRunReplaysWithoutDrift(g: Gate, y: Sys, moves: seq<Move>, latency: nat -> int)
    requires forall m :: m in moves ==> Quiet(m)
    requires AllFaithful(g.world.text, moves)
    ensures var x := Sandbox(g.world, g.rules, false, i => y.clock, latency);
      var r := ReplayAll(x, SandboxState(After(g, y, moves).state.store), Recording(g, y, moves));
      r.Ok? && r.value.1.diffs == 0 && r.value.1.total == |Recording(g, y, moves)| && EvidenceOf(r.value.1).compliant
  {
    var x := Sandbox(g.world, g.rules, false, i => y.clock, latency);
    var s, raws := After(g, y, moves).state.store, Recording(g, y, moves);
    QuietRunKeepsStanding(g, y, moves);
    RecordingDoesNotDrift(g, y, moves, x, s);
    ReplayIsHistoryFree(x, s, raws);
    NoneRaisesNoneDiffers(x, s, raws, y.clock, ReplayAll(x, SandboxState(s), raws));
    CountersAddUp(x, SandboxState(s), raws);
    NoneDiffers(Bares(ReplayAll(x, SandboxState(s), raws).value.1.results));
  }

  lemma NoneRaisesNoneDiffers(x: Sandbox, s: Store, raws: seq<Dict>, now: real, r: Result<(State, Summary)>)
    requires forall i :: x.clock(i) == now
    requires Explains(AloneAll(x, s, raws), r)
    requires forall raw :: raw in raws ==> Alone(x, s, raw, now).Ok? && !Alone(x, s, raw, now).value.differs
    ensures r.Ok? && forall i :: 0 <= i < |Bares(r.value.1.results)| ==> !Bares(r.value.1.results)[i].differs
  {
    var each := AloneAll(x, s, raws);
    forall i | 0 <= i < |each|
      ensures each[i].Ok? && !each[i].value.differs
    {
      assert raws[i] in raws;
    }
  }
}
