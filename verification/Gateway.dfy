/** The MCP gateway of capfence/mcp/gateway.py: messages from a client pass through the gate to an upstream
    server. Streams are sequences; what upstream replies to its k-th message is a function of k. */
module Gateway {
  import opened Json
  import opened Events
  import opened Adapters
  import opened Audit
  import opened Runtime
  import opened Authorization
  import opened SystemRuns

  datatype Config = Config(agentId: string, defaultRisk: Option<string>, capabilityMap: map<string, string>)

  /** One line of the client's stream. */
  datatype Incoming = Line(message: Json) | Undecodable

  predicate IsToolCall(m: Dict)
  {
    || Get(m, "method") == JStr("tools/call")
    || Get(m, "method") == JStr("tool/call")
    || Get(m, "method") == JStr("call_tool")
  }

  // ---------------------------------------------------------------- from a tool call to an event

  function GuessCapability(toolName: string): string
  {
    var name := Lower(toolName);
    if Mentions(name, SHELL) then "shell.execute"
    else if Mentions(name, PAYMENT) then "payments.transfer"
    else if Mentions(name, DELETION) then "filesystem.delete"
    else if Mentions(name, WRITING) then "filesystem.write"
    else if Mentions(name, READING) then "filesystem.read"
    else "mcp.tool.execute"
  }

  function CapabilityFor(c: Config, toolName: string): string
  {
    if toolName in c.capabilityMap then c.capabilityMap[toolName] else GuessCapability(toolName)
  }

  function RiskFor(c: Config, toolName: string): string
  {
    var category := if c.defaultRisk.Some? then c.defaultRisk else GuessCategory(toolName);
    if category.Some? && category.value != "" then category.value else "medium"
  }

  /** The event of a named tool call. */
  function NamedEvent(c: Config, toolName: string, arguments: Json): Result<ActionEvent>
  {
    CallEvent(c.agentId, CapabilityFor(c, toolName), RiskFor(c, toolName), Or(arguments, JObj([])), toolName, "mcp")
  }

  /** Parameters that are not a mapping and names that are not texts raise. */
  function ToolEvent(c: Config, m: Dict): Result<ActionEvent>
  {
    var params := GetOr(m, "params", JObj([]));
    if !params.JObj? then Raised(WrongType)
    else
      var name := GetOr(params.members, "name", JStr("unknown"));
      if !name.JStr? then Raised(WrongType)
      else NamedEvent(c, name.s, GetOr(params.members, "arguments", JObj([])))
  }

  /** The two guesses go together: each risk category has its own capability. */
  lemma GuessesAgree(toolName: string)
    ensures GuessCapability(toolName) == match GuessCategory(toolName)
      case None => "mcp.tool.execute"
      case Some(category) =>
        if category == "command_execution" then "shell.execute"
        else if category == "payment_initiation" then "payments.transfer"
        else if category == "delete" then "filesystem.delete"
        else if category == "write" then "filesystem.write"
        else "filesystem.read"
  {
  }

  /** With no configured risk and no configured capability for a tool, its call gets an event if and only if the
      agent has a name and the arguments are a mapping or count as false; it needs the guessed capability and has the
      risk level that goes with it. */
  lemma GuessedCallHasEvent(c: Config, toolName: string, arguments: Json)
    requires c.defaultRisk == None && toolName !in c.capabilityMap
    ensures var e := NamedEvent(c, toolName, arguments);
      && (e.Ok? <==> c.agentId != "" && (arguments.JObj? || !Truthy(arguments)))
      && (e.Ok? ==> RequiredCapability(e.value) == GuessCapability(toolName))
      && (e.Ok? ==> e.value.risk == JStr(LevelOfCapability(GuessCapability(toolName))))
  {
    var capability, risk, payload := CapabilityFor(c, toolName), RiskFor(c, toolName), Or(arguments, JObj([]));
    CallEventOkIff(c.agentId, capability, risk, payload, toolName, "mcp");
    GuessedLevel(toolName);
    GuessedCapabilityLevel(toolName);
    GuessIsNameable(toolName);
    if NamedEvent(c, toolName, arguments).Ok? {
      CallEventFields(c.agentId, capability, risk, payload, toolName, "mcp");
      CallIsJudgedAsMade(NamedEvent(c, toolName, arguments).value, capability, risk, payload, toolName, "mcp");
    }
  }

  /** The guesses of category and capability, and the risk level that goes with both. */
  lemma GuessedCapabilityLevel(toolName: string)
    ensures LevelOfGuess(toolName) == LevelOfCapability(GuessCapability(toolName))
  {
    hide Mentions;
  }

  function LevelOfCapability(capability: string): string
  {
    if capability == "shell.execute" then "critical"
    else if capability == "payments.transfer" || capability == "filesystem.delete" then "high"
    else if capability == "filesystem.read" then "low"
    else "medium"
  }

  lemma GuessIsNameable(toolName: string)
    ensures Nameable(GuessCapability(toolName))
  {
    hide Mentions;
    var guess := GuessCapability(toolName);
    if guess == "shell.execute" {
      NameableAt(guess, 5);
    } else if guess == "payments.transfer" {
      NameableAt(guess, 8);
    } else if guess == "mcp.tool.execute" {
      NameableAt(guess, 3);
    } else {
      NameableAt(guess, 10);
    }
  }

  /** What the gate is asked about a tool call, told from the message: for the agent, the capability configured for the
      tool or else the guessed one, with the arguments as payload, and nothing else of the message. */
  lemma {:induction false} ToolEventAsks(c: Config, m: Dict, params: Dict, name: string)
    requires JObj(params) == if HasKey(m, "params") then Get(m, "params") else JObj([])
    requires JStr(name) == if HasKey(params, "name") then Get(params, "name") else JStr("unknown")
    requires ToolEvent(c, m).Ok?
    ensures var e, arguments := ToolEvent(c, m).value, Get(params, "arguments");
      && e.actor == c.agentId && e.environment == "production" && SessionOf(e) == None
      && RequiredCapability(e) == (if name in c.capabilityMap then c.capabilityMap[name] else GuessCapability(name))
      && PolicyPayload(e) == (if arguments.JObj? then arguments.members else [])
      && Get(e.metadata, "tool_name") == JStr(name) && !Truthy(Get(e.metadata, "require_approval"))
      && (c.defaultRisk.Some? && c.defaultRisk.value != "" ==> Some(e.risk) == NormalRisk(JStr(c.defaultRisk.value)))
      && (c.defaultRisk == None ==> e.risk == JStr(LevelOfCapability(GuessCapability(name))))
  {
    hide GuessCapability, GuessCategory, NormalRisk, LevelOfGuess, LevelOfCapability;
    hide MakeEvent, CallMetadata, CallEvent;
    var arguments := GetOr(params, "arguments", JObj([]));
    if Get(params, "arguments") != JNull {
      KeyOfValue(params, "arguments");
    }
    var capability, risk, payload := CapabilityFor(c, name), RiskFor(c, name), Or(arguments, JObj([]));
    CallEventOkIff(c.agentId, capability, risk, payload, name, "mcp");
    CallEventFields(c.agentId, capability, risk, payload, name, "mcp");
    CallIsJudgedAsMade(ToolEvent(c, m).value, capability, risk, payload, name, "mcp");
    CallMetadataLookup(capability, risk, payload, name, "mcp", "tool_name");
    CallMetadataLookup(capability, risk, payload, name, "mcp", "require_approval");
    GuessedLevel(name);
    GuessedCapabilityLevel(name);
  }

  // ---------------------------------------------------------------- handling one message

  /** `verdict.confidence`. */
  function Confidence(v: Verdict): real
  {
    if IsNumber(v.event.risk) then NumberValue(v.event.risk)
    else if v.event.risk.JStr? && Lower(v.event.risk.s) == "low" then 0.2
    else if v.event.risk.JStr? && Lower(v.event.risk.s) == "medium" then 0.5
    else if v.event.risk.JStr? && Lower(v.event.risk.s) == "high" then 0.8
    else 1.0
  }

  function BlockedResponse(m: Dict, v: Verdict): (r: Json)
    ensures r.JObj?
  {
    JObj([
      ("jsonrpc", JStr("2.0")),
      ("id", Get(m, "id")),
      ("error", JObj([
        ("code", JInt(-32000)),
        ("message", JStr("CapFence blocked this tool call")),
        ("data", JObj([
          ("reason", JStr(v.reason)),
          ("risk_score", JReal(Confidence(v))),
          ("decision", JStr(DecisionText(v.decision)))]))]))])
  }

  /** What became of a message: passed on as not a tool call, passed on as authorized, blocked, or an exception. */
  datatype Fate = PassedOn | Permitted(v: Verdict) | Blocked(v: Verdict) | Failed(error: Exn)

  datatype Handled = Handled(message: Json, fate: Fate)

  function FateOf(c: Config, g: Gate, s: State, m: Json, now: real, latency: int): (Fate, State)
  {
    if !m.JObj? then (Failed(WrongType), s)
    else if !IsToolCall(m.members) then (PassedOn, s)
    else
      match ToolEvent(c, m.members)
      case Raised(err) => (Failed(err), s)
      case Ok(e) =>
        match Executed(g.world, g.keys, g.rules, false, s, e, now, latency)
        case (Raised(err), after) => (Failed(err), after)
        case (Ok(v), after) => (if v.authorized then Permitted(v) else Blocked(v), after)
  }

  // ---------------------------------------------------------------- a run

  /** The gate's state, what became of each message read, and whether the loop has ended. */
  datatype Session = Session(state: State, handled: seq<Handled>, ended: bool)

  /** What handling the k-th message in a state gives. */
  type Handler = (nat, State, Json) -> (Fate, State)

  /** Before the k-th message is handled others make their moves on the shared tables. */
  function Gating(c: Config, g: Gate, turns: nat -> Interlude): Handler
  {
    (k: nat, s: State, m: Json) => FateOf(c, g, Met(g, s, turns(k)), m, turns(k).now, turns(k).latency)
  }

  /** The loop ends at a line that cannot be decoded and at a JSON null. */
  predicate EndsLoop(input: Incoming)
  {
    input.Undecodable? || input.message.JNull?
  }

  /** It ends with an exception, too. */
  function Proxied(h: Handler, s: State, inputs: seq<Incoming>): Session
  {
    if inputs == [] then Session(s, [], false)
    else
      var n := |inputs| - 1;
      var was := Proxied(h, s, inputs[..n]);
      if was.ended then was
      else if EndsLoop(inputs[n]) then was.(ended := true)
      else
        var (fate, after) := h(n, was.state, inputs[n].message);
        Session(after, was.handled + [Handled(inputs[n].message, fate)], fate.Failed?)
  }

  predicate GoesUpstream(h: Handled)
  {
    h.fate.PassedOn? || h.fate.Permitted?
  }

  /** The messages sent upstream. */
  function Forwarded(hs: seq<Handled>): seq<Json>
  {
    if hs == [] then []
    else Forwarded(hs[..|hs| - 1]) + if GoesUpstream(hs[|hs| - 1]) then [hs[|hs| - 1].message] else []
  }

  /** The answer to a message that has been handled, when `sent` messages went upstream before it. */
  function Answer(h: Handled, replies: nat -> Option<Json>, sent: nat): Option<Json>
  {
    if GoesUpstream(h) then replies(sent)
    else if h.fate.Blocked? && h.message.JObj? then Some(BlockedResponse(h.message.members, h.fate.v))
    else None
  }

  /** A reply that is missing, undecodable or null is not written. */
  function Written(reply: Option<Json>): seq<Json>
  {
    if reply.Some? && reply.value != JNull then [reply.value] else []
  }

  /** What the client receives: upstream's reply, if it sent one, to each message that went there, and an error for
      each blocked call. `sent` messages went upstream before. */
  function Responses(hs: seq<Handled>, replies: nat -> Option<Json>, sent: nat): seq<Json>
  {
    if hs == [] then []
    else
      var front := hs[..|hs| - 1];
      Responses(front, replies, sent) + Written(Answer(hs[|hs| - 1], replies, sent + |Forwarded(front)|))
  }

  /** Streams that stood at `up` and `out` have since received what the handled messages call for. */
  ghost predicate Relayed(up: seq<Json>, out: seq<Json>, hs: seq<Handled>, replies: nat -> Option<Json>,
          toUpstream: seq<Json>, toClient: seq<Json>)
  {
    toUpstream == up + Forwarded(hs) && toClient == out + Responses(hs, replies, |up|)
  }

  lemma OneMore(up: seq<Json>, out: seq<Json>, hs: seq<Handled>, replies: nat -> Option<Json>, toUpstream: seq<Json>,
          toClient: seq<Json>, h: Handled)
    requires Relayed(up, out, hs, replies, toUpstream, toClient)
    ensures Relayed(up, out, hs + [h], replies, toUpstream + if GoesUpstream(h) then [h.message] else [],
                    toClient + Written(Answer(h, replies, |toUpstream|)))
  {
    hide BlockedResponse;
    assert (hs + [h])[..|hs|] == hs;
  }

  class MCPGatewayServer {
    const gate: ActionRuntime
    const config: Config
    const replies: nat -> Option<Json>
    /** Everything written to upstream and to the client so far. */
    var toUpstream: seq<Json>
    var toClient: seq<Json>

    constructor (gate: ActionRuntime, config: Config, replies: nat -> Option<Json>)
      ensures this.gate == gate && this.config == config && this.replies == replies
      ensures toUpstream == [] && toClient == []
    {
      this.gate, this.config, this.replies := gate, config, replies;
      toUpstream, toClient := [], [];
    }

    ghost function Gate(): Gate
      reads gate.caps
    {
      GateOf(gate)
    }

    ghost predicate Valid()
      reads gate.approvals
    {
      gate.Valid() && !gate.observe
    }

    method ForwardAndRespond(m: Json) returns (response: Option<Json>)
      modifies this`toUpstream
      ensures toUpstream == old(toUpstream) + [m] && response == replies(|old(toUpstream)|)
    {
      response := replies(|toUpstream|);
      toUpstream := toUpstream + [m];
    }

    method HandleMessage(m: Json, now: real, latency: int) returns (response: Result<Option<Json>>, ghost fate: Fate)
      requires Valid()
      modifies this`toUpstream, gate.approvals, gate.audit
      ensures Valid()
      ensures (fate, gate.Now()) == FateOf(config, old(Gate()), old(gate.Now()), m, now, latency)
      ensures toUpstream == old(toUpstream) + if GoesUpstream(Handled(m, fate)) then [m] else []
      ensures fate.Blocked? ==> m.JObj?
      ensures response == if fate.Failed? then Raised(fate.error)
              else Ok(Answer(Handled(m, fate), replies, |old(toUpstream)|))
    {
      hide Executed, BlockedResponse, NamedEvent;
      if !m.JObj? {
        return Raised(WrongType), Failed(WrongType);
      }
      if !IsToolCall(m.members) {
        var reply := ForwardAndRespond(m);
        return Ok(reply), PassedOn;
      }
      var event := ToolEvent(config, m.members);
      if event.Raised? {
        return Raised(event.error), Failed(event.error);
      }
      var verdict := gate.Execute(event.value, now, latency);
      if verdict.Raised? {
        return Raised(verdict.error), Failed(verdict.error);
      }
      if !verdict.value.authorized {
        return Ok(Some(BlockedResponse(m.members, verdict.value))), Blocked(verdict.value);
      }
      var reply := ForwardAndRespond(m);
      return Ok(reply), Permitted(verdict.value);
    }

    /** Handle one message and write the answer, if there is one. */
    method Serve(m: Json, now: real, latency: int) returns (failed: bool, ghost fate: Fate)
      requires Valid()
      modifies this, gate.approvals, gate.audit
      ensures Valid() && (fate, gate.Now()) == FateOf(config, old(Gate()), old(gate.Now()), m, now, latency)
      ensures failed <==> fate.Failed?
      ensures toUpstream == old(toUpstream) + if GoesUpstream(Handled(m, fate)) then [m] else []
      ensures toClient == old(toClient) + Written(Answer(Handled(m, fate), replies, |old(toUpstream)|))
    {
      hide FateOf, BlockedResponse;
      var response;
      response, fate := HandleMessage(m, now, latency);
      if response.Raised? {
        return true, fate;
      }
      toClient := toClient + Written(response.value);
      return false, fate;
    }

    /** While the k-th message is waited for, others use the gate's tables; then it is handled and answered. */
    method Turn(turns: nat -> Interlude, k: nat, m: Json) returns (failed: bool, ghost fate: Fate)
      requires Valid()
      modifies this, gate.approvals, gate.audit
      ensures Valid() && (fate, gate.Now()) == Gating(config, old(Gate()), turns)(k, old(gate.Now()), m)
      ensures failed <==> fate.Failed?
      ensures toUpstream == old(toUpstream) + if GoesUpstream(Handled(m, fate)) then [m] else []
      ensures toClient == old(toClient) + Written(Answer(Handled(m, fate), replies, |old(toUpstream)|))
    {
      hide FateOf, After;
      var t := turns(k);
      var clock := MakeAll(gate, t.others, t.since);
      assert gate.Now() == Met(old(Gate()), old(gate.Now()), t);
      failed, fate := Serve(m, t.now, t.latency);
    }

    /** The loop of `run`, to the end of the input. */
    method Run(inputs: seq<Incoming>, turns: nat -> Interlude) returns (ghost session: Session)
      requires Valid()
      modifies this, gate.approvals, gate.audit
      ensures Valid()
      ensures session == Proxied(Gating(config, old(Gate()), turns), old(gate.Now()), inputs)
      ensures gate.Now() == session.state
      ensures Relayed(old(toUpstream), old(toClient), session.handled, replies, toUpstream, toClient)
    {
      hide Gating;
      ghost var start, g, up, out := gate.Now(), Gate(), toUpstream, toClient;
      ghost var h := Gating(config, g, turns);
      session := Session(start, [], false);
      for i := 0 to |inputs|
        invariant Valid() && Gate() == g && gate.Now() == session.state
        invariant session == Proxied(h, start, inputs[..i]) && !session.ended
        invariant Relayed(up, out, session.handled, replies, toUpstream, toClient)
      {
        if inputs[i].Undecodable? || inputs[i].message.JNull? {
          session := EndOfInput(h, start, inputs, i);
          return;
        }
        var failed;
        ghost var fate, sent, answered := PassedOn, toUpstream, toClient;
        failed, fate := Turn(turns, i, inputs[i].message);
        OneMore(up, out, session.handled, replies, sent, answered, Handled(inputs[i].message, fate));
        session := OneTurn(h, start, inputs, i, fate, gate.Now());
        if failed {
          SessionStops(h, start, inputs, i + 1);
          return;
        }
      }
      assert inputs[..|inputs|] == inputs;
    }
  }

  lemma OneTurn(h: Handler, s: State, inputs: seq<Incoming>, i: nat, fate: Fate, after: State) returns (next: Session)
    requires i < |inputs| && !EndsLoop(inputs[i])
    requires var was := Proxied(h, s, inputs[..i]); !was.ended && (fate, after) == h(i, was.state, inputs[i].message)
    ensures next == Proxied(h, s, inputs[..i + 1])
    ensures next == Session(after, Proxied(h, s, inputs[..i]).handled + [Handled(inputs[i].message, fate)],
            fate.Failed?)
  {
    assert inputs[..i + 1][..i] == inputs[..i];
    next := Proxied(h, s, inputs[..i + 1]);
  }

  lemma EndOfInput(h: Handler, s: State, inputs: seq<Incoming>, i: nat) returns (last: Session)
    requires i < |inputs| && EndsLoop(inputs[i]) && !Proxied(h, s, inputs[..i]).ended
    ensures last == Proxied(h, s, inputs) == Proxied(h, s, inputs[..i]).(ended := true)
  {
    assert inputs[..i + 1][..i] == inputs[..i];
    last := Proxied(h, s, inputs[..i + 1]);
    SessionStops(h, s, inputs, i + 1);
  }

  /** Nothing is read after the loop has ended. */
  lemma {:induction false} SessionStops(h: Handler, s: State, inputs: seq<Incoming>, n: nat)
    requires n <= |inputs| && Proxied(h, s, inputs[..n]).ended
    ensures Proxied(h, s, inputs) == Proxied(h, s, inputs[..n])
    decreases |inputs|
  {
    if n == |inputs| {
      assert inputs[..n] == inputs;
    } else {
      assert inputs[..|inputs| - 1][..n] == inputs[..n];
      SessionStops(h, s, inputs[..|inputs| - 1], n);
    }
  }

  // ---------------------------------------------------------------- mediation

  /** The state after the messages before the k-th. */
  ghost function StateAt(h: Handler, s: State, inputs: seq<Incoming>, k: nat): State
    requires k <= |inputs|
  {
    Proxied(h, s, inputs[..k]).state
  }

  /** The state that message `k` meets at the gate, after what others did meanwhile. */
  ghost function StateMet(c: Config, g: Gate, s: State, inputs: seq<Incoming>, turns: nat -> Interlude, k: nat): State
    requires k <= |inputs|
  {
    Met(g, StateAt(Gating(c, g, turns), s, inputs, k), turns(k))
  }

  lemma {:induction false} HandledIsPrefix(h: Handler, s: State, inputs: seq<Incoming>)
    ensures var r := Proxied(h, s, inputs); |r.handled| <= |inputs| && (!r.ended ==> |r.handled| == |inputs|)
  {
    if inputs == [] {
    } else {
      HandledIsPrefix(h, s, inputs[..|inputs| - 1]);
    }
  }

  /** How far a session reads: up to a line that cannot be decoded or is null, or to the first message that fails. */
  lemma {:induction false} SessionReadsUpTo(h: Handler, s: State, inputs: seq<Incoming>)
    ensures var r := Proxied(h, s, inputs);
      var n := |r.handled|;
      && n <= |inputs| && (forall i :: 0 <= i < n - 1 ==> !r.handled[i].fate.Failed?)
      && (r.ended <==>
            || (n > 0 && r.handled[n - 1].fate.Failed?)
            || (n < |inputs| && (inputs[n] == Undecodable || inputs[n] == Line(JNull))))
      && (!r.ended ==> n == |inputs|)
  {
    if inputs == [] {
    } else {
      SessionReadsUpTo(h, s, inputs[..|inputs| - 1]);
    }
  }

  lemma {:induction false} EachIsHandledOnce(h: Handler, s: State, inputs: seq<Incoming>, k: nat)
    requires k < |Proxied(h, s, inputs).handled|
    ensures k < |inputs| && inputs[k].Line? && inputs[k].message != JNull
    ensures var (fate, after) := h(k, StateAt(h, s, inputs, k), inputs[k].message);
      && Proxied(h, s, inputs).handled[k] == Handled(inputs[k].message, fate)
      && StateAt(h, s, inputs, k + 1) == after
  {
    var n := |inputs| - 1;
    HandledIsPrefix(h, s, inputs[..n]);
    if k < |Proxied(h, s, inputs[..n]).handled| {
      EachIsHandledOnce(h, s, inputs[..n], k);
      assert inputs[..n][..k] == inputs[..k] && inputs[..n][..k + 1] == inputs[..k + 1];
    } else {
      assert inputs[..k + 1] == inputs;
    }
  }

  /** A message that is no tool call, or a tool call that the gate authorizes in this state. */
  predicate MayPass(c: Config, g: Gate, s: State, m: Json, now: real)
  {
    && m.JObj?
    && (!IsToolCall(m.members)
        || (ToolEvent(c, m.members).Ok? && Authorized(g.world, g.rules, s.store, ToolEvent(c, m.members).value, now)))
  }

  /** The fate of a message is decided by the gate alone: it goes upstream exactly when it may pass. */
  lemma FateFollowsGate(c: Config, g: Gate, s: State, m: Json, now: real, latency: int)
    ensures GoesUpstream(Handled(m, FateOf(c, g, s, m, now, latency).0)) <==> MayPass(c, g, s, m, now)
  {
    hide Executed, Decide, NamedEvent;
    if m.JObj? && ToolEvent(c, m.members).Ok? {
      ExecutionDecides(g.world, g.keys, g.rules, false, s, ToolEvent(c, m.members).value, now, latency);
    }
  }

  /** Whatever agents and operators do on the same tables between the messages, the messages handled are a prefix of
      those read, in order, and each goes upstream exactly when, in the state it meets, it is no tool call or is
      authorized. */
  lemma {:induction false} EveryMessageIsMediated(c: Config, g: Gate, s: State, inputs: seq<Incoming>,
          turns: nat -> Interlude, k: nat)
    requires k < |Proxied(Gating(c, g, turns), s, inputs).handled|
    ensures k < |inputs| && inputs[k].Line?
    ensures var handled, met := Proxied(Gating(c, g, turns), s, inputs).handled[k], StateMet(c, g, s, inputs, turns, k);
      && handled == Handled(inputs[k].message, FateOf(c, g, met, inputs[k].message, turns(k).now, turns(k).latency).0)
      && (GoesUpstream(handled) <==> MayPass(c, g, met, inputs[k].message, turns(k).now))
  {
    hide FateOf, After, MayPass;
    EachIsHandledOnce(Gating(c, g, turns), s, inputs, k);
    FateFollowsGate(c, g, StateMet(c, g, s, inputs, turns, k), inputs[k].message, turns(k).now, turns(k).latency);
  }

  /** In every session, whatever others do on the same tables: a mapping whose method is one of the three names of a
      tool call goes upstream exactly when it gets an event that is authorized in the state it meets; a mapping with
      another method, or none, always goes upstream and leaves that state as it is; anything else goes nowhere. */
  lemma {:induction false} ToolCallsAreGated(c: Config, g: Gate, s: State, inputs: seq<Incoming>,
          turns: nat -> Interlude, k: nat)
    requires k < |Proxied(Gating(c, g, turns), s, inputs).handled|
    ensures k < |inputs| && inputs[k].Line?
    ensures var m, handled := inputs[k].message, Proxied(Gating(c, g, turns), s, inputs).handled[k];
      var met, after := StateMet(c, g, s, inputs, turns, k), StateAt(Gating(c, g, turns), s, inputs, k + 1);
      if !m.JObj? then !GoesUpstream(handled) && after == met
      else if Get(m.members, "method") in {JStr("tools/call"), JStr("tool/call"), JStr("call_tool")} then
        GoesUpstream(handled)
        <==> && ToolEvent(c, m.members).Ok?
             && Authorized(g.world, g.rules, met.store, ToolEvent(c, m.members).value, turns(k).now)
      else GoesUpstream(handled) && after == met
  {
    hide After, Executed, Authorized, ToolEvent;
    EachIsHandledOnce(Gating(c, g, turns), s, inputs, k);
    FateFollowsGate(c, g, StateMet(c, g, s, inputs, turns, k), inputs[k].message, turns(k).now, turns(k).latency);
  }

  // ---------------------------------------------------------------- audit

  /** The verdict of a tool call that got one. */
  function FateVerdict(f: Fate): seq<Verdict>
  {
    if f.Permitted? || f.Blocked? then [f.v] else []
  }

  /** The verdicts given while one message is waited for and handled: those of others, then its own. */
  function TurnVerdicts(g: Gate, s: State, t: Interlude, f: Fate): seq<Verdict>
  {
    Completed(g, Sys(s, t.since), t.others) + FateVerdict(f)
  }

  /** All verdicts of a session, in order. */
  function SessionVerdicts(g: Gate, h: Handler, s: State, inputs: seq<Incoming>, turns: nat -> Interlude): seq<Verdict>
  {
    if inputs == [] then []
    else
      var n := |inputs| - 1;
      var was := Proxied(h, s, inputs[..n]);
      SessionVerdicts(g, h, s, inputs[..n], turns)
      + if was.ended || EndsLoop(inputs[n]) then []
        else TurnVerdicts(g, was.state, turns(n), h(n, was.state, inputs[n].message).0)
  }

  lemma FateLogs(c: Config, g: Gate, s: State, m: Json, now: real, latency: int)
    ensures var (fate, after) := FateOf(c, g, s, m, now, latency);
      && Logs(g, s.log.rows, after.log.rows, FateVerdict(fate))
      && (fate.Permitted? ==> fate.v.authorized) && (fate.Blocked? ==> !fate.v.authorized)
  {
    hide Executed, NamedEvent;
    if m.JObj? && IsToolCall(m.members) && ToolEvent(c, m.members).Ok? {
      ExecutionLogsVerdict(g, s, ToolEvent(c, m.members).value, now, latency);
    }
  }

  lemma TurnLogs(c: Config, g: Gate, s: State, t: Interlude, m: Json)
    ensures var (fate, after) := FateOf(c, g, Met(g, s, t), m, t.now, t.latency);
      Logs(g, s.log.rows, after.log.rows, TurnVerdicts(g, s, t, fate))
  {
    hide FateOf, After, Completed;
    var (fate, after) := FateOf(c, g, Met(g, s, t), m, t.now, t.latency);
    RunsAreRecorded(g, Sys(s, t.since), t.others);
    FateLogs(c, g, Met(g, s, t), m, t.now, t.latency);
    LogsCompose(g, s.log.rows, Met(g, s, t).log.rows, after.log.rows,
      Completed(g, Sys(s, t.since), t.others), FateVerdict(fate));
  }

  /** If each turn logs its verdicts, so does the session. */
  lemma {:induction false} TurnsCompose(g: Gate, h: Handler, s: State, inputs: seq<Incoming>, turns: nat -> Interlude)
    requires forall k: nat, st: State, m: Json ::
      Logs(g, st.log.rows, h(k, st, m).1.log.rows, TurnVerdicts(g, st, turns(k), h(k, st, m).0))
    ensures Logs(g, s.log.rows, Proxied(h, s, inputs).state.log.rows,
            SessionVerdicts(g, h, s, inputs, turns))
  {
    if inputs == [] {
    } else {
      var n := |inputs| - 1;
      TurnsCompose(g, h, s, inputs[..n], turns);
      var was := Proxied(h, s, inputs[..n]);
      if !was.ended && !EndsLoop(inputs[n]) {
        var (fate, after) := h(n, was.state, inputs[n].message);
        LogsCompose(g, s.log.rows, was.state.log.rows, after.log.rows,
          SessionVerdicts(g, h, s, inputs[..n], turns), TurnVerdicts(g, was.state, turns(n), fate));
      }
    }
  }

  /** A session and what others do during it write one audit row per verdict, in order; other messages leave no trace
      in the log. */
  lemma {:induction false} SessionIsAudited(c: Config, g: Gate, s: State, inputs: seq<Incoming>,
          turns: nat -> Interlude)
    ensures var h := Gating(c, g, turns);
      Logs(g, s.log.rows, Proxied(h, s, inputs).state.log.rows, SessionVerdicts(g, h, s, inputs, turns))
  {
    hide FateOf, After, Completed;
    var h := Gating(c, g, turns);
    forall k: nat, st: State, m: Json
      ensures Logs(g, st.log.rows, h(k, st, m).1.log.rows, TurnVerdicts(g, st, turns(k), h(k, st, m).0))
    {
      TurnLogs(c, g, st, turns(k), m);
    }
    TurnsCompose(g, h, s, inputs, turns);
  }

  /** The row of a tool call says "pass" exactly when the call went upstream. */
  lemma {:induction false} RowsSayWhatPassed(c: Config, g: Gate, s: State, inputs: seq<Incoming>,
          turns: nat -> Interlude, k: nat)
    requires k < |Proxied(Gating(c, g, turns), s, inputs).handled|
    ensures var handled := Proxied(Gating(c, g, turns), s, inputs).handled[k];
      FateVerdict(handled.fate) != [] ==> (FateVerdict(handled.fate)[0].authorized <==> GoesUpstream(handled))
  {
    hide FateOf, After;
    EachIsHandledOnce(Gating(c, g, turns), s, inputs, k);
    FateLogs(c, g, StateMet(c, g, s, inputs, turns, k), inputs[k].message, turns(k).now, turns(k).latency);
  }

  // ---------------------------------------------------------------- answers

  /** The answer to message `k` comes right after the answers to the messages before it, whatever follows. */
  lemma {:induction false} AnswerInPlace(hs: seq<Handled>, replies: nat -> Option<Json>, sent: nat, k: nat)
    requires k < |hs|
    ensures Responses(hs[..k], replies, sent) + Written(Answer(hs[k], replies, sent + |Forwarded(hs[..k])|))
            <= Responses(hs, replies, sent)
  {
    hide Answer, Written, Forwarded;
    var n := |hs| - 1;
    if k < n {
      AnswerInPlace(hs[..n], replies, sent, k);
      assert hs[..n][..k] == hs[..k];
      PrefixStays(Responses(hs[..k], replies, sent) + Written(Answer(hs[k], replies, sent + |Forwarded(hs[..k])|)),
        Responses(hs[..n], replies, sent), Written(Answer(hs[n], replies, sent + |Forwarded(hs[..n])|)));
    }
  }

  lemma PrefixStays<T>(a: seq<T>, b: seq<T>, more: seq<T>)
    requires a <= b
    ensures a <= b + more
  {
  }

  /** Whatever upstream replies or leaves unanswered, and however the session ends: after the answers to the messages
      before it, each message that went upstream gets the reply to it, if there is one, and each blocked call an
      error that carries the call's own id and the code -32000. */
  lemma {:induction false} AnswersMatchMessages(hs: seq<Handled>, replies: nat -> Option<Json>, sent: nat, k: nat)
    requires k < |hs|
    ensures var p, all := |Responses(hs[..k], replies, sent)|, Responses(hs, replies, sent);
      && Responses(hs[..k], replies, sent) <= all
      && (GoesUpstream(hs[k]) ==>
            match replies(sent + |Forwarded(hs[..k])|)
            case None => Responses(hs[..k + 1], replies, sent) == Responses(hs[..k], replies, sent)
            case Some(JNull) => Responses(hs[..k + 1], replies, sent) == Responses(hs[..k], replies, sent)
            case Some(reply) => p < |all| && all[p] == reply)
      && (hs[k].fate.Blocked? && hs[k].message.JObj? ==>
            p < |all| && IsBlockedResponse(all[p], hs[k].message.members, hs[k].fate.v))
  {
    hide BlockedResponse, IsBlockedResponse, Forwarded;
    AnswerInPlace(hs, replies, sent, k);
    assert hs[..k + 1][..k] == hs[..k];
    if hs[k].fate.Blocked? && hs[k].message.JObj? {
      BlockedResponseFields(hs[k].message.members, hs[k].fate.v);
      assert Written(Answer(hs[k], replies, sent + |Forwarded(hs[..k])|))
          == [BlockedResponse(hs[k].message.members, hs[k].fate.v)];
    }
  }

  /** And nothing else is written: every response answers one of the messages, in their order. */
  lemma {:induction false} ResponsesAnswerMessages(hs: seq<Handled>, replies: nat -> Option<Json>, sent: nat, p: nat)
      returns (k: nat)
    requires p < |Responses(hs, replies, sent)|
    ensures k < |hs| && |Responses(hs[..k], replies, sent)| == p
    ensures Answer(hs[k], replies, sent + |Forwarded(hs[..k])|) == Some(Responses(hs, replies, sent)[p])
    ensures Responses(hs, replies, sent)[p] != JNull
  {
    hide Answer, Forwarded;
    k := |hs| - 1;
    if p < |Responses(hs[..k], replies, sent)| {
      var front := hs[..k];
      k := ResponsesAnswerMessages(front, replies, sent, p);
      assert front[..k] == hs[..k];
    }
  }

  lemma OnlyCallsAreBlocked(c: Config, g: Gate, s: State, m: Json, now: real, latency: int)
    ensures FateOf(c, g, s, m, now, latency).0.Blocked? ==> m.JObj? && IsToolCall(m.members)
  {
    hide Executed, NamedEvent;
  }

  /** In every session each call that is blocked is answered by such an error. */
  lemma {:induction false} BlockedCallsAreAnswered(c: Config, g: Gate, s: State, inputs: seq<Incoming>,
          turns: nat -> Interlude, replies: nat -> Option<Json>, sent: nat, k: nat)
    requires var hs := Proxied(Gating(c, g, turns), s, inputs).handled; k < |hs| && hs[k].fate.Blocked?
    ensures var hs := Proxied(Gating(c, g, turns), s, inputs).handled;
      var p, all := |Responses(hs[..k], replies, sent)|, Responses(hs, replies, sent);
      hs[k].message.JObj? && p < |all| && IsBlockedResponse(all[p], hs[k].message.members, hs[k].fate.v)
  {
    hide FateOf, After, Responses;
    EachIsHandledOnce(Gating(c, g, turns), s, inputs, k);
    OnlyCallsAreBlocked(c, g, StateMet(c, g, s, inputs, turns, k), inputs[k].message, turns(k).now, turns(k).latency);
    AnswersMatchMessages(Proxied(Gating(c, g, turns), s, inputs).handled, replies, sent, k);
  }

  /** Upstream answered every message that was sent to it, and the session did not end with an exception. */
  ghost predicate AllAnswered(hs: seq<Handled>, replies: nat -> Option<Json>, sent: nat)
  {
    && (forall i :: sent <= i < sent + |Forwarded(hs)| ==> replies(i).Some? && replies(i).value != JNull)
    && forall i :: 0 <= i < |hs| ==> !hs[i].fate.Failed? && hs[i].message.JObj?
  }

  lemma {:induction false} AnswersLength(hs: seq<Handled>, replies: nat -> Option<Json>, sent: nat)
    requires AllAnswered(hs, replies, sent)
    ensures |Responses(hs, replies, sent)| == |hs|
  {
    if hs == [] {
    } else {
      hide Answer;
      LastIsAnswered(hs, replies, sent);
      AnswersLength(hs[..|hs| - 1], replies, sent);
    }
  }

  /** Then answers and messages correspond one to one. */
  lemma {:induction false} OneAnswerEach(hs: seq<Handled>, replies: nat -> Option<Json>, sent: nat, k: nat)
    requires AllAnswered(hs, replies, sent) && k < |hs|
    ensures |Responses(hs, replies, sent)| == |hs|
    ensures Answer(hs[k], replies, sent + |Forwarded(hs[..k])|) == Some(Responses(hs, replies, sent)[k])
  {
    hide Answer;
    var n := |hs| - 1;
    LastIsAnswered(hs, replies, sent);
    AnswersLength(hs[..n], replies, sent);
    if k < n {
      OneAnswerEach(hs[..n], replies, sent, k);
      assert hs[..n][..k] == hs[..k];
    }
  }

  lemma {:induction false} LastIsAnswered(hs: seq<Handled>, replies: nat -> Option<Json>, sent: nat)
    requires AllAnswered(hs, replies, sent) && hs != []
    ensures var n := |hs| - 1; var answer := Answer(hs[n], replies, sent + |Forwarded(hs[..n])|);
      && AllAnswered(hs[..n], replies, sent)
      && answer.Some? && Responses(hs, replies, sent) == Responses(hs[..n], replies, sent) + [answer.value]
  {
    hide BlockedResponse;
  }

  /** A JSON-RPC error to the request, which says what was decided and why. */
  predicate IsBlockedResponse(r: Json, request: Dict, v: Verdict)
  {
    && r.JObj? && Get(r.members, "jsonrpc") == JStr("2.0") && Get(r.members, "id") == Get(request, "id")
    && Get(r.members, "error").JObj?
    && var error := Get(r.members, "error").members;
      && Get(error, "code") == JInt(-32000) && Get(error, "data").JObj?
      && var data := Get(error, "data").members;
        && Get(data, "reason") == JStr(v.reason) && Get(data, "risk_score") == JReal(Confidence(v))
        && (Get(data, "decision") == JStr("deny") <==> v.decision == Refuse)
        && (Get(data, "decision") == JStr("require_approval") <==> v.decision == Hold)
  }

  /** A dictionary of three members. */
  lemma {:induction false} OfThree(a: (string, Json), b: (string, Json), c: (string, Json))
    requires a.0 != b.0 && b.0 != c.0 && a.0 != c.0
    ensures Get([a, b, c], a.0) == a.1 && Get([a, b, c], b.0) == b.1 && Get([a, b, c], c.0) == c.1
  {
    var d := [a, b, c];
    assert d[..2][..1] == [a] && d[..2][1] == b;
    assert Get(d[..2], a.0) == Get(d[..2][..1], a.0) == a.1;
  }

  lemma {:induction false} BlockedResponseFields(m: Dict, v: Verdict)
    ensures IsBlockedResponse(BlockedResponse(m, v), m, v)
  {
    hide Get;
    var r := BlockedResponse(m, v).members;
    var e := r[2].1.members;
    var d := e[2].1.members;
    OfThree(r[0], r[1], r[2]);
    OfThree(e[0], e[1], e[2]);
    OfThree(d[0], d[1], d[2]);
  }

  /** The confidence that a refusal states is the risk score, or for a level in any case a number that grows with it. */
  lemma ConfidenceGrows(v: Verdict, w: Verdict, levels: seq<string>, i: nat, j: nat)
    requires levels == ["low", "medium", "high", "critical"] && i < 4 && j < 4
    requires v.event.risk.JStr? && SameLetters(v.event.risk.s, levels[i])
    requires w.event.risk.JStr? && SameLetters(w.event.risk.s, levels[j])
    ensures Confidence(v) < Confidence(w) <==> i < j
    ensures 0.0 < Confidence(v) <= 1.0
  {
    forall k | 0 <= k < 4
      ensures Lower(levels[k]) == levels[k]
    {
      LowerIsTheOneWithoutCapitals(levels[k], levels[k]);
    }
    SameLettersFoldAlike(v.event.risk.s, levels[i]);
    SameLettersFoldAlike(w.event.risk.s, levels[j]);
  }
}
