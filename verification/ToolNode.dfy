/** The LangGraph tool node of capfence/framework/langgraph.py: tool calls found in messages pass the gate one by
    one, and the first that fails stops the rest. */
module ToolNode {
  import opened Json
  import opened Events
  import opened Adapters
  import opened Runtime
  import opened Authorization
  import opened SystemRuns

  /** A message: an object, with or without the attribute `tool_calls`, or a mapping. */
  datatype Message = Object(toolCalls: Option<Json>) | Mapping(members: Dict)

  datatype Call = Call(name: string, arguments: Json, id: Json)

  /** `invoke(k, name, arguments)` is what the k-th tool invocation of a run returns or raises. */
  datatype Config = Config(
    agentId: string, tools: set<string>, riskMap: map<string, string>, capabilityMap: map<string, string>,
    invoke: (nat, string, Json) -> Result<Json>)

  // ---------------------------------------------------------------- finding the calls

  /** The keys of a dict in the order of their first assignment. */
  function Keys(d: Dict): seq<Json>
  {
    if d == [] then []
    else
      var front, k := d[..|d| - 1], d[|d| - 1].0;
      Keys(front) + if HasKey(front, k) then [] else [JStr(k)]
  }

  /** What iterating over a value yields. */
  function Iterated(j: Json): Result<seq<Json>>
  {
    match j
    case JList(items) => Ok(items)
    case JObj(d) => Ok(Keys(d))
    case JStr(s) => Ok(seq(|s|, i requires 0 <= i < |s| => JStr([s[i]])))
    case _ => Raised(WrongType)
  }

  function CallsOf(m: Message): Result<seq<Json>>
  {
    match m
    case Object(Some(calls)) => Iterated(calls)
    case Mapping(d) => if HasKey(d, "tool_calls") then Iterated(Get(d, "tool_calls")) else Ok([])
    case _ => Ok([])
  }

  /** The calls of all the messages, or the exception of the first message whose calls cannot be listed. */
  function Extracted(messages: seq<Message>): Result<seq<Json>>
  {
    if messages == [] then Ok([])
    else
      match Extracted(messages[..|messages| - 1])
      case Raised(x) => Raised(x)
      case Ok(calls) =>
        match CallsOf(messages[|messages| - 1])
        case Raised(x) => Raised(x)
        case Ok(more) => Ok(calls + more)
  }

  /** The default of a lookup is computed even when it is not needed, so `function` must be a mapping if present. */
  function Unpack(call: Json): Result<Call>
  {
    if !call.JObj? then Raised(WrongType)
    else
      var d := call.members;
      var inner := GetOr(d, "function", JObj([]));
      if !inner.JObj? then Raised(WrongType)
      else
        var name := GetOr(d, "name", GetOr(inner.members, "name", JStr("unknown")));
        if !name.JStr? then Raised(WrongType)
        else Ok(Call(name.s, GetOr(d, "args", GetOr(d, "arguments", JObj([]))), GetOr(d, "id", JStr("unknown"))))
  }

  // ---------------------------------------------------------------- from a call to an event

  function RiskFor(c: Config, name: string): string
  {
    var category := if name in c.riskMap then Some(c.riskMap[name]) else GuessCategory(name);
    if category.Some? && category.value != "" then category.value else "medium"
  }

  function CapabilityFor(c: Config, name: string): string
  {
    if name in c.capabilityMap && c.capabilityMap[name] != "" then c.capabilityMap[name] else name + ".execute"
  }

  function EventOf(c: Config, call: Call): Result<ActionEvent>
  {
    CallEvent(c.agentId, CapabilityFor(c, call.name), RiskFor(c, call.name), call.arguments, call.name, "langgraph")
  }

  // ---------------------------------------------------------------- what the calls are

  /** Iterating over the value yields this call: an item of a list, a key of a mapping, or a letter of a text. */
  predicate Yields(j: Json, call: Json)
  {
    || (j.JList? && call in j.items)
    || (j.JObj? && call.JStr? && HasKey(j.members, call.s))
    || (j.JStr? && call.JStr? && |call.s| == 1 && call.s[0] in j.s)
  }

  /** The message, an object with tool calls or a mapping with that key, carries the call. */
  predicate Carries(m: Message, call: Json)
  {
    match m
    case Object(toolCalls) => toolCalls.Some? && Yields(toolCalls.value, call)
    case Mapping(d) => HasKey(d, "tool_calls") && Yields(Get(d, "tool_calls"), call)
  }

  /** The message has tool calls that cannot be iterated over. */
  predicate Unlistable(m: Message)
  {
    var calls := match m
      case Object(toolCalls) => toolCalls
      case Mapping(d) => if HasKey(d, "tool_calls") then Some(Get(d, "tool_calls")) else None;
    calls.Some? && !calls.value.JList? && !calls.value.JObj? && !calls.value.JStr?
  }

  lemma {:induction false} KeysListed(d: Dict, call: Json)
    ensures call in Keys(d) <==> call.JStr? && HasKey(d, call.s)
  {
    if d == [] {
    } else {
      var front, last := d[..|d| - 1], d[|d| - 1];
      KeysListed(front, call);
      assert d == front + [last];
      assert HasKey(front, last.0) || JStr(last.0) in Keys(d);
      if call.JStr? {
        HasKeySnoc(front, last, call.s);
      }
    }
  }

  lemma CallsAreCarried(m: Message, call: Json)
    ensures CallsOf(m).Raised? <==> Unlistable(m)
    ensures CallsOf(m).Ok? ==> (call in CallsOf(m).value <==> Carries(m, call))
  {
    hide Keys, HasKey;
    var calls := match m
      case Object(toolCalls) => toolCalls
      case Mapping(d) => if HasKey(d, "tool_calls") then Some(Get(d, "tool_calls")) else None;
    match calls {
      case Some(JObj(d)) => KeysListed(d, call);
      case Some(JStr(s)) =>
        if Yields(JStr(s), call) {
          var i :| 0 <= i < |s| && s[i] == call.s[0];
          assert Iterated(JStr(s)).value[i] == call;
        }
      case _ =>
    }
  }

  /** What is gated are exactly the calls that messages carry; extraction raises if and only if the calls of some
      message cannot be listed. */
  lemma {:induction false} ExtractedAreCarried(messages: seq<Message>, call: Json)
    ensures Extracted(messages).Raised? <==> exists m :: m in messages && Unlistable(m)
    ensures Extracted(messages).Ok? ==>
      (call in Extracted(messages).value <==> exists m :: m in messages && Carries(m, call))
  {
    hide CallsOf, Unlistable, Carries;
    if messages == [] {
    } else {
      var front, last := messages[..|messages| - 1], messages[|messages| - 1];
      assert messages == front + [last];
      ExtractedAreCarried(front, call);
      CallsAreCarried(last, call);
    }
  }

  /** Calls come in the order of the messages, and within a message in the order of its list. */
  lemma {:induction false} ExtractedInOrder(a: seq<Message>, b: seq<Message>, items: seq<Json>)
    requires Extracted(a).Ok? && Extracted(b).Ok?
    ensures Extracted(a + b) == Ok(Extracted(a).value + Extracted(b).value)
    ensures Extracted([Object(Some(JList(items)))]) == Ok(items)
    ensures Extracted([Mapping([("tool_calls", JList(items))])]) == Ok(items)
  {
    hide CallsOf;
    if b == [] {
      assert a + b == a && Extracted(b) == Ok([]);
      assert Extracted(a).value + [] == Extracted(a).value;
    } else {
      var n := |b| - 1;
      ExtractedInOrder(a, b[..n], items);
      assert (a + b)[..|a| + n] == a + b[..n] && (a + b)[|a| + n] == b[n];
      var front, more := Extracted(b[..n]).value, CallsOf(b[n]).value;
      assert Extracted(b).value == front + more;
      assert (Extracted(a).value + front) + more == Extracted(a).value + (front + more);
    }
    OneList(items);
  }

  lemma OneList(items: seq<Json>)
    ensures Extracted([Object(Some(JList(items)))]) == Ok(items)
    ensures Extracted([Mapping([("tool_calls", JList(items))])]) == Ok(items)
  {
    var d := [("tool_calls", JList(items))];
    assert d[0].0 == "tool_calls" && HasKey(d, "tool_calls") && Get(d, "tool_calls") == JList(items);
    assert Extracted([]) == Ok([]);
    assert [Mapping(d)][..0] == [] && [Object(Some(JList(items)))][..0] == [];
    assert [] + items == items;
  }

  /** What the gate is asked about a call, told from the call: for the agent, the capability configured for the tool or
      else the tool's name with `.execute`, with the arguments that the tool gets as payload. */
  lemma {:induction false} CallAsks(c: Config, d: Dict, name: string)
    requires Get(d, "name") == JStr(name) && Unpack(JObj(d)).Ok? && EventOf(c, Unpack(JObj(d)).value).Ok?
    ensures var u, e := Unpack(JObj(d)).value, EventOf(c, Unpack(JObj(d)).value).value;
      && u.name == name
      && u.arguments == (if HasKey(d, "args") then Get(d, "args") else GetOr(d, "arguments", JObj([])))
      && (Get(d, "id") != JNull ==> u.id == Get(d, "id"))
      && e.actor == c.agentId && e.environment == "production" && SessionOf(e) == None
      && RequiredCapability(e) == (if name in c.capabilityMap && c.capabilityMap[name] != "" then c.capabilityMap[name]
                                   else name + ".execute")
      && PolicyPayload(e) == (if u.arguments.JObj? then u.arguments.members else [])
      && Get(e.metadata, "tool_name") == JStr(name) && !Truthy(Get(e.metadata, "require_approval"))
      && (name in c.riskMap && c.riskMap[name] != "" ==> Some(e.risk) == NormalRisk(JStr(c.riskMap[name])))
      && (name !in c.riskMap ==> e.risk == JStr(LevelOfGuess(name)))
  {
    hide GuessCategory, NormalRisk, MakeEvent, CallMetadata, CallEvent, HasKey, LevelOfGuess;
    KeyOfValue(d, "name");
    if Get(d, "id") != JNull {
      KeyOfValue(d, "id");
    }
    var u := Unpack(JObj(d)).value;
    var capability, risk := CapabilityFor(c, name), RiskFor(c, name);
    CallEventOkIff(c.agentId, capability, risk, u.arguments, name, "langgraph");
    CallEventFields(c.agentId, capability, risk, u.arguments, name, "langgraph");
    CallIsJudgedAsMade(EventOf(c, u).value, capability, risk, u.arguments, name, "langgraph");
    CallMetadataLookup(capability, risk, u.arguments, name, "langgraph", "tool_name");
    CallMetadataLookup(capability, risk, u.arguments, name, "langgraph", "require_approval");
    GuessedLevel(name);
  }

  /** A call that names no tool itself is named by its `function`, or is unknown. */
  lemma {:induction false} NamedByFunction(d: Dict)
    requires !HasKey(d, "name") && Unpack(JObj(d)).Ok?
    ensures var name, inner := Unpack(JObj(d)).value.name, Get(d, "function");
      match inner
      case JObj(f) => JStr(name) == (if HasKey(f, "name") then Get(f, "name") else JStr("unknown"))
      case _ => name == "unknown"
  {
    if Get(d, "function") != JNull {
      KeyOfValue(d, "function");
    }
  }

  // ---------------------------------------------------------------- one call

  /** What became of a call. All but the last stop the run with an exception. */
  datatype Fate =
    | Failed(error: Exn)
    | Refused(v: Verdict)
    | NoSuchTool(call: Call, v: Verdict)
    | Crashed(call: Call, v: Verdict, error: Exn)
    | Answered(call: Call, v: Verdict, value: Json)

  /** The outcome of gating a call: no verdict, or one. */
  function Enforced(c: Config, g: Gate, s: State, call: Call, now: real, latency: int): (Result<Verdict>, State)
  {
    match EventOf(c, call)
    case Raised(x) => (Raised(x), s)
    case Ok(e) => Executed(g.world, g.keys, g.rules, false, s, e, now, latency)
  }

  /** What follows the gate: `k` tools were invoked before. */
  function FateAfter(c: Config, call: Call, r: Result<Verdict>, k: nat): Fate
  {
    match r
    case Raised(x) => Failed(x)
    case Ok(v) =>
      if !v.authorized then Refused(v)
      else if call.name !in c.tools then NoSuchTool(call, v)
      else
        match c.invoke(k, call.name, call.arguments)
        case Raised(x) => Crashed(call, v, x)
        case Ok(value) => Answered(call, v, value)
  }

  function FateOf(c: Config, g: Gate, s: State, k: nat, call: Json, now: real, latency: int): (Fate, State)
  {
    match Unpack(call)
    case Raised(x) => (Failed(x), s)
    case Ok(u) =>
      var (r, after) := Enforced(c, g, s, u, now, latency);
      (FateAfter(c, u, r, k), after)
  }

  // ---------------------------------------------------------------- a run

  datatype NodeRun = NodeRun(state: State, fates: seq<Fate>)

  predicate Stopped(r: NodeRun)
  {
    r.fates != [] && !r.fates[|r.fates| - 1].Answered?
  }

  /** What handling the k-th call in a state gives. */
  type Handler = (nat, State, Json) -> (Fate, State)

  /** Before the k-th call is handled others make their moves on the shared tables. */
  function Gating(c: Config, g: Gate, turns: nat -> Interlude): Handler
  {
    (k: nat, s: State, call: Json) => FateOf(c, g, Met(g, s, turns(k)), k, call, turns(k).now, turns(k).latency)
  }

  /** Calls are handled in order until one stops the run. */
  function Ran(h: Handler, s: State, calls: seq<Json>): NodeRun
  {
    if calls == [] then NodeRun(s, [])
    else
      var n := |calls| - 1;
      var was := Ran(h, s, calls[..n]);
      if Stopped(was) then was
      else
        var (fate, after) := h(n, was.state, calls[n]);
        NodeRun(after, was.fates + [fate])
  }

  predicate ReachedTool(f: Fate)
  {
    f.Crashed? || f.Answered?
  }

  function Invoked(fates: seq<Fate>): seq<Call>
  {
    if fates == [] then []
    else
      var f := fates[|fates| - 1];
      Invoked(fates[..|fates| - 1]) + if ReachedTool(f) then [f.call] else []
  }

  datatype CallResult = CallResult(callId: Json, toolName: string, value: Json)

  function Results(fates: seq<Fate>): seq<CallResult>
  {
    if fates == [] then []
    else
      var f := fates[|fates| - 1];
      Results(fates[..|fates| - 1]) + if f.Answered? then [CallResult(f.call.id, f.call.name, f.value)] else []
  }

  /** What was invoked since `before` and what was collected are what the fates call for. */
  ghost predicate Told(before: seq<Call>, fates: seq<Fate>, invoked: seq<Call>, results: seq<CallResult>)
  {
    invoked == before + Invoked(fates) && results == Results(fates)
  }

  lemma OneMore(before: seq<Call>, fates: seq<Fate>, invoked: seq<Call>, results: seq<CallResult>, f: Fate)
    requires Told(before, fates, invoked, results)
    ensures Told(before, fates + [f], invoked + if ReachedTool(f) then [f.call] else [],
                 results + if f.Answered? then [CallResult(f.call.id, f.call.name, f.value)] else [])
  {
    assert (fates + [f])[..|fates|] == fates;
  }

  class CapFenceToolNode {
    const gate: ActionRuntime
    const config: Config
    /** Every tool invocation so far. */
    var invoked: seq<Call>

    constructor (gate: ActionRuntime, config: Config)
      ensures this.gate == gate && this.config == config && invoked == []
    {
      this.gate, this.config, invoked := gate, config, [];
    }

    ghost function Gate(): Gate
      reads gate.caps
    {
      GateOf(gate)
    }

    ghost predicate Valid()
      reads gate.approvals
    {
      gate.Valid() && !gate.observe
    }

    static method ExtractCalls(messages: seq<Message>) returns (r: Result<seq<Json>>)
      ensures r == Extracted(messages)
    {
      var calls := [];
      for i := 0 to |messages|
        invariant Extracted(messages[..i]) == Ok(calls)
      {
        assert messages[..i + 1][..i] == messages[..i];
        var more := CallsOf(messages[i]);
        if more.Raised? {
          ExtractionStops(messages, i + 1);
          return Raised(more.error);
        }
        calls := calls + more.value;
      }
      assert messages[..|messages|] == messages;
      return Ok(calls);
    }

    method Enforce(call: Call, now: real, latency: int) returns (r: Result<Verdict>)
      requires Valid()
      modifies gate.approvals, gate.audit
      ensures Valid() && (r, gate.Now()) == Enforced(config, old(Gate()), old(gate.Now()), call, now, latency)
    {
      hide Executed;
      var event := EventOf(config, call);
      if event.Raised? {
        return Raised(event.error);
      }
      r := gate.Execute(event.value, now, latency);
    }

    /** The body of the loop for one call; `k` tools were invoked before in this run. */
    method Handle(call: Json, k: nat, now: real, latency: int) returns (fate: Fate)
      requires Valid()
      modifies this, gate.approvals, gate.audit
      ensures Valid() && (fate, gate.Now()) == FateOf(config, old(Gate()), old(gate.Now()), k, call, now, latency)
      ensures invoked == old(invoked) + if ReachedTool(fate) then [fate.call] else []
    {
      hide Enforced;
      var unpacked := Unpack(call);
      if unpacked.Raised? {
        return Failed(unpacked.error);
      }
      var u := unpacked.value;
      var verdict := Enforce(u, now, latency);
      if verdict.Raised? {
        return Failed(verdict.error);
      }
      if !verdict.value.authorized {
        return Refused(verdict.value);
      }
      if u.name !in config.tools {
        return NoSuchTool(u, verdict.value);
      }
      invoked := invoked + [u];
      var result := config.invoke(k, u.name, u.arguments);
      fate := if result.Raised? then Crashed(u, verdict.value, result.error)
          else Answered(u, verdict.value, result.value);
    }

    /** Before the k-th call others use the gate's tables; then it is handled. */
    method Turn(turns: nat -> Interlude, k: nat, call: Json) returns (fate: Fate)
      requires Valid()
      modifies this, gate.approvals, gate.audit
      ensures Valid() && (fate, gate.Now()) == Gating(config, old(Gate()), turns)(k, old(gate.Now()), call)
      ensures invoked == old(invoked) + if ReachedTool(fate) then [fate.call] else []
    {
      hide FateOf, After;
      var t := turns(k);
      var clock := MakeAll(gate, t.others, t.since);
      assert gate.Now() == Met(old(Gate()), old(gate.Now()), t);
      fate := Handle(call, k, t.now, t.latency);
    }

    /** The loop over the extracted calls. */
    method HandleAll(calls: seq<Json>, turns: nat -> Interlude)
      returns (results: seq<CallResult>, stop: Option<Fate>, ghost run: NodeRun)
      requires Valid()
      modifies this, gate.approvals, gate.audit
      ensures Valid() && gate.Now() == run.state
      ensures run == Ran(Gating(config, old(Gate()), turns), old(gate.Now()), calls)
      ensures stop == if Stopped(run) then Some(run.fates[|run.fates| - 1]) else None
      ensures Told(old(invoked), run.fates, invoked, results)
    {
      hide Gating;
      ghost var start, g, before := gate.Now(), Gate(), invoked;
      ghost var h := Gating(config, g, turns);
      results, run := [], NodeRun(start, []);
      for i := 0 to |calls|
        invariant Valid() && Gate() == g && gate.Now() == run.state
        invariant run == Ran(h, start, calls[..i]) && !Stopped(run) && |run.fates| == i
        invariant Told(before, run.fates, invoked, results)
      {
        ghost var had := invoked;
        var fate := Turn(turns, i, calls[i]);
        OneMore(before, run.fates, had, results, fate);
        run := OneCall(h, start, calls, i, fate, gate.Now());
        if !fate.Answered? {
          RunStops(h, start, calls, i + 1);
          return results, Some(fate), run;
        }
        results := results + [CallResult(fate.call.id, fate.call.name, fate.value)];
      }
      assert calls[..|calls|] == calls;
      return results, None, run;
    }

    /** Nothing is gated or invoked before all the calls have been extracted. */
    method Run(messages: seq<Message>, turns: nat -> Interlude)
      returns (results: seq<CallResult>, stop: Option<Fate>, ghost run: NodeRun)
      requires Valid()
      modifies this, gate.approvals, gate.audit
      ensures Valid() && gate.Now() == run.state
      ensures Extracted(messages).Raised? ==>
        run == NodeRun(old(gate.Now()), []) && stop == Some(Failed(Extracted(messages).error))
      ensures Extracted(messages).Ok? ==>
        && run == Ran(Gating(config, old(Gate()), turns), old(gate.Now()), Extracted(messages).value)
        && stop == if Stopped(run) then Some(run.fates[|run.fates| - 1]) else None
      ensures Told(old(invoked), run.fates, invoked, results)
    {
      hide Gating;
      var extracted := ExtractCalls(messages);
      if extracted.Raised? {
        return [], Some(Failed(extracted.error)), NodeRun(gate.Now(), []);
      }
      results, stop, run := HandleAll(extracted.value, turns);
    }
  }

  lemma {:induction false} ExtractionStops(messages: seq<Message>, n: nat)
    requires n <= |messages| && Extracted(messages[..n]).Raised?
    ensures Extracted(messages) == Raised(Extracted(messages[..n]).error)
    decreases |messages|
  {
    if n == |messages| {
      assert messages[..n] == messages;
    } else {
      assert messages[..|messages| - 1][..n] == messages[..n];
      ExtractionStops(messages[..|messages| - 1], n);
    }
  }

  lemma OneCall(h: Handler, s: State, calls: seq<Json>, i: nat, fate: Fate, after: State) returns (next: NodeRun)
    requires i < |calls|
    requires var was := Ran(h, s, calls[..i]); !Stopped(was) && (fate, after) == h(i, was.state, calls[i])
    ensures next == Ran(h, s, calls[..i + 1]) == NodeRun(after, Ran(h, s, calls[..i]).fates + [fate])
  {
    assert calls[..i + 1][..i] == calls[..i];
    next := Ran(h, s, calls[..i + 1]);
  }

  /** Nothing is handled after the run has stopped. */
  lemma {:induction false} RunStops(h: Handler, s: State, calls: seq<Json>, n: nat)
    requires n <= |calls| && Stopped(Ran(h, s, calls[..n]))
    ensures Ran(h, s, calls) == Ran(h, s, calls[..n])
    decreases |calls|
  {
    if n == |calls| {
      assert calls[..n] == calls;
    } else {
      assert calls[..|calls| - 1][..n] == calls[..n];
      RunStops(h, s, calls[..|calls| - 1], n);
    }
  }

  // ---------------------------------------------------------------- mediation

  /** The state after the calls before the k-th. */
  ghost function StateAt(h: Handler, s: State, calls: seq<Json>, k: nat): State
    requires k <= |calls|
  {
    Ran(h, s, calls[..k]).state
  }

  /** The state that call `k` meets at the gate, after what others did meanwhile. */
  ghost function StateMet(c: Config, g: Gate, s: State, calls: seq<Json>, turns: nat -> Interlude, k: nat): State
    requires k <= |calls|
  {
    Met(g, StateAt(Gating(c, g, turns), s, calls, k), turns(k))
  }

  lemma {:induction false} FatesAreAPrefix(h: Handler, s: State, calls: seq<Json>)
    ensures var r := Ran(h, s, calls); |r.fates| <= |calls| && (!Stopped(r) ==> |r.fates| == |calls|)
  {
    if calls == [] {
    } else {
      FatesAreAPrefix(h, s, calls[..|calls| - 1]);
    }
  }

  /** Every fate but the last is an answer. */
  ghost predicate AnsweredButLast(fates: seq<Fate>)
  {
    forall i :: 0 <= i < |fates| - 1 ==> fates[i].Answered?
  }

  lemma {:induction false} OnlyTheLastStops(h: Handler, s: State, calls: seq<Json>)
    ensures AnsweredButLast(Ran(h, s, calls).fates)
  {
    if calls == [] {
    } else {
      OnlyTheLastStops(h, s, calls[..|calls| - 1]);
    }
  }

  /** Each fate is the one its handler gives in the state the call meets. */
  lemma {:induction false} EveryCallIsHandledOnce(h: Handler, s: State, calls: seq<Json>, k: nat)
    requires k < |Ran(h, s, calls).fates|
    ensures k < |calls| && Ran(h, s, calls).fates[k] == h(k, StateAt(h, s, calls, k), calls[k]).0
  {
    var n := |calls| - 1;
    FatesAreAPrefix(h, s, calls[..n]);
    if k < |Ran(h, s, calls[..n]).fates| {
      EveryCallIsHandledOnce(h, s, calls[..n], k);
      assert calls[..n][..k] == calls[..k];
    }
  }

  /** The call is readable, its event is well-formed and authorized in this state, and the tool exists. */
  predicate MayInvoke(c: Config, g: Gate, s: State, call: Json, now: real)
  {
    && Unpack(call).Ok? && EventOf(c, Unpack(call).value).Ok?
    && Authorized(g.world, g.rules, s.store, EventOf(c, Unpack(call).value).value, now)
    && Unpack(call).value.name in c.tools
  }

  lemma FateFollowsGate(c: Config, g: Gate, s: State, k: nat, call: Json, now: real, latency: int)
    ensures var fate := FateOf(c, g, s, k, call, now, latency).0;
      && (ReachedTool(fate) <==> MayInvoke(c, g, s, call, now))
      && (ReachedTool(fate) ==> Unpack(call) == Ok(fate.call))
      && (fate.Answered? ==> c.invoke(k, fate.call.name, fate.call.arguments) == Ok(fate.value))
      && (fate.Crashed? ==> c.invoke(k, fate.call.name, fate.call.arguments) == Raised(fate.error))
  {
    hide Executed, Decide, CallEvent;
    if Unpack(call).Ok? && EventOf(c, Unpack(call).value).Ok? {
      ExecutionDecides(g.world, g.keys, g.rules, false, s, EventOf(c, Unpack(call).value).value, now, latency);
    }
  }

  lemma {:induction false} InvokedAt(fates: seq<Fate>)
    requires AnsweredButLast(fates)
    ensures |Invoked(fates)| == if fates == [] || ReachedTool(fates[|fates| - 1]) then |fates| else |fates| - 1
    ensures |Results(fates)| == if fates == [] || fates[|fates| - 1].Answered? then |fates| else |fates| - 1
    ensures forall i :: 0 <= i < |Invoked(fates)| ==> ReachedTool(fates[i]) && Invoked(fates)[i] == fates[i].call
    ensures forall i :: 0 <= i < |Results(fates)| ==>
      fates[i].Answered? && Results(fates)[i] == CallResult(fates[i].call.id, fates[i].call.name, fates[i].value)
  {
    if fates == [] {
    } else {
      InvokedAt(fates[..|fates| - 1]);
    }
  }

  /** What the fate of call `k` says about the call. */
  lemma {:induction false} FateAt(c: Config, g: Gate, s: State, calls: seq<Json>, turns: nat -> Interlude, k: nat)
    requires k < |Ran(Gating(c, g, turns), s, calls).fates|
    ensures var h := Gating(c, g, turns);
      var fate := Ran(h, s, calls).fates[k];
      && k < |calls|
      && (ReachedTool(fate) <==> MayInvoke(c, g, StateMet(c, g, s, calls, turns, k), calls[k], turns(k).now))
      && (ReachedTool(fate) ==> Unpack(calls[k]) == Ok(fate.call))
      && (fate.Answered? ==> c.invoke(k, fate.call.name, fate.call.arguments) == Ok(fate.value))
      && (fate.Crashed? ==> c.invoke(k, fate.call.name, fate.call.arguments) == Raised(fate.error))
  {
    var h := Gating(c, g, turns);
    EveryCallIsHandledOnce(h, s, calls, k);
    FateFollowsGate(c, g, StateMet(c, g, s, calls, turns, k), k, calls[k], turns(k).now, turns(k).latency);
  }

  /** The tool invocations are a prefix of the extracted calls, in order, every one authorized in the state it met. */
  lemma {:induction false} InvocationsAreAuthorized(c: Config, g: Gate, s: State, calls: seq<Json>,
          turns: nat -> Interlude, k: nat)
    requires k < |Invoked(Ran(Gating(c, g, turns), s, calls).fates)|
    ensures var h := Gating(c, g, turns);
      && k < |calls| && Unpack(calls[k]) == Ok(Invoked(Ran(h, s, calls).fates)[k])
      && MayInvoke(c, g, StateMet(c, g, s, calls, turns, k), calls[k], turns(k).now)
  {
    var h := Gating(c, g, turns);
    OnlyTheLastStops(h, s, calls);
    InvokedAt(Ran(h, s, calls).fates);
    FateAt(c, g, s, calls, turns, k);
  }

  /** The results are what the tools answered, in order, each under its call's id; every invocation but possibly
      the last has a result, and a run that did not stop has one for every call. */
  lemma {:induction false} ResultsAreAnswers(c: Config, g: Gate, s: State, calls: seq<Json>, turns: nat -> Interlude)
    ensures var r := Ran(Gating(c, g, turns), s, calls);
      var invoked, results := Invoked(r.fates), Results(r.fates);
      && |results| <= |invoked| <= |results| + 1 && (!Stopped(r) ==> |results| == |calls|)
      && forall k: nat :: k < |results| ==>
           && c.invoke(k, invoked[k].name, invoked[k].arguments) == Ok(results[k].value)
           && results[k].callId == invoked[k].id && results[k].toolName == invoked[k].name
  {
    hide Gating, MayInvoke, Ran;
    var h := Gating(c, g, turns);
    OnlyTheLastStops(h, s, calls);
    InvokedAt(Ran(h, s, calls).fates);
    FatesAreAPrefix(h, s, calls);
    forall k: nat | k < |Results(Ran(h, s, calls).fates)|
      ensures var fate := Ran(h, s, calls).fates[k]; c.invoke(k, fate.call.name, fate.call.arguments) == Ok(fate.value)
    {
      FateAt(c, g, s, calls, turns, k);
    }
  }

  /** Call `j` may be invoked in the state it meets and, unless it is call `k`, its tool does not raise. */
  ghost predicate Passes(c: Config, g: Gate, s: State, calls: seq<Json>, turns: nat -> Interlude, j: nat, k: nat)
    requires j <= k < |calls|
  {
    && MayInvoke(c, g, StateMet(c, g, s, calls, turns, j), calls[j], turns(j).now)
    && (j < k ==> c.invoke(j, Unpack(calls[j]).value.name, Unpack(calls[j]).value.arguments).Ok?)
  }

  lemma {:induction false} InvokedPasses(c: Config, g: Gate, s: State, calls: seq<Json>, turns: nat -> Interlude,
          j: nat, k: nat)
    requires j <= k < |calls| && k < |Invoked(Ran(Gating(c, g, turns), s, calls).fates)|
    ensures Passes(c, g, s, calls, turns, j, k)
  {
    InvocationsAreAuthorized(c, g, s, calls, turns, j);
    ResultsAreAnswers(c, g, s, calls, turns);
  }

  /** A call before which nothing goes wrong is handled. */
  lemma {:induction false} CallIsHandled(c: Config, g: Gate, s: State, calls: seq<Json>, turns: nat -> Interlude,
          k: nat)
    requires k < |calls| && forall j: nat :: j < k ==> Passes(c, g, s, calls, turns, j, k)
    ensures k < |Ran(Gating(c, g, turns), s, calls).fates|
  {
    var h := Gating(c, g, turns);
    FatesAreAPrefix(h, s, calls);
    var fates := Ran(h, s, calls).fates;
    if |fates| <= k {
      var last := |fates| - 1;
      assert Passes(c, g, s, calls, turns, last, k);
      FateAt(c, g, s, calls, turns, last);
      assert false;
    }
  }

  lemma {:induction false} ReachedIsInvoked(h: Handler, s: State, calls: seq<Json>, k: nat)
    requires k < |Ran(h, s, calls).fates| && ReachedTool(Ran(h, s, calls).fates[k])
    ensures k < |Invoked(Ran(h, s, calls).fates)|
  {
    OnlyTheLastStops(h, s, calls);
    InvokedAt(Ran(h, s, calls).fates);
  }

  lemma {:induction false} PassingIsReached(c: Config, g: Gate, s: State, calls: seq<Json>, turns: nat -> Interlude,
          k: nat)
    requires k < |calls| && forall j: nat :: j <= k ==> Passes(c, g, s, calls, turns, j, k)
    ensures k < |Ran(Gating(c, g, turns), s, calls).fates|
    ensures ReachedTool(Ran(Gating(c, g, turns), s, calls).fates[k])
  {
    CallIsHandled(c, g, s, calls, turns, k);
    assert Passes(c, g, s, calls, turns, k, k);
    FateAt(c, g, s, calls, turns, k);
  }

  /** Exactly when call `k` reaches its tool: every call up to it may be invoked, and no earlier tool raised. */
  lemma {:induction false} InvokedIff(c: Config, g: Gate, s: State, calls: seq<Json>, turns: nat -> Interlude, k: nat)
    requires k < |calls|
    ensures k < |Invoked(Ran(Gating(c, g, turns), s, calls).fates)|
            <==> forall j: nat :: j <= k ==> Passes(c, g, s, calls, turns, j, k)
  {
    if k < |Invoked(Ran(Gating(c, g, turns), s, calls).fates)| {
      forall j: nat | j <= k
        ensures Passes(c, g, s, calls, turns, j, k)
      {
        InvokedPasses(c, g, s, calls, turns, j, k);
      }
    } else if forall j: nat :: j <= k ==> Passes(c, g, s, calls, turns, j, k) {
      PassingIsReached(c, g, s, calls, turns, k);
      ReachedIsInvoked(Gating(c, g, turns), s, calls, k);
    }
  }

  // ---------------------------------------------------------------- audit

  /** The verdict of a call that got one. */
  function FateVerdict(f: Fate): seq<Verdict>
  {
    if f.Failed? then [] else [f.v]
  }

  /** The verdicts given around one call: those of others, then its own. */
  function TurnVerdicts(g: Gate, s: State, t: Interlude, f: Fate): seq<Verdict>
  {
    Completed(g, Sys(s, t.since), t.others) + FateVerdict(f)
  }

  /** All verdicts of a run, in order. */
  function RunVerdicts(g: Gate, h: Handler, s: State, calls: seq<Json>, turns: nat -> Interlude): seq<Verdict>
  {
    if calls == [] then []
    else
      var n := |calls| - 1;
      var was := Ran(h, s, calls[..n]);
      RunVerdicts(g, h, s, calls[..n], turns)
      + if Stopped(was) then [] else TurnVerdicts(g, was.state, turns(n), h(n, was.state, calls[n]).0)
  }

  lemma EnforcedLogs(c: Config, g: Gate, s: State, call: Call, now: real, latency: int)
    ensures var (r, after) := Enforced(c, g, s, call, now, latency);
      Logs(g, s.log.rows, after.log.rows, VerdictOf(r))
  {
    hide Executed, CallEvent;
    if EventOf(c, call).Ok? {
      ExecutionLogsVerdict(g, s, EventOf(c, call).value, now, latency);
    }
  }

  lemma FateLogs(c: Config, g: Gate, s: State, k: nat, call: Json, now: real, latency: int)
    ensures var (fate, after) := FateOf(c, g, s, k, call, now, latency);
      && Logs(g, s.log.rows, after.log.rows, FateVerdict(fate))
      && (!fate.Failed? ==> (fate.v.authorized <==> !fate.Refused?))
  {
    hide Enforced;
    if Unpack(call).Ok? {
      EnforcedLogs(c, g, s, Unpack(call).value, now, latency);
    }
  }

  lemma TurnLogs(c: Config, g: Gate, s: State, t: Interlude, k: nat, call: Json)
    ensures var (fate, after) := FateOf(c, g, Met(g, s, t), k, call, t.now, t.latency);
      Logs(g, s.log.rows, after.log.rows, TurnVerdicts(g, s, t, fate))
  {
    hide FateOf, After, Completed;
    var (fate, after) := FateOf(c, g, Met(g, s, t), k, call, t.now, t.latency);
    RunsAreRecorded(g, Sys(s, t.since), t.others);
    FateLogs(c, g, Met(g, s, t), k, call, t.now, t.latency);
    LogsCompose(g, s.log.rows, Met(g, s, t).log.rows, after.log.rows,
      Completed(g, Sys(s, t.since), t.others), FateVerdict(fate));
  }

  /** If each turn logs its verdicts, so does the run. */
  lemma {:induction false} TurnsCompose(g: Gate, h: Handler, s: State, calls: seq<Json>, turns: nat -> Interlude)
    requires forall k: nat, st: State, call: Json ::
      Logs(g, st.log.rows, h(k, st, call).1.log.rows, TurnVerdicts(g, st, turns(k), h(k, st, call).0))
    ensures Logs(g, s.log.rows, Ran(h, s, calls).state.log.rows, RunVerdicts(g, h, s, calls, turns))
  {
    if calls == [] {
    } else {
      var n := |calls| - 1;
      TurnsCompose(g, h, s, calls[..n], turns);
      var was := Ran(h, s, calls[..n]);
      if !Stopped(was) {
        var (fate, after) := h(n, was.state, calls[n]);
        LogsCompose(g, s.log.rows, was.state.log.rows, after.log.rows,
          RunVerdicts(g, h, s, calls[..n], turns), TurnVerdicts(g, was.state, turns(n), fate));
      }
    }
  }

  /** A run and what others do during it write one audit row per verdict, in order; a call that fails before its
      verdict leaves none. */
  lemma {:induction false} RunIsAudited(c: Config, g: Gate, s: State, calls: seq<Json>, turns: nat -> Interlude)
    ensures var h := Gating(c, g, turns);
      Logs(g, s.log.rows, Ran(h, s, calls).state.log.rows, RunVerdicts(g, h, s, calls, turns))
  {
    hide FateOf, After, Completed;
    var h := Gating(c, g, turns);
    forall k: nat, st: State, call: Json
      ensures Logs(g, st.log.rows, h(k, st, call).1.log.rows,
              TurnVerdicts(g, st, turns(k), h(k, st, call).0))
    {
      TurnLogs(c, g, st, turns(k), k, call);
    }
    TurnsCompose(g, h, s, calls, turns);
  }

  /** The row of a call says "pass" exactly when the gate let it through. */
  lemma {:induction false} RowsSayWhatPassed(c: Config, g: Gate, s: State, calls: seq<Json>, turns: nat -> Interlude,
          k: nat)
    requires k < |Ran(Gating(c, g, turns), s, calls).fates|
    ensures var fate := Ran(Gating(c, g, turns), s, calls).fates[k];
      FateVerdict(fate) != [] ==> (FateVerdict(fate)[0].authorized <==> !fate.Refused?)
  {
    hide FateOf, After;
    EveryCallIsHandledOnce(Gating(c, g, turns), s, calls, k);
    FateLogs(c, g, StateMet(c, g, s, calls, turns, k), k, calls[k], turns(k).now, turns(k).latency);
  }
}
