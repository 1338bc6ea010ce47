/** What the adapters share: the keyword guess of capfence/framework/_risk.py, of which capfence/mcp/gateway.py has
    its own copy, and the event an adapter makes of a tool call. */
module Adapters {
  import opened Json
  import opened Events
  import opened Capabilities
  import opened Runtime

  predicate Mentions(name: string, parts: seq<string>)
  {
    exists p :: p in parts && HasSubstring(name, p)
  }

  const SHELL := ["shell", "exec", "run", "command", "bash", "sh"]
  const PAYMENT := ["pay", "transfer", "send", "disburse", "stripe"]
  const DELETION := ["delete", "remove", "drop", "wipe"]
  const WRITING := ["write", "update", "modify", "patch"]
  const READING := ["read", "get", "list", "view", "query"]

  function GuessCategory(toolName: string): Option<string>
  {
    var name := Lower(toolName);
    if Mentions(name, SHELL) then Some("command_execution")
    else if Mentions(name, PAYMENT) then Some("payment_initiation")
    else if Mentions(name, DELETION) then Some("delete")
    else if Mentions(name, WRITING) then Some("write")
    else if Mentions(name, READING) then Some("read_only")
    else None
  }

  /** The table of capfence/framework/_risk.py, in its order. */
  const KEYWORDS: seq<(string, set<string>)> := [
    ("command_execution", {"shell", "exec", "run", "command", "bash", "sh"}),
    ("payment_initiation", {"pay", "transfer", "send", "disburse", "stripe"}),
    ("delete", {"delete", "remove", "drop", "wipe"}),
    ("write", {"write", "update", "modify", "patch"}),
    ("read_only", {"read", "get", "list", "view", "query"})]

  /** The name has a keyword of category `i` in it, in any case of letters, and none of the categories before. */
  predicate FirstKeyword(toolName: string, i: int)
  {
    && 0 <= i < |KEYWORDS| && (exists k :: k in KEYWORDS[i].1 && HasSubstring(Lower(toolName), k))
    && forall j :: 0 <= j < i ==> !exists k :: k in KEYWORDS[j].1 && HasSubstring(Lower(toolName), k)
  }

  /** The guessed category is the first with a keyword in the name. */
  lemma {:induction false} GuessIsFirstKeyword(toolName: string)
    ensures forall i :: FirstKeyword(toolName, i) ==> GuessCategory(toolName) == Some(KEYWORDS[i].0)
    ensures GuessCategory(toolName) == None <==> forall i :: !FirstKeyword(toolName, i)
  {
    hide Mentions, HasSubstring, Lower;
    KeywordsMentioned(Lower(toolName));
    if GuessCategory(toolName).Some? {
      var i :| 0 <= i < 5 && KEYWORDS[i].0 == GuessCategory(toolName).value;
      assert FirstKeyword(toolName, i);
    }
  }

  lemma KeywordsMentioned(name: string)
    ensures Mentions(name, SHELL) <==> exists k :: k in KEYWORDS[0].1 && HasSubstring(name, k)
    ensures Mentions(name, PAYMENT) <==> exists k :: k in KEYWORDS[1].1 && HasSubstring(name, k)
    ensures Mentions(name, DELETION) <==> exists k :: k in KEYWORDS[2].1 && HasSubstring(name, k)
    ensures Mentions(name, WRITING) <==> exists k :: k in KEYWORDS[3].1 && HasSubstring(name, k)
    ensures Mentions(name, READING) <==> exists k :: k in KEYWORDS[4].1 && HasSubstring(name, k)
  {
    hide HasSubstring;
  }

  /** The event of a call: the capability up to its first dot is the resource, the rest the action. */
  function CallEvent(agentId: string, capability: string, risk: string, payload: Json, toolName: string,
          framework: string): Result<ActionEvent>
  {
    var parts := Split(capability, 1);
    MakeEvent(JStr(agentId), JStr(if |parts| > 1 then parts[1]
        else "execute"), JStr(parts[0]), JStr("production"), JStr(risk),
              CallMetadata(capability, risk, payload, toolName, framework))
  }

  function CallMetadata(capability: string, risk: string, payload: Json, toolName: string, framework: string): Dict
  {
    [("payload", payload), ("capability", JStr(capability)), ("tool_name", JStr(toolName)),
     ("risk_level", JStr(risk)), ("framework", JStr(framework))]
  }

  lemma {:induction false} CallMetadataLookup(capability: string, risk: string, payload: Json, toolName: string,
          framework: string, k: string)
    ensures Get(CallMetadata(capability, risk, payload, toolName, framework), k) ==
      if k == "payload" then payload
      else if k == "capability" then JStr(capability)
      else if k == "tool_name" then JStr(toolName)
      else if k == "risk_level" then JStr(risk)
      else if k == "framework" then JStr(framework)
      else JNull
  {
    var d := CallMetadata(capability, risk, payload, toolName, framework);
    assert d[..1] == Put([], "payload", payload) && d[..2] == Put(d[..1], "capability", JStr(capability));
    assert d[..3] == Put(d[..2], "tool_name", JStr(toolName)) && d[..4] == Put(d[..3], "risk_level", JStr(risk));
    assert d == Put(d[..4], "framework", JStr(framework));
    GetAppended([], "payload", payload, k);
    GetAppended(d[..1], "capability", JStr(capability), k);
    GetAppended(d[..2], "tool_name", JStr(toolName), k);
    GetAppended(d[..3], "risk_level", JStr(risk), k);
    GetAppended(d[..4], "framework", JStr(framework), k);
  }

  /** No part of the capability is empty, as texts that start or end at their only dot are. */
  predicate Nameable(capability: string)
  {
    Split(capability, 1)[0] != "" && (|Split(capability, 1)| > 1 ==> Split(capability, 1)[1] != "")
  }

  lemma NameableAt(s: string, d: nat)
    requires 0 < d < |s| - 1 && s[d] == '.' && NoDot(s[..d])
    ensures Nameable(s)
  {
    assert s == s[..d] + "." + s[d + 1..];
    DotAfter(s[..d], s[d + 1..]);
  }

  /** A call gets an event exactly when the agent has a name, the capability has no empty part, the risk is known and
      the payload is a mapping or null. */
  lemma CallEventOkIff(agentId: string, capability: string, risk: string, payload: Json, toolName: string,
          framework: string)
    ensures CallEvent(agentId, capability, risk, payload, toolName, framework).Ok? <==>
      agentId != "" && Nameable(capability) && NormalRisk(JStr(risk)).Some? && (payload.JNull? || payload.JObj?)
  {
    CallMetadataValidIff(capability, risk, payload, toolName, framework);
  }

  lemma CallMetadataValidIff(capability: string, risk: string, payload: Json, toolName: string, framework: string)
    ensures ValidMetadata(CallMetadata(capability, risk, payload, toolName, framework))
            <==> payload.JNull? || payload.JObj?
  {
    var d := CallMetadata(capability, risk, payload, toolName, framework);
    forall i | 0 <= i < |d|
      ensures ValidMember(d[i].0, Get(d, d[i].0)) <==> i != 0 || payload.JNull? || payload.JObj?
    {
      CallMetadataLookup(capability, risk, payload, toolName, framework, d[i].0);
    }
    assert ValidMetadata(d) ==> ValidMember(d[0].0, Get(d, d[0].0));
  }

  /** Resource and action spell the capability where it has a dot. */
  lemma {:induction false} CapabilitySpelled(capability: string)
    ensures var parts := Split(capability, 1);
      if Dot(capability, 0) < |capability| then |parts| == 2 && parts[0] + "." + parts[1] == capability
      else parts == [capability]
  {
    SplitJoin(capability, 1);
  }

  lemma {:induction false} CallEventFields(agentId: string, capability: string, risk: string, payload: Json,
          toolName: string, framework: string)
    requires CallEvent(agentId, capability, risk, payload, toolName, framework).Ok?
    ensures var e := CallEvent(agentId, capability, risk, payload, toolName, framework).value;
      && e.actor == agentId && e.environment == "production" && Some(e.risk) == NormalRisk(JStr(risk))
      && e.resource == Split(capability, 1)[0]
      && e.action == (if |Split(capability, 1)| > 1 then Split(capability, 1)[1] else "execute")
      && e.metadata == CallMetadata(capability, risk, payload, toolName, framework)
  {
  }

  /** The gate judges a call by exactly the capability and payload the adapter chose, for no session. */
  lemma CallIsJudgedAsMade(e: ActionEvent, capability: string, risk: string, payload: Json, toolName: string,
          framework: string)
    requires e.metadata == CallMetadata(capability, risk, payload, toolName, framework)
    ensures RequiredCapability(e) == capability && SessionOf(e) == None
    ensures payload.JObj? ==> PolicyPayload(e) == payload.members
    ensures payload.JNull? ==> PolicyPayload(e) == []
  {
    CallMetadataLookup(capability, risk, payload, toolName, framework, "capability");
    CallMetadataLookup(capability, risk, payload, toolName, framework, "payload");
    CallMetadataLookup(capability, risk, payload, toolName, framework, "session_id");
  }

  /** The risk level that a guessed category stands for. */
  function LevelOf(category: string): string
  {
    if category == "command_execution" then "critical"
    else if category == "payment_initiation" || category == "delete" then "high"
    else if category == "write" then "medium"
    else "low"
  }

  function LevelOfGuess(toolName: string): string
  {
    match GuessCategory(toolName)
    case Some(category) => LevelOf(category)
    case None => "medium"
  }

  /** A guessed category is always a known risk, so a guess never refuses a call; its level is fixed. */
  lemma GuessedLevel(toolName: string)
    ensures var guess := GuessCategory(toolName);
      && NormalRisk(JStr(if guess.Some? then guess.value else "medium")) == Some(JStr(LevelOfGuess(toolName)))
      && guess != Some("")
  {
    hide Mentions, NormalRisk;
    CategoriesAreRisks();
  }

  lemma CategoriesAreRisks()
    ensures NormalRisk(JStr("command_execution")) == Some(JStr("critical"))
    ensures NormalRisk(JStr("payment_initiation")) == NormalRisk(JStr("delete")) == Some(JStr("high"))
    ensures NormalRisk(JStr("write")) == NormalRisk(JStr("medium")) == Some(JStr("medium"))
    ensures NormalRisk(JStr("read_only")) == Some(JStr("low"))
  {
    assert Lower("command_execution") == "command_execution" && Lower("payment_initiation") == "payment_initiation";
    assert Lower("delete") == "delete" && Lower("write") == "write" && Lower("read_only") == "read_only";
    assert Lower("medium") == "medium";
  }
}
