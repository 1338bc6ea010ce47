/** Action events and verdicts, capfence/core/runtime.py:18-146. */
module Events {
  import opened Json

  /** String and number facts of Python that are outside this model, as total functions:
      `mentions(p, s)` is `s.lower() in str(p).lower()`, `search(p, re)` is `re.search(re,
          " ".join(map(str, p.values())))`,
      `glob` is `fnmatch.fnmatchcase`, `number` is `float(s)` (None for ValueError), `render` is `str` of
      anything but a string, and `idText` is the text of a fresh uuid. */
  datatype Text = Text(
    mentions: (Dict, string) -> bool,
    search: (Dict, string) -> bool,
    glob: (string, string) -> bool,
    number: string -> Option<real>,
    render: Json -> string,
    idText: nat -> string)

  function Str(t: Text, j: Json): string
  {
    if j.JStr? then j.s else t.render(j)
  }

  /** `float(j)`, None when it raises TypeError or ValueError. */
  function Float(t: Text, j: Json): Option<real>
  {
    match j
    case JBool(b) => Some(if b then 1.0 else 0.0)
    case JInt(i) => Some(i as real)
    case JReal(r) => Some(r)
    case JStr(s) => t.number(s)
    case _ => None
  }

  /** `isinstance(j, (int, float))`; a Python bool is an int. */
  predicate IsNumber(j: Json)
  {
    j.JBool? || j.JInt? || j.JReal?
  }

  function NumberValue(j: Json): real
    requires IsNumber(j)
  {
    match j
    case JBool(b) => if b then 1.0 else 0.0
    case JInt(i) => i as real
    case JReal(r) => r
  }

  /** What converts to a number: numbers and truth values to what they are, and texts that can be read as one. */
  lemma ConvertsIff(t: Text, j: Json)
    ensures Float(t, j).Some? <==> IsNumber(j) || (j.JStr? && t.number(j.s).Some?)
    ensures IsNumber(j) ==> Float(t, j) == Some(NumberValue(j))
    ensures j.JStr? ==> Float(t, j) == t.number(j.s)
  {
  }

  datatype ActionEvent = ActionEvent(
    actor: string, action: string, resource: string, environment: string, risk: Json, metadata: Dict)

  datatype Result<+T> = Ok(value: T) | Raised(error: Exn)

  datatype Exn =
    | InvalidEvent
    | PolicyLoadError
    | FileMissing
    | NotYamlText
    | InvalidCapability(text: string)
    /** A TypeError or an AttributeError: a value is not of the type that the code expects. */
    | WrongType

  const RISK_LEVELS: set<string> := {"low", "medium", "high", "critical"}

  /** The legacy risk categories and the level each one becomes. */
  function LegacyRisk(s: string): Option<string>
  {
    if s == "command_execution" || s == "execute" then Some("critical")
    else if s == "payment_initiation" || s == "delete" then Some("high")
    else if s == "write" then Some("medium")
    else if s == "read_only" || s == "read" then Some("low")
    else None
  }

  /** The risk an event keeps: a level is kept as written, a legacy category is replaced by its level. */
  function NormalRisk(risk: Json): Option<Json>
  {
    if risk.JStr? then
      if Lower(risk.s) in RISK_LEVELS then Some(risk)
      else
        match LegacyRisk(Lower(risk.s))
        case Some(level) => Some(JStr(level))
        case None => None
    else if IsNumber(risk) && NumberValue(risk) >= 0.0 then Some(risk)
    else None
  }

  /** Which texts are risks, in any case of letters: a level is kept as it is written, a legacy category becomes the
      level it stands for, and no other text is one. */
  lemma {:induction false} TextualRisks(s: string, named: string)
    requires SameLetters(s, named) && NoCapitals(named)
    ensures var risk := NormalRisk(JStr(s));
      if named in {"low", "medium", "high", "critical"} then risk == Some(JStr(s))
      else if named in {"command_execution", "execute"} then risk == Some(JStr("critical"))
      else if named in {"payment_initiation", "delete"} then risk == Some(JStr("high"))
      else if named == "write" then risk == Some(JStr("medium"))
      else if named in {"read_only", "read"} then risk == Some(JStr("low"))
      else risk == None
  {
    hide Lower;
    LowerIsTheOneWithoutCapitals(s, named);
  }

  /** And of the other values numbers are risks, unless they are negative. */
  lemma OtherRisks(risk: Json)
    requires !risk.JStr?
    ensures NormalRisk(risk) == (if IsNumber(risk) && !(NumberValue(risk) < 0.0) then Some(risk) else None)
  {
  }

  const METADATA_KEYS: set<string> := {
    "session_id", "scope", "payload", "require_approval", "risk_category",
    "payload_hash", "threshold", "latency_ms", "decision", "reason",
    "timestamp", "entry_hash", "signature", "policy_decision", "verdict", "id",
    "caller_depth", "capability", "tool_name", "risk_level", "framework"}

  const STRING_KEYS: set<string> := {
    "session_id", "scope", "payload_hash", "capability", "tool_name", "risk_level", "framework"}

  predicate ValidMember(k: string, v: Json)
  {
    && k in METADATA_KEYS
    && (k in STRING_KEYS ==> v.JNull? || v.JStr?)
    && (k == "payload" ==> v.JNull? || v.JObj?)
    && (k == "require_approval" ==> v.JNull? || v.JBool?)
    && (k == "latency_ms" ==> v.JNull? || IsNumber(v))
  }

  predicate ValidMetadata(d: Dict)
  {
    forall i :: 0 <= i < |d| ==> ValidMember(d[i].0, Get(d, d[i].0))
  }

  predicate NonEmptyString(j: Json)
  {
    j.JStr? && j.s != ""
  }

  /** The constructor and its checks. */
  function MakeEvent(actor: Json, action: Json, resource: Json, environment: Json, risk: Json,
          metadata: Dict): Result<ActionEvent>
  {
    if !(NonEmptyString(actor) && NonEmptyString(action) && NonEmptyString(resource) && NonEmptyString(environment))
       || NormalRisk(risk).None? || !ValidMetadata(metadata)
    then Raised(InvalidEvent)
    else Ok(ActionEvent(actor.s, action.s, resource.s, environment.s, NormalRisk(risk).value, metadata))
  }

  /** What every constructed event satisfies. */
  predicate ValidEvent(e: ActionEvent)
  {
    && e.actor != "" && e.action != "" && e.resource != "" && e.environment != ""
    && NormalRisk(e.risk) == Some(e.risk)
    && ValidMetadata(e.metadata)
  }

  lemma MadeEventsAreValid(actor: Json, action: Json, resource: Json, environment: Json, risk: Json, metadata: Dict)
    ensures var r := MakeEvent(actor, action, resource, environment, risk, metadata);
      r.Ok? ==> ValidEvent(r.value)
  {
    assert Lower("low") == "low" && Lower("medium") == "medium" && Lower("high") == "high";
    assert Lower("critical") == "critical";
  }

  /** And these are exactly the events that the constructor makes of their own parts. */
  lemma ValidIffKept(e: ActionEvent)
    ensures ValidEvent(e) <==>
      MakeEvent(JStr(e.actor), JStr(e.action), JStr(e.resource), JStr(e.environment), e.risk, e.metadata) == Ok(e)
  {
  }

  /** Checked metadata has allowed keys only, and each that has a type holds null or a value of it. */
  lemma {:induction false} MetadataTypes(d: Dict, k: string)
    requires ValidMetadata(d) && Get(d, k) != JNull
    ensures k in METADATA_KEYS
    ensures k in {"session_id", "scope", "payload_hash", "capability", "tool_name", "risk_level", "framework"} ==>
      Get(d, k).JStr?
    ensures k == "payload" ==> Get(d, k).JObj?
    ensures k == "require_approval" ==> Get(d, k).JBool?
    ensures k == "latency_ms" ==> Get(d, k).JBool? || Get(d, k).JInt? || Get(d, k).JReal?
  {
    CheckedLookup(d, k);
  }

  /** Looking a key of checked metadata up gives null or a value of the type the key allows. */
  lemma {:induction false} CheckedLookup(d: Dict, k: string)
    requires ValidMetadata(d)
    ensures Get(d, k).JNull? || ValidMember(k, Get(d, k))
  {
    if i :| 0 <= i < |d| && d[i].0 == k {
    } else {
      AbsentKey(d, k);
    }
  }

  lemma {:induction false} AbsentKey(d: Dict, k: string)
    requires forall i :: 0 <= i < |d| ==> d[i].0 != k
    ensures Get(d, k) == JNull
  {
    if d == [] {
    } else {
      AbsentKey(d[..|d| - 1], k);
    }
  }

  lemma {:induction false} KeyOfValue(d: Dict, k: string)
    requires Get(d, k) != JNull
    ensures HasKey(d, k) && forall default :: GetOr(d, k, default) == Get(d, k)
  {
    if !HasKey(d, k) {
      AbsentKey(d, k);
    }
  }

  /** The decision texts "allow", "deny" and "require_approval". */
  datatype Decision = Permit | Refuse | Hold

  datatype Verdict = Verdict(
    authorized: bool, decision: Decision, reason: string, event: ActionEvent, timestamp: real,
    approvalId: Option<nat>, latencyMs: int, requiredCapability: string, observeMode: bool)
}
