/** Replaying recorded events in a sandbox, capfence/core/replay.py. */
module Replay {
  import opened Json
  import opened Events
  import opened Approvals
  import opened Audit
  import AuditRuns
  import opened Runtime
  import CapabilitySystem
  import opened PolicyLoader

  // ---------------------------------------------------------------- reading a trace entry

  const RESERVED: set<string> :=
    {"actor", "agent_id", "action", "tool_name", "resource", "risk_category", "environment", "risk", "risk_score",
        "metadata"}

  /** The members that are bundled under metadata. */
  function Others(raw: Dict): Dict
  {
    if raw == [] then []
    else Others(raw[..|raw| - 1]) + if raw[|raw| - 1].0 in RESERVED then [] else [raw[|raw| - 1]]
  }

  function ParseEvent(raw: Dict): Result<ActionEvent>
  {
    var metadata := Get(raw, "metadata");
    if Truthy(metadata) && !metadata.JObj? then Raised(WrongType)
    else
      MakeEvent(
        Or(Or(Get(raw, "actor"), Get(raw, "agent_id")), JStr("trace-replay")),
        Or(Or(Get(raw, "action"), Get(raw, "tool_name")), JStr("execute")),
        Or(Or(Get(raw, "resource"), Get(raw, "risk_category")), JStr("system")),
        Or(Get(raw, "environment"), JStr("production")),
        Or(Or(Get(raw, "risk"), Get(raw, "risk_score")), JStr("low")),
        (if Truthy(metadata) then metadata.members else []) + Others(raw))
  }

  /** The recorded outcome of an entry, null when there is none. */
  function Original(raw: Dict): Json
  {
    Or(Get(raw, "decision"), Get(raw, "original_decision"))
  }

  predicate MeansPass(text: string)
  {
    Lower(text) == "pass" || Lower(text) == "allow" || Lower(text) == "authorized"
  }

  predicate Differs(original: Json, authorized: bool)
  {
    original.JStr? && original.s != "" && authorized != MeansPass(original.s)
  }

  // ---------------------------------------------------------------- the summary

  datatype EventResult = EventResult(
    event: ActionEvent, original: Json, decision: Decision, reason: string, authorized: bool, differs: bool)

  datatype Summary = Summary(
    total: nat, authorized: nat, blocked: nat, requireApproval: nat, diffs: nat, results: seq<EventResult>)

  const EMPTY_SUMMARY := Summary(0, 0, 0, 0, 0, [])

  function Add(s: Summary, r: EventResult): Summary
  {
    Summary(
      s.total + 1,
      if r.authorized then s.authorized + 1 else s.authorized,
      if r.authorized then s.blocked else s.blocked + 1,
      if r.decision == Hold then s.requireApproval + 1 else s.requireApproval,
      if r.differs then s.diffs + 1 else s.diffs,
      s.results + [r])
  }

  datatype Evidence = Evidence(total: nat, failClosedRate: real, supervisedRatio: real, drift: nat, compliant: bool)

  /** `_generate_compliance_evidence`, with the rates as exact percentages. */
  function EvidenceOf(s: Summary): Evidence
  {
    var total := if s.total > 1 then s.total else 1;
    Evidence(s.total, s.blocked as real / total as real * 100.0, s.requireApproval as real / total as real * 100.0,
             s.diffs, s.diffs == 0)
  }

  // ---------------------------------------------------------------- replaying

  /** What a replay runs on: the primitives, the rules, the mode, and the clock readings and latencies of its
      events. The sandbox does not sign its audit rows. */
  datatype Sandbox = Sandbox(world: World, rules: Rulebook, observe: bool, clock: nat -> real, latency: nat -> int)

  function ReplayOne(x: Sandbox, s: State, raw: Dict, now: real, latency: int): Result<(State, EventResult)>
  {
    match ParseEvent(raw)
    case Raised(err) => Raised(err)
    case Ok(e) =>
      match Executed(x.world, None, x.rules, x.observe, s, e, now, latency)
      case (Raised(err), _) => Raised(err)
      case (Ok(v), after) =>
        var original := Original(raw);
        if Truthy(original) && !original.JStr? then Raised(WrongType)
        else Ok((after, EventResult(e, original, v.decision, v.reason, v.authorized, Differs(original, v.authorized))))
  }

  /** The replay of a trace from a state; the first exception ends it. */
  function ReplayAll(x: Sandbox, s: State, raws: seq<Dict>): Result<(State, Summary)>
  {
    if raws == [] then Ok((s, EMPTY_SUMMARY))
    else
      var n := |raws| - 1;
      match ReplayAll(x, s, raws[..n])
      case Raised(err) => Raised(err)
      case Ok((was, summary)) =>
        match ReplayOne(x, was, raws[n], x.clock(n), x.latency(n))
        case Raised(err) => Raised(err)
        case Ok((after, r)) => Ok((after, Add(summary, r)))
  }

  const EMPTY_LOG := AuditRuns.Table([], 1)

  function SandboxState(source: Store): State
  {
    State(source, EMPTY_LOG)
  }

  class ReplayEngine {
    const runtime: ActionRuntime

    constructor (runtime: ActionRuntime)
      ensures this.runtime == runtime
    {
      this.runtime := runtime;
    }

    /** An in-memory approval engine filled row by row from another one. */
    static method CopyApprovals(source: ApprovalManager) returns (copy: ApprovalManager)
      requires source.Valid()
      ensures fresh(copy) && copy.mac == source.mac && copy.Contents() == source.Contents() && copy.Valid()
    {
      copy := new ApprovalManager(source.mac, Store([], [], source.nextId));
      var grants, requests := source.grants, source.requests;
      for i := 0 to |grants|
        invariant copy.Contents() == Store(grants[..i], [], source.nextId)
      {
        copy.grants := copy.grants + [grants[i]];
      }
      for i := 0 to |requests|
        invariant copy.Contents() == Store(grants, requests[..i], source.nextId)
      {
        copy.requests := copy.requests + [requests[i]];
      }
      assert requests[..|requests|] == requests;
    }

    /** A new runtime with copies of the lists, grants and requests, the same policy and mode, and an empty log. */
    static method BuildSandbox(source: ActionRuntime) returns (r: ActionRuntime)
      requires source.Valid()
      ensures fresh(r) && fresh(r.caps) && fresh(r.approvals) && fresh(r.audit) && r.Valid()
      ensures r.world == source.world && r.observe == source.observe && r.audit.keys == None
      ensures r.Rules() == source.Rules()
      ensures r.Now() == SandboxState(source.approvals.Contents())
    {
      var approvals := CopyApprovals(source.approvals);
      var audit := new AuditLogger(source.world.text, source.world.crypto, None, [], 1);
      assert audit.rows == [];
      var caps := new CapabilitySystem.CapabilitySystem(source.world.text);
      caps.allowed := source.caps.allowed;
      caps.requireApproval := source.caps.requireApproval;
      caps.denied := source.caps.denied;
      caps.policy := source.caps.policy;
      r := new ActionRuntime(source.world, caps, approvals, audit, source.observe);
    }

    /** One turn of the replay loop, in the sandbox. */
    static method ReplayEvent(sandbox: ActionRuntime, ghost x: Sandbox, raw: Dict, now: real,
            latency: int) returns (r: Result<EventResult>)
      requires sandbox.Valid() && sandbox.audit.keys == None
      requires x.world == sandbox.world && x.rules == sandbox.Rules() && x.observe == sandbox.observe
      modifies sandbox.approvals, sandbox.audit
      ensures sandbox.Valid()
      ensures match ReplayOne(x, old(sandbox.Now()), raw, now, latency)
        case Raised(err) => r == Raised(err)
        case Ok((after, result)) => r == Ok(result) && sandbox.Now() == after
    {
      var event := ParseEvent(raw);
      if event.Raised? {
        return Raised(event.error);
      }
      var original := Original(raw);
      var verdict := sandbox.Execute(event.value, now, latency);
      if verdict.Raised? {
        return Raised(verdict.error);
      }
      if Truthy(original) && !original.JStr? {
        return Raised(WrongType);
      }
      var v := verdict.value;
      return Ok(EventResult(event.value, original, v.decision, v.reason, v.authorized,
          Differs(original, v.authorized)));
    }

    /** Replays a trace in a sandbox. Nothing that existed before is changed. */
    method ReplayIncident(raws: seq<Dict>, clock: nat -> real, latency: nat -> int) returns (r: Result<Summary>,
            evidence: Evidence)
      requires runtime.Valid()
      ensures var x := Sandbox(runtime.world, runtime.Rules(), runtime.observe, clock, latency);
        match ReplayAll(x, SandboxState(runtime.approvals.Contents()), raws)
        case Raised(err) => r == Raised(err)
        case Ok((_, summary)) => r == Ok(summary) && evidence == EvidenceOf(summary)
    {
      hide ReplayOne;
      ghost var x := Sandbox(runtime.world, runtime.Rules(), runtime.observe, clock, latency);
      ghost var start := SandboxState(runtime.approvals.Contents());
      var sandbox := BuildSandbox(runtime);
      var summary := EMPTY_SUMMARY;
      evidence := EvidenceOf(summary);
      for i := 0 to |raws|
        invariant fresh(sandbox.approvals) && fresh(sandbox.audit) && sandbox.Valid()
        invariant sandbox.Rules() == x.rules
        invariant ReplayAll(x, start, raws[..i]) == Ok((sandbox.Now(), summary))
      {
        assert raws[..i + 1][..i] == raws[..i];
        var result := ReplayEvent(sandbox, x, raws[i], clock(i), latency(i));
        if result.Raised? {
          ReplayStops(x, start, raws, i + 1);
          return Raised(result.error), evidence;
        }
        var v := result.value;
        summary := Summary(
          summary.total + 1,
          if v.authorized then summary.authorized + 1 else summary.authorized,
          if v.authorized then summary.blocked else summary.blocked + 1,
          if v.decision == Hold then summary.requireApproval + 1 else summary.requireApproval,
          if v.differs then summary.diffs + 1 else summary.diffs,
          summary.results + [v]);
      }
      assert raws[..|raws|] == raws;
      return Ok(summary), EvidenceOf(summary);
    }

    /** Replays a trace under the policy of a file, always in enforce mode, on copies of the same approvals. */
    method SimulatePolicy(raws: seq<Dict>, disk: Disk, path: string, ghost rank: string -> nat, clock: nat -> real,
            latency: nat -> int)
      returns (r: Result<Summary>)
      requires runtime.Valid() && Acyclic(disk, rank) && disk.searchPaths == []
      ensures Flatten(disk, path, rank).Raised? ==> r.Raised?
      ensures Flatten(disk, path, rank).Ok? ==>
        && path in disk.files && disk.files[path].Document? && Validates(disk.files[path].raw)
        && var entries := CapabilitySystem.ListEntries(disk.files[path].raw);
          if CapabilitySystem.AllParse(entries) then
            var rules := Rulebook(Some(Flatten(disk, path, rank).value),
                CapabilitySystem.Read(CapabilitySystem.NO_LISTS, entries));
            match ReplayAll(Sandbox(runtime.world, rules, false, clock, latency),
                SandboxState(runtime.approvals.Contents()), raws)
            case Raised(err) => r == Raised(err)
            case Ok((_, summary)) => r == Ok(summary)
          else r.Raised?
    {
      hide ReplayAll, Flatten;
      var caps := new CapabilitySystem.CapabilitySystem(runtime.world.text);
      var error := caps.LoadPolicyFile(disk, path, rank);
      if error.Some? {
        return Raised(error.value);
      }
      var simulated := new ActionRuntime(runtime.world, caps, runtime.approvals, runtime.audit, false);
      var engine := new ReplayEngine(simulated);
      var evidence;
      r, evidence := engine.ReplayIncident(raws, clock, latency);
    }
  }

  /** Once a trace raises, every longer trace raises the same. */
  lemma {:induction false} ReplayStops(x: Sandbox, s: State, raws: seq<Dict>, n: nat)
    requires n <= |raws| && ReplayAll(x, s, raws[..n]).Raised?
    ensures ReplayAll(x, s, raws) == ReplayAll(x, s, raws[..n])
    decreases |raws|
  {
    if n == |raws| {
      assert raws[..n] == raws;
    } else {
      assert raws[..|raws| - 1][..n] == raws[..n];
      ReplayStops(x, s, raws[..|raws| - 1], n);
    }
  }
}
