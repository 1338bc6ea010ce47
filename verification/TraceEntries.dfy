/** How replay reads the entries of a trace, in their present and their legacy form, and what its evidence certifies:
    capfence/core/replay.py:156-259. */
module TraceEntries {
  import opened Json
  import opened Events
  import opened Approvals
  import opened Runtime
  import opened Replay
  import opened ReplayFacts

  // ---------------------------------------------------------------- reading one entry

  /** The members under which an entry keeps the parts of its event, and its metadata. */
  const PART_KEYS: set<string> := {
    "actor", "agent_id", "action", "tool_name", "resource", "risk_category", "environment", "risk", "risk_score",
    "metadata"}

  /** `v` is the first of the members under these keys that does not count as false. */
  predicate FirstGiven(raw: Dict, keys: seq<string>, v: Json)
  {
    && Truthy(v)
    && exists i :: 0 <= i < |keys| && Get(raw, keys[i]) == v && forall j :: 0 <= j < i ==> !Truthy(Get(raw, keys[j]))
  }

  /** ... or the default, where all of them do. */
  predicate Reads(raw: Dict, keys: seq<string>, default: Json, v: Json)
  {
    FirstGiven(raw, keys, v) || (v == default && forall i :: 0 <= i < |keys| ==> !Truthy(Get(raw, keys[i])))
  }

  lemma {:induction false} ReadsFirst(raw: Dict, k: string, default: Json)
    ensures Reads(raw, [k], default, Or(Get(raw, k), default))
  {
    assert [k][0] == k;
  }

  lemma {:induction false} ReadsFirstOfTwo(raw: Dict, k: string, legacy: string, default: Json)
    ensures Reads(raw, [k, legacy], default, Or(Or(Get(raw, k), Get(raw, legacy)), default))
  {
    var keys := [k, legacy];
    assert keys[0] == k && keys[1] == legacy;
  }

  /** An entry may name the agent, the tool, the risk category and the risk score in place of actor, action, resource
      and risk; each part is the first of its members that does not count as false, or its default. All other members
      are metadata, and go before what the entry has under that key. */
  lemma {:induction false} EntryReads(raw: Dict)
    requires ParseEvent(raw).Ok?
    ensures var e := ParseEvent(raw).value;
      && Reads(raw, ["actor", "agent_id"], JStr("trace-replay"), JStr(e.actor))
      && Reads(raw, ["action", "tool_name"], JStr("execute"), JStr(e.action))
      && Reads(raw, ["resource", "risk_category"], JStr("system"), JStr(e.resource))
      && Reads(raw, ["environment"], JStr("production"), JStr(e.environment))
      && exists risk :: Reads(raw, ["risk", "risk_score"], JStr("low"), risk) && NormalRisk(risk) == Some(e.risk)
    ensures forall k :: Get(ParseEvent(raw).value.metadata, k) == MetadataRead(raw, k)
  {
    hide Reads, Others, NormalRisk, HasKey;
    ReadsFirstOfTwo(raw, "actor", "agent_id", JStr("trace-replay"));
    ReadsFirstOfTwo(raw, "action", "tool_name", JStr("execute"));
    ReadsFirstOfTwo(raw, "resource", "risk_category", JStr("system"));
    ReadsFirst(raw, "environment", JStr("production"));
    ReadsFirstOfTwo(raw, "risk", "risk_score", JStr("low"));
    forall k
      ensures Get(ParseEvent(raw).value.metadata, k) == MetadataRead(raw, k)
    {
      var given := Get(raw, "metadata");
      LookupInBoth(if Truthy(given) then given.members else [], Others(raw), k);
      OthersKept(raw, k);
    }
  }

  function MetadataRead(raw: Dict, k: string): Json
  {
    if HasKey(raw, k) && k !in PART_KEYS then Get(raw, k)
    else match Get(raw, "metadata") case JObj(members) => Get(members, k) case _ => JNull
  }

  lemma {:induction false} LookupInBoth(a: Dict, b: Dict, k: string)
    ensures Get(a + b, k) == if HasKey(b, k) then Get(b, k) else Get(a, k)
  {
    if b == [] {
      assert a + b == a;
    } else {
      var n := |b| - 1;
      assert (a + b)[..|a| + n] == a + b[..n];
      LookupInBoth(a, b[..n], k);
      assert HasKey(b[..n], k) ==> HasKey(b, k);
      assert HasKey(b, k) && b[n].0 != k ==> HasKey(b[..n], k) by {
        if i :| 0 <= i < |b| && b[i].0 == k {
          assert b[n].0 == k || b[..n][i].0 == k;
        }
      }
    }
  }

  lemma {:induction false} OthersKept(raw: Dict, k: string)
    ensures HasKey(Others(raw), k) <==> HasKey(raw, k) && k !in PART_KEYS
    ensures k !in PART_KEYS ==> Get(Others(raw), k) == Get(raw, k)
  {
    if raw == [] {
    } else {
      var front, last := raw[..|raw| - 1], raw[|raw| - 1];
      OthersKept(front, k);
      assert raw == Put(front, last.0, last.1);
      HasKeySnoc(front, last, k);
      GetAppended(front, last.0, last.1, k);
      if last.0 in PART_KEYS {
        assert Others(raw) == Others(front);
      } else {
        assert Others(raw) == Put(Others(front), last.0, last.1);
        HasKeySnoc(Others(front), last, k);
        GetAppended(Others(front), last.0, last.1, k);
      }
    }
  }

  /** An entry with any further member raises. So one whose outcome is under the legacy key `original_decision` is
      never replayed. */
  lemma {:induction false} FurtherMembersRaise(raw: Dict, k: string)
    requires HasKey(raw, k) && k !in PART_KEYS && k !in METADATA_KEYS
    ensures ParseEvent(raw).Raised?
    ensures "original_decision" !in PART_KEYS && "original_decision" !in METADATA_KEYS
  {
    hide Others, MakeEvent;
    OthersKept(raw, k);
    var given := Get(raw, "metadata");
    if !Truthy(given) || given.JObj? {
      UncheckedKey(if Truthy(given) then given.members else [], Others(raw), k);
      NoEventOf(raw);
    }
  }

  lemma {:induction false} UncheckedKey(a: Dict, b: Dict, k: string)
    requires HasKey(b, k) && k !in METADATA_KEYS
    ensures !ValidMetadata(a + b)
  {
    var i :| 0 <= i < |b| && b[i].0 == k;
    assert (a + b)[|a| + i].0 == k;
    assert !ValidMember((a + b)[|a| + i].0, Get(a + b, (a + b)[|a| + i].0));
  }

  lemma {:induction false} NoEventOf(raw: Dict)
    requires var given := Get(raw, "metadata");
      && (!Truthy(given) || given.JObj?)
      && !ValidMetadata((if Truthy(given) then given.members else []) + Others(raw))
    ensures ParseEvent(raw).Raised?
  {
  }

  /** The result of an entry is the decision on its event, which observe mode lets pass, beside what it recorded. */
  lemma {:induction false} ResultIsDecision(x: Sandbox, s: State, raw: Dict, now: real, latency: int)
    requires ReplayOne(x, s, raw, now, latency).Ok?
    ensures var one := ReplayOne(x, s, raw, now, latency).value.1;
      && ParseEvent(raw) == Ok(one.event)
      && match Decide(x.world, x.rules, s.store, one.event, now)
         case Raised(_) => false
         case Ok(o) =>
           && one.decision == o.decision && (one.authorized <==> o.authorized || x.observe)
           && (!x.observe ==> one.reason == o.reason) && one.original == Or(Get(raw, "decision"), JNull)
  {
    hide Executed, ParseEvent, Decide, StoreAfter, RequiredCapability, HasKey;
    ExecutionDecides(x.world, None, x.rules, x.observe, s, ParseEvent(raw).value, now, latency);
    NoLegacyOutcome(raw);
  }

  lemma {:induction false} NoLegacyOutcome(raw: Dict)
    requires ParseEvent(raw).Ok?
    ensures Get(raw, "original_decision") == JNull
  {
    hide ParseEvent;
    if HasKey(raw, "original_decision") {
      FurtherMembersRaise(raw, "original_decision");
    } else {
      AbsentKey(raw, "original_decision");
    }
  }

  // ---------------------------------------------------------------- the evidence

  /** The texts that record a pass, in any case. */
  predicate SaysPass(text: string)
  {
    SameLetters(text, "pass") || SameLetters(text, "allow") || SameLetters(text, "authorized")
  }

  lemma SaysPassIff(text: string)
    ensures MeansPass(text) <==> SaysPass(text)
  {
    LowerIsTheOneWithoutCapitals(text, "pass");
    LowerIsTheOneWithoutCapitals(text, "allow");
    LowerIsTheOneWithoutCapitals(text, "authorized");
  }

  /** The entry records an outcome, and it is not this one. */
  predicate RecordsOtherwise(raw: Dict, authorized: bool)
  {
    var recorded := Get(raw, "decision");
    recorded.JStr? && recorded.s != "" && authorized != SaysPass(recorded.s)
  }

  lemma {:induction false} EntryDiffersIff(x: Sandbox, s: State, raw: Dict, now: real, latency: int)
    requires ReplayOne(x, s, raw, now, latency).Ok?
    ensures var one := ReplayOne(x, s, raw, now, latency).value.1;
      one.differs <==> RecordsOtherwise(raw, one.authorized)
  {
    hide Executed, ParseEvent;
    NoLegacyOutcome(raw);
    if Get(raw, "decision").JStr? {
      SaysPassIff(Get(raw, "decision").s);
    }
  }

  /** A replay is certified as compliant if and only if every entry that records an outcome came out as recorded;
      entries that record none do not count. */
  lemma {:induction false} CompliantIffAsRecorded(x: Sandbox, s: Store, raws: seq<Dict>)
    requires ReplayAll(x, SandboxState(s), raws).Ok?
    ensures var sum := ReplayAll(x, SandboxState(s), raws).value.1;
      && |sum.results| == |raws|
      && (EvidenceOf(sum).compliant <==> forall i :: 0 <= i < |raws| ==>
            !RecordsOtherwise(raws[i], sum.results[i].authorized))
  {
    hide ReplayAll, ReplayOne, RecordsOtherwise;
    var sum := ReplayAll(x, SandboxState(s), raws).value.1;
    CountersAddUp(x, SandboxState(s), raws);
    ReplayIsHistoryFree(x, s, raws);
    NoneCounted(Bares(sum.results));
    forall i | 0 <= i < |raws|
      ensures sum.results[i].differs <==> RecordsOtherwise(raws[i], sum.results[i].authorized)
    {
      assert AloneAll(x, s, raws)[i] == Ok(BareOf(sum.results[i]));
      EntryAloneDiffersIff(x, s, raws[i], x.clock(i));
    }
    assert forall i :: 0 <= i < |raws| ==> Bares(sum.results)[i].differs == sum.results[i].differs;
  }

  lemma EntryAloneDiffersIff(x: Sandbox, s: Store, raw: Dict, now: real)
    requires Alone(x, s, raw, now).Ok?
    ensures var one := Alone(x, s, raw, now).value; one.differs <==> RecordsOtherwise(raw, one.authorized)
  {
    hide ReplayOne, RecordsOtherwise;
    EntryDiffersIff(x, SandboxState(s), raw, now, 0);
  }

  lemma {:induction false} NoneCounted(results: seq<Bare>)
    ensures CountIf(results, IS_DIFFERENT) == 0 <==> forall i :: 0 <= i < |results| ==> !results[i].differs
  {
    if results == [] {
    } else {
      NoneCounted(results[..|results| - 1]);
    }
  }

  /** The rates are percentages of all entries: at most a hundred, all of it exactly when every entry is counted, and
      nothing exactly when none is. */
  lemma {:induction false} RatesArePercentages(x: Sandbox, s: State, raws: seq<Dict>)
    requires ReplayAll(x, s, raws).Ok? && !x.observe
    ensures var sum := ReplayAll(x, s, raws).value.1;
      var evidence := EvidenceOf(sum);
      && evidence.total == |raws| && evidence.drift == sum.diffs
      && 0.0 <= evidence.supervisedRatio <= evidence.failClosedRate <= 100.0
      && (raws != [] ==> (evidence.failClosedRate == 100.0 <==> sum.authorized == 0))
      && (evidence.failClosedRate == 0.0 <==> sum.blocked == 0)
      && (evidence.supervisedRatio == 0.0 <==> sum.requireApproval == 0)
  {
    hide ReplayAll;
    CountersAddUp(x, s, raws);
    var sum := ReplayAll(x, s, raws).value.1;
    var total := if sum.total > 1 then sum.total else 1;
    ShareOf(sum.blocked, total);
    ShareOf(sum.requireApproval, total);
    ShareGrows(sum.requireApproval, sum.blocked, total);
  }

  lemma ShareOf(part: nat, total: nat)
    requires part <= total && total > 0
    ensures 0.0 <= part as real / total as real * 100.0 <= 100.0
    ensures part as real / total as real * 100.0 == 0.0 <==> part == 0
    ensures part as real / total as real * 100.0 == 100.0 <==> part == total
  {
    var share := part as real / total as real;
    assert share * total as real == part as real;
    assert share == 0.0 <==> part == 0;
    assert share == 1.0 <==> part == total;
  }

  lemma ShareGrows(a: nat, b: nat, total: nat)
    requires a <= b && total > 0
    ensures a as real / total as real * 100.0 <= b as real / total as real * 100.0
  {
    assert a as real / total as real <= b as real / total as real;
  }
}
