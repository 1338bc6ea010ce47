/** What a replay reports: its counters, its independence of its own history, and when it can drift from the
    live run it repeats. */
module ReplayFacts {
  import opened Json
  import opened Events
  import opened Approvals
  import opened Runtime
  import opened Replay

  /** A result without its reason. */
  datatype Bare = Bare(event: ActionEvent, original: Json, decision: Decision, authorized: bool, differs: bool)

  function BareOf(r: EventResult): Bare
  {
    Bare(r.event, r.original, r.decision, r.authorized, r.differs)
  }

  function Bares(results: seq<EventResult>): seq<Bare>
  {
    seq(|results|, i requires 0 <= i < |results| => BareOf(results[i]))
  }

  // ---------------------------------------------------------------- history does not matter

  /** The same grants, and the same things approved. */
  ghost predicate SameStanding(a: Store, b: Store)
  {
    && a.grants == b.grants
    && forall agentId, toolName, payload ::
      HasApproved(a.requests, agentId, toolName, payload) <==> HasApproved(b.requests, agentId, toolName, payload)
  }

  lemma StandingComposes(a: Store, b: Store, c: Store)
    requires SameStanding(a, b) && SameStanding(a, c)
    ensures SameStanding(b, c)
  {
  }

  /** Equal but for the text of the reason and the id, which may name a fresh request. */
  predicate SameDecision(a: Result<Outcome>, b: Result<Outcome>)
  {
    && (a.Raised? <==> b.Raised?)
    && (a.Raised? ==> a.error == b.error)
    && (a.Ok? ==> a.value.authorized == b.value.authorized && a.value.decision == b.value.decision)
  }

  lemma DecisionNeedsOnlyStanding(w: World, b: Rulebook, s: Store, s': Store, e: ActionEvent, now: real)
    requires SameStanding(s, s')
    ensures SameDecision(Decide(w, b, s, e, now), Decide(w, b, s', e, now))
  {
    hide RulingOf, CheckGrants;
  }

  /** Deciding an event leaves grants and approvals as they were; it can only queue a pending request. */
  lemma DecidingKeepsStanding(w: World, b: Rulebook, s: Store, e: ActionEvent, now: real)
    requires Decide(w, b, s, e, now).Ok?
    ensures SameStanding(s, StoreAfter(w, s, Decide(w, b, s, e, now).value, e, now))
  {
    var o := Decide(w, b, s, e, now).value;
    var after := StoreAfter(w, s, o, e, now);
    if o.decision == Hold {
      assert Queued(w, s, e, now).status == Pending;
      assert forall r :: r in after.requests <==> r in s.requests || r == Queued(w, s, e, now);
    }
  }

  /** What one entry gives when it is replayed alone, on the initial store. */
  function Alone(x: Sandbox, s: Store, raw: Dict, now: real): Result<Bare>
  {
    match ReplayOne(x, SandboxState(s), raw, now, 0)
    case Raised(err) => Raised(err)
    case Ok((_, r)) => Ok(BareOf(r))
  }

  /** What one entry gives on any state with the same grants and approvals, at any latency. */
  lemma EntryNeedsOnlyStanding(x: Sandbox, s: State, initial: Store, raw: Dict, now: real, latency: int)
    requires SameStanding(s.store, initial)
    ensures var one := ReplayOne(x, s, raw, now, latency);
      && (one.Raised? ==> Alone(x, initial, raw, now) == Raised(one.error))
      && (one.Ok? ==>
        Alone(x, initial, raw, now) == Ok(BareOf(one.value.1)) && SameStanding(one.value.0.store, initial))
  {
    hide ParseEvent, Executed, Decide, StoreAfter, SameStanding;
    var event := ParseEvent(raw);
    if event.Ok? {
      ExecutionDecides(x.world, None, x.rules, x.observe, s, event.value, now, latency);
      ExecutionDecides(x.world, None, x.rules, x.observe, SandboxState(initial), event.value, now, 0);
      DecisionNeedsOnlyStanding(x.world, x.rules, s.store, initial, event.value, now);
      if Decide(x.world, x.rules, s.store, event.value, now).Ok? {
        var after := StoreAfter(x.world, s.store, Decide(x.world, x.rules, s.store, event.value, now).value,
            event.value, now);
        DecidingKeepsStanding(x.world, x.rules, s.store, event.value, now);
        StandingComposes(s.store, after, initial);
      }
    }
  }

  /** What the entries of a trace give alone, each at its own clock reading. */
  function AloneAll(x: Sandbox, s: Store, raws: seq<Dict>): (each: seq<Result<Bare>>)
    ensures |each| == |raws|
  {
    seq(|raws|, i requires 0 <= i < |raws| => Alone(x, s, raws[i], x.clock(i)))
  }

  /** The replay raises when one of these does, and else reports all of them. */
  ghost predicate Explains(each: seq<Result<Bare>>, r: Result<(State, Summary)>)
  {
    && (r.Raised? <==> exists i :: 0 <= i < |each| && each[i].Raised?)
    && (r.Ok? ==> |r.value.1.results| == |each|)
    && (r.Ok? ==> forall i :: 0 <= i < |each| ==> each[i] == Ok(BareOf(r.value.1.results[i])))
  }

  /** A replay is history-free: each of its results is what the entry alone gives on the initial store, whatever
      came before it in the trace, and it raises exactly when some entry alone raises. Grants and approvals are
      still what they were. */
  lemma {:induction false} ReplayIsHistoryFree(x: Sandbox, s: Store, raws: seq<Dict>)
    ensures var r := ReplayAll(x, SandboxState(s), raws);
      Explains(AloneAll(x, s, raws), r) && (r.Ok? ==> SameStanding(r.value.0.store, s))
  {
    if raws == [] {
    } else {
      var n := |raws| - 1;
      ReplayIsHistoryFree(x, s, raws[..n]);
      var front := ReplayAll(x, SandboxState(s), raws[..n]);
      assert AloneAll(x, s, raws) == AloneAll(x, s, raws[..n]) + [Alone(x, s, raws[n], x.clock(n))];
      if front.Ok? {
        EntryNeedsOnlyStanding(x, front.value.0, s, raws[n], x.clock(n), x.latency(n));
      }
      ExplainsSnoc(AloneAll(x, s, raws[..n]), front, Alone(x, s, raws[n], x.clock(n)), Continued(x, front, raws[n], n));
    }
  }

  /** The result of a replay, extended by its next entry. */
  function Continued(x: Sandbox, r: Result<(State, Summary)>, raw: Dict, n: nat): Result<(State, Summary)>
  {
    match r
    case Raised(err) => Raised(err)
    case Ok((was, summary)) =>
      match ReplayOne(x, was, raw, x.clock(n), x.latency(n))
      case Raised(err) => Raised(err)
      case Ok((after, one)) => Ok((after, Add(summary, one)))
  }

  lemma ExplainsSnoc(each: seq<Result<Bare>>, r: Result<(State, Summary)>, last: Result<Bare>, r': Result<(State,
          Summary)>)
    requires Explains(each, r)
    requires r'.Raised? <==> r.Raised? || last.Raised?
    requires r'.Ok? ==> exists one :: r'.value.1.results == r.value.1.results + [one] && last == Ok(BareOf(one))
    ensures Explains(each + [last], r')
  {
    var all := each + [last];
    assert all[|each|] == last;
    if i :| 0 <= i < |each| && each[i].Raised? {
      assert all[i].Raised?;
    }
  }

  lemma ExplainedParts(a: seq<Result<Bare>>, b: seq<Result<Bare>>, r: Result<(State, Summary)>, r1: Result<(State,
          Summary)>, r2: Result<(State, Summary)>)
    requires Explains(a + b, r) && Explains(a, r1) && Explains(b, r2)
    ensures r.Ok? <==> r1.Ok? && r2.Ok?
    ensures r.Ok? ==> Bares(r.value.1.results) == Bares(r1.value.1.results) + Bares(r2.value.1.results)
  {
    var all := a + b;
    assert forall i :: 0 <= i < |b| ==> all[|a| + i] == b[i];
    if r.Ok? {
      assert forall i :: 0 <= i < |a| ==> all[i] == a[i];
    }
  }

  /** At a fixed clock a replay of two traces in a row gives the results of the first followed by those the
      second gives by itself, and so its counters are the sums. */
  lemma {:induction false} ReplaySplits(x: Sandbox, s: Store, a: seq<Dict>, b: seq<Dict>, now: real)
    requires forall i :: x.clock(i) == now
    ensures var r, r1, r2 := ReplayAll(x, SandboxState(s), a + b), ReplayAll(x, SandboxState(s), a),
            ReplayAll(x, SandboxState(s), b);
      && (r.Ok? <==> r1.Ok? && r2.Ok?)
      && (r.Ok? ==>
            && Bares(r.value.1.results) == Bares(r1.value.1.results) + Bares(r2.value.1.results)
            && Sums(r1.value.1, r2.value.1, r.value.1))
  {
    hide ReplayAll, Alone, Tallies;
    ReplayIsHistoryFree(x, s, a + b);
    ReplayIsHistoryFree(x, s, a);
    ReplayIsHistoryFree(x, s, b);
    assert AloneAll(x, s, a + b) == AloneAll(x, s, a) + AloneAll(x, s, b);
    ExplainedParts(AloneAll(x, s, a), AloneAll(x, s, b),
      ReplayAll(x, SandboxState(s), a + b), ReplayAll(x, SandboxState(s), a), ReplayAll(x, SandboxState(s), b));
    if ReplayAll(x, SandboxState(s), a + b).Ok? {
      CountersAddUp(x, SandboxState(s), a + b);
      CountersAddUp(x, SandboxState(s), a);
      CountersAddUp(x, SandboxState(s), b);
      TalliesSum(ReplayAll(x, SandboxState(s), a).value.1, ReplayAll(x, SandboxState(s), b).value.1,
          ReplayAll(x, SandboxState(s), a + b).value.1);
    }
  }

  /** Every counter of `c` is the sum of those of `a` and `b`. */
  predicate Sums(a: Summary, b: Summary, c: Summary)
  {
    && c.total == a.total + b.total && c.authorized == a.authorized + b.authorized && c.blocked == a.blocked + b.blocked
    && c.requireApproval == a.requireApproval + b.requireApproval && c.diffs == a.diffs + b.diffs
  }

  lemma TalliesSum(a: Summary, b: Summary, c: Summary)
    requires Tallies(a) && Tallies(b) && Tallies(c)
    requires Bares(c.results) == Bares(a.results) + Bares(b.results)
    ensures Sums(a, b, c)
  {
    assert |Bares(c.results)| == |a.results| + |b.results|;
    CountOfBoth(Bares(a.results), Bares(b.results), IS_AUTHORIZED);
    CountOfBoth(Bares(a.results), Bares(b.results), IS_BLOCKED);
    CountOfBoth(Bares(a.results), Bares(b.results), IS_HELD);
    CountOfBoth(Bares(a.results), Bares(b.results), IS_DIFFERENT);
  }

  lemma {:induction false} CountOfBoth(a: seq<Bare>, b: seq<Bare>, p: Bare -> bool)
    ensures CountIf(a + b, p) == CountIf(a, p) + CountIf(b, p)
  {
    if b == [] {
      assert a + b == a;
    } else {
      var n := |b| - 1;
      CountOfBoth(a, b[..n], p);
      assert (a + b)[..|a| + n] == a + b[..n];
    }
  }

  /** Entry `p[i]` at place `i`. */
  function Moved<T>(s: seq<T>, p: seq<nat>): (m: seq<T>)
    requires forall i :: 0 <= i < |p| ==> p[i] < |s|
  {
    seq(|p|, i requires 0 <= i < |p| => s[p[i]])
  }

  lemma ExplainedMoved(each: seq<Result<Bare>>, p: seq<nat>, r: Result<(State, Summary)>, m: Result<(State, Summary)>)
    requires forall i :: 0 <= i < |p| ==> p[i] < |each|
    requires Explains(each, r) && Explains(Moved(each, p), m) && r.Ok?
    ensures m.Ok? && |r.value.1.results| == |each| && Bares(m.value.1.results) == Moved(Bares(r.value.1.results), p)
  {
    assert forall i :: 0 <= i < |p| ==> Moved(each, p)[i] == each[p[i]];
  }

  lemma AloneAllMoves(x: Sandbox, s: Store, raws: seq<Dict>, p: seq<nat>, now: real)
    requires forall i :: x.clock(i) == now
    requires forall i :: 0 <= i < |p| ==> p[i] < |raws|
    ensures AloneAll(x, s, Moved(raws, p)) == Moved(AloneAll(x, s, raws), p)
  {
  }

  /** At a fixed clock, moving the entries of a trace moves their results with them. */
  lemma {:induction false} ReplayPermutes(x: Sandbox, s: Store, raws: seq<Dict>, p: seq<nat>, now: real)
    requires forall i :: x.clock(i) == now
    requires forall i :: 0 <= i < |p| ==> p[i] < |raws|
    requires ReplayAll(x, SandboxState(s), raws).Ok?
    ensures var r, m := ReplayAll(x, SandboxState(s), raws), ReplayAll(x, SandboxState(s), Moved(raws, p));
      m.Ok? && |r.value.1.results| == |raws| && Bares(m.value.1.results) == Moved(Bares(r.value.1.results), p)
  {
    ReplayIsHistoryFree(x, s, raws);
    ReplayIsHistoryFree(x, s, Moved(raws, p));
    AloneAllMoves(x, s, raws, p, now);
    ExplainedMoved(AloneAll(x, s, raws), p, ReplayAll(x, SandboxState(s), raws),
        ReplayAll(x, SandboxState(s), Moved(raws, p)));
  }

  // ---------------------------------------------------------------- the counters

  function CountIf(results: seq<Bare>, p: Bare -> bool): nat
  {
    if results == [] then 0
    else CountIf(results[..|results| - 1], p) + if p(results[|results| - 1]) then 1 else 0
  }

  const IS_AUTHORIZED: Bare -> bool := (r: Bare) => r.authorized
  const IS_BLOCKED: Bare -> bool := (r: Bare) => !r.authorized
  const IS_HELD: Bare -> bool := (r: Bare) => r.decision == Hold
  const IS_DIFFERENT: Bare -> bool := (r: Bare) => r.differs

  ghost predicate Tallies(s: Summary)
  {
    && s.total == |s.results| && s.authorized == CountIf(Bares(s.results), IS_AUTHORIZED)
    && s.blocked == CountIf(Bares(s.results), IS_BLOCKED)
    && s.requireApproval == CountIf(Bares(s.results), IS_HELD) && s.diffs == CountIf(Bares(s.results), IS_DIFFERENT)
  }

  lemma AddTallies(s: Summary, r: EventResult)
    requires Tallies(s)
    ensures Tallies(Add(s, r))
  {
    assert Bares(s.results + [r]) == Bares(s.results) + [BareOf(r)];
    assert (Bares(s.results) + [BareOf(r)])[..|s.results|] == Bares(s.results);
  }

  lemma {:induction false} CountsSplit(results: seq<Bare>)
    ensures CountIf(results, IS_AUTHORIZED) + CountIf(results, IS_BLOCKED) == |results|
    ensures (forall r :: r in results ==> IS_HELD(r) ==> IS_BLOCKED(r)) ==>
      CountIf(results, IS_HELD) <= CountIf(results, IS_BLOCKED)
  {
    if results == [] {
    } else {
      CountsSplit(results[..|results| - 1]);
    }
  }

  /** The counters count the results, authorized and blocked add up to the total, and outside observe mode every
      event waiting for approval is a blocked one. */
  lemma {:induction false} CountersAddUp(x: Sandbox, s: State, raws: seq<Dict>)
    requires ReplayAll(x, s, raws).Ok?
    ensures var sum := ReplayAll(x, s, raws).value.1;
      && Tallies(sum) && sum.total == |raws| && sum.authorized + sum.blocked == sum.total
      && (!x.observe ==> sum.requireApproval <= sum.blocked)
  {
    ResultsTallied(x, s, raws);
    CountsSplit(Bares(ReplayAll(x, s, raws).value.1.results));
  }

  ghost predicate Tallied(x: Sandbox, n: nat, sum: Summary)
  {
    && Tallies(sum) && sum.total == n
    && (!x.observe ==> forall r :: r in Bares(sum.results) ==> IS_HELD(r) ==> IS_BLOCKED(r))
  }

  lemma {:induction false} ResultsTallied(x: Sandbox, s: State, raws: seq<Dict>)
    requires ReplayAll(x, s, raws).Ok?
    ensures Tallied(x, |raws|, ReplayAll(x, s, raws).value.1)
  {
    if raws == [] {
    } else {
      var n := |raws| - 1;
      ResultsTallied(x, s, raws[..n]);
      var (was, front) := ReplayAll(x, s, raws[..n]).value;
      var (after, one) := ReplayOne(x, was, raws[n], x.clock(n), x.latency(n)).value;
      HeldOneIsBlocked(x, was, raws[n], x.clock(n), x.latency(n));
      TalliedStep(x, n, front, one);
    }
  }

  lemma HeldIsNotAuthorized(w: World, b: Rulebook, s: Store, e: ActionEvent, now: real)
    requires Decide(w, b, s, e, now).Ok? && Decide(w, b, s, e, now).value.decision == Hold
    ensures !Decide(w, b, s, e, now).value.authorized
  {
  }

  lemma HeldOneIsBlocked(x: Sandbox, s: State, raw: Dict, now: real, latency: int)
    ensures var one := ReplayOne(x, s, raw, now, latency);
      one.Ok? && !x.observe && IS_HELD(BareOf(one.value.1)) ==> IS_BLOCKED(BareOf(one.value.1))
  {
    hide ParseEvent, Executed, Decide, StoreAfter;
    var event := ParseEvent(raw);
    if event.Ok? {
      ExecutionDecides(x.world, None, x.rules, x.observe, s, event.value, now, latency);
    }
    if event.Ok? && Decide(x.world, x.rules, s.store, event.value, now).Ok? {
      var o := Decide(x.world, x.rules, s.store, event.value, now).value;
      if o.decision == Hold {
        HeldIsNotAuthorized(x.world, x.rules, s.store, event.value, now);
      }
      var v := VerdictFor(o, event.value, now, latency, x.observe);
      assert v.decision == o.decision && (!x.observe ==> v.authorized == o.authorized);
    }
  }

  lemma TalliedStep(x: Sandbox, n: nat, front: Summary, one: EventResult)
    requires Tallied(x, n, front) && (!x.observe ==> IS_HELD(BareOf(one)) ==> IS_BLOCKED(BareOf(one)))
    ensures Tallied(x, n + 1, Add(front, one))
  {
    AddTallies(front, one);
    assert Bares(front.results + [one]) == Bares(front.results) + [BareOf(one)];
  }
}
