/** Runs of the whole gate in enforce mode: agents act, operators grant and resolve, pending requests are swept,
    the audit file is reopened, and the clock moves on, in any order. Each move is one atomic step. */
module SystemRuns {
  import opened Json
  import opened Capabilities
  import opened Chain
  import opened Events
  import opened Approvals
  import opened Audit
  import opened AuditRuns
  import opened AuditSignatures
  import opened Runtime
  import opened Authorization

  type Duration = x: real | x >= 0.0

  datatype Move =
    | Act(e: ActionEvent, latency: int)
    | MakeGrant(coords: Coordinates, who: string)
    | Resolve(id: nat, approve: bool, user: string)
    | Sweep
    | Reopen
    | Wait(seconds: Duration)

  /** The gate: primitives, signing keys and rules do not change during a run. */
  datatype Gate = Gate(world: World, keys: Option<Keypair>, rules: Rulebook)

  datatype Sys = Sys(state: State, clock: real)

  function Acted(g: Gate, y: Sys, e: ActionEvent, latency: int): (Result<Verdict>, State)
  {
    Executed(g.world, g.keys, g.rules, false, y.state, e, y.clock, latency)
  }

  function Next(g: Gate, y: Sys, m: Move): Sys
  {
    var s := y.state.store;
    match m
    case Act(e, latency) => y.(state := Acted(g, y, e, latency).1)
    case MakeGrant(c, who) =>
      var made := NewGrant(g.world.mac, g.world.secret, s.nextId, c, who, y.clock);
      WithStore(y, s.(grants := s.grants + [made], nextId := s.nextId + 1))
    case Resolve(id, approve, user) =>
      var status := if approve then Approved else Rejected;
      WithStore(y, s.(requests := GuardedResolve(s.requests, id, status, user, y.clock)))
    case Sweep => WithStore(y, s.(requests := Swept(s.requests, y.clock)))
    case Reopen => y.(state := y.state.(log := Step(g.world.text, g.world.crypto, y.state.log, Open)))
    case Wait(seconds) => y.(clock := y.clock + seconds)
  }

  function WithStore(y: Sys, s: Store): Sys
  {
    y.(state := y.state.(store := s))
  }

  function After(g: Gate, y: Sys, moves: seq<Move>): Sys
  {
    if moves == [] then y else Next(g, After(g, y, moves[..|moves| - 1]), moves[|moves| - 1])
  }

  /** An event's move is its decision: the verdict says it and the store shows it. */
  lemma ActDecides(g: Gate, y: Sys, e: ActionEvent, latency: int)
    ensures var r, o := Acted(g, y, e, latency).0, Decide(g.world, g.rules, y.state.store, e, y.clock);
      && (r.Ok? <==> o.Ok?)
      && (r.Ok? ==> r.value.authorized == o.value.authorized && r.value.decision == o.value.decision)
      && Next(g, y, Act(e, latency)).clock == y.clock
      && Next(g, y, Act(e, latency)).state.store
         == if o.Ok? then StoreAfter(g.world, y.state.store, o.value, e, y.clock) else y.state.store
  {
    hide Decide, StoreAfter, Executed;
    ExecutionDecides(g.world, g.keys, g.rules, false, y.state, e, y.clock, latency);
  }

  /** A held event is sent to approval, and names the request it leaves. */
  lemma HoldNamesRequest(w: World, b: Rulebook, s: Store, e: ActionEvent, now: real)
    requires Decide(w, b, s, e, now).Ok? && Decide(w, b, s, e, now).value.decision == Hold
    ensures Decide(w, b, s, e, now).value.approvalId == Some(s.nextId) && !Decide(w, b, s, e, now).value.authorized
    ensures Gated(w, b, e) && CheckGrants(w.mac, w.secret, s.grants, AskOf(e), now) == NotFound
  {
    hide CheckGrants, HasApproved, RulingOf;
  }

  // ---------------------------------------------------------------- the moves as calls

  ghost function GateOf(runtime: ActionRuntime): Gate
    reads runtime.caps
  {
    Gate(runtime.world, runtime.audit.keys, runtime.Rules())
  }

  /** A move, made by calling the method that makes it. */
  method Make(runtime: ActionRuntime, m: Move, clock: real) returns (after: real)
    requires runtime.Valid() && !runtime.observe
    modifies runtime.approvals, runtime.audit
    ensures runtime.Valid()
    ensures Sys(runtime.Now(), after) == Next(old(GateOf(runtime)), Sys(old(runtime.Now()), clock), m)
  {
    hide Executed, NewGrant, GuardedResolve, Swept;
    after := clock;
    match m {
      case Act(e, latency) =>
        var r := runtime.Execute(e, clock, latency);
      case MakeGrant(c, who) =>
        var made := runtime.approvals.InsertGrant(runtime.world.secret, c, who, clock);
      case Resolve(id, approve, user) =>
        var done := runtime.approvals.Resolve(id, if approve then Approved else Rejected, user, clock);
      case Sweep =>
        var pending := runtime.approvals.GetPending(clock);
      case Reopen =>
        runtime.audit.MigrateLegacyEntries();
      case Wait(seconds) =>
        after := clock + seconds;
    }
  }

  method MakeAll(runtime: ActionRuntime, moves: seq<Move>, since: real) returns (clock: real)
    requires runtime.Valid() && !runtime.observe
    modifies runtime.approvals, runtime.audit
    ensures runtime.Valid()
    ensures Sys(runtime.Now(), clock) == After(old(GateOf(runtime)), Sys(old(runtime.Now()), since), moves)
  {
    hide Next;
    ghost var g, y := GateOf(runtime), Sys(runtime.Now(), since);
    clock := since;
    for i := 0 to |moves|
      invariant runtime.Valid() && GateOf(runtime) == g
      invariant Sys(runtime.Now(), clock) == After(g, y, moves[..i])
    {
      clock := Make(runtime, moves[i], clock);
      AfterSnoc(g, y, moves, i);
    }
    assert moves[..|moves|] == moves;
  }

  lemma {:induction false} AfterSnoc(g: Gate, y: Sys, moves: seq<Move>, i: nat)
    requires i < |moves|
    ensures After(g, y, moves[..i + 1]) == Next(g, After(g, y, moves[..i]), moves[i])
  {
    hide Next;
    assert moves[..i + 1][..i] == moves[..i];
  }

  /** What happens around one step of an adapter: from the clock reading `since` on others make their moves on the
      shared tables; then the step reads the clock. */
  datatype Interlude = Interlude(since: real, others: seq<Move>, now: real, latency: int)

  /** The state that the step meets. */
  function Met(g: Gate, s: State, t: Interlude): State
  {
    After(g, Sys(s, t.since), t.others).state
  }

  // ---------------------------------------------------------------- the life of a request

  /** Resolved exactly when not pending, with an expiry that counts, and with ids from the counter. */
  ghost predicate Consistent(s: Store)
  {
    && FreshIds(s.requests, s.nextId)
    && forall r :: r in s.requests ==> (r.resolvedAt.Some? <==> r.status != Pending) && r.expiresAt != Some(0.0)
  }

  /** A later state of the same request: it may be resolved once and is then final. */
  predicate Progress(a: ApprovalRequest, b: ApprovalRequest)
  {
    SameIdentity(a, b) && (a.status != Pending || b.status == Pending ==> a == b)
  }

  ghost predicate Evolves(before: seq<ApprovalRequest>, after: seq<ApprovalRequest>)
  {
    |before| <= |after| && forall i :: 0 <= i < |before| ==> Progress(before[i], after[i])
  }

  lemma {:induction false} FindPosition(requests: seq<ApprovalRequest>, id: nat, i: nat)
    requires DistinctIds(requests) && i < |requests| && requests[i].id == id
    ensures Find(requests, id) == Some(requests[i])
  {
    var r := Find(requests, id);
    assert requests[i] in requests;
    var j :| 0 <= j < |requests| && requests[j] == r.value;
  }

  /** One move keeps the store consistent and moves every request forward; grants only accumulate. */
  lemma MoveAdvances(g: Gate, y: Sys, m: Move)
    requires Consistent(y.state.store) && y.clock >= 0.0
    ensures var n := Next(g, y, m);
      && Consistent(n.state.store) && n.clock >= y.clock
      && Evolves(y.state.store.requests, n.state.store.requests)
      && y.state.store.grants <= n.state.store.grants && y.state.store.nextId <= n.state.store.nextId
  {
    hide Acted, Decide, GuardedResolve, Swept, Consistent, Evolves;
    EvolvesNowhere(y.state.store.requests);
    var s, n := y.state.store, Next(g, y, m).state.store;
    match m {
      case Act(e, latency) =>
        ActDecides(g, y, e, latency);
        var o := Decide(g.world, g.rules, s, e, y.clock);
        if o.Ok? {
          QueueAdvances(g.world, s, o.value, e, y.clock);
        }
      case Resolve(id, approve, user) =>
        ResolveAdvances(s, id, if approve then Approved else Rejected, user, y.clock);
      case MakeGrant(c, who) =>
        GrantAdvances(s, n.grants);
      case Sweep =>
        SweepAdvances(s, y.clock);
      case _ =>
    }
  }

  lemma EvolvesNowhere(requests: seq<ApprovalRequest>)
    ensures Evolves(requests, requests)
  {
  }

  lemma GrantAdvances(s: Store, grants: seq<Grant>)
    requires Consistent(s)
    ensures Consistent(s.(grants := grants, nextId := s.nextId + 1))
  {
  }

  lemma SweepAdvances(s: Store, now: real)
    requires Consistent(s)
    ensures var n := s.(requests := Swept(s.requests, now)); Consistent(n) && Evolves(s.requests, n.requests)
  {
    var swept := Swept(s.requests, now);
    assert forall i :: 0 <= i < |s.requests| ==> s.requests[i] in s.requests && Progress(s.requests[i], swept[i]);
  }

  lemma QueueAdvances(w: World, s: Store, o: Outcome, e: ActionEvent, now: real)
    requires Consistent(s) && now >= 0.0
    ensures var n := StoreAfter(w, s, o, e, now);
      Consistent(n) && Evolves(s.requests, n.requests) && s.grants == n.grants && s.nextId <= n.nextId
  {
    assert forall i :: 0 <= i < |s.requests| ==> s.requests[i] in s.requests;
  }

  lemma ResolveAdvances(s: Store, id: nat, status: Status, user: string, now: real)
    requires Consistent(s) && status != Pending
    ensures var n := s.(requests := GuardedResolve(s.requests, id, status, user, now));
      Consistent(n) && Evolves(s.requests, n.requests)
  {
    var requests := GuardedResolve(s.requests, id, status, user, now);
    forall i | 0 <= i < |s.requests|
      ensures Progress(s.requests[i], requests[i]) && s.requests[i] in s.requests
      ensures requests[i].resolvedAt.Some? <==> requests[i].status != Pending
    {
      assert s.requests[i] in s.requests;
      if s.requests[i].id == id {
        FindPosition(s.requests, id, i);
      }
    }
  }

  /** Without the guard of the command line, `approve` and `reject` keep the lifecycle if and only if the request
      they name is pending, or already is exactly what they make of it. */
  lemma DirectResolveAdvancesIff(s: Store, id: nat, status: Status, who: Option<string>, now: real)
    requires Consistent(s) && status != Pending
    ensures Evolves(s.requests, UpdateWhere(s.requests, id, status, who, now))
            <==> forall r :: r in s.requests && r.id == id ==> r.status == Pending || Resolved(r, status, who, now) == r
  {
    var updated := UpdateWhere(s.requests, id, status, who, now);
    forall i | 0 <= i < |s.requests|
      ensures var r := s.requests[i];
        Progress(r, updated[i]) <==> (r.id == id ==> r.status == Pending || Resolved(r, status, who, now) == r)
    {
    }
    assert forall r :: r in s.requests ==> exists i :: 0 <= i < |s.requests| && s.requests[i] == r;
  }

  /** Over every run from a consistent store, requests are never lost or rewritten: each leaves pending at most
      once and is final from then on. */
  lemma {:induction false} RequestLifecycle(g: Gate, y: Sys, moves: seq<Move>)
    requires Consistent(y.state.store) && y.clock >= 0.0
    ensures var n := After(g, y, moves);
      && Consistent(n.state.store) && n.clock >= y.clock
      && Evolves(y.state.store.requests, n.state.store.requests)
      && y.state.store.grants <= n.state.store.grants && y.state.store.nextId <= n.state.store.nextId
  {
    if moves == [] {
    } else {
      var front := moves[..|moves| - 1];
      RequestLifecycle(g, y, front);
      MoveAdvances(g, After(g, y, front), moves[|moves| - 1]);
    }
  }

  /** A run continues from any of its points. */
  lemma {:induction false} RunContinues(g: Gate, y: Sys, moves: seq<Move>, j: nat)
    requires j <= |moves|
    ensures After(g, y, moves) == After(g, After(g, y, moves[..j]), moves[j..])
  {
    hide Next;
    if j == |moves| {
      assert moves[..j] == moves;
    } else {
      var n := |moves| - 1;
      RunContinues(g, y, moves[..n], j);
      assert moves[..n][..j] == moves[..j];
      assert moves[..n][j..] == moves[j..][..n - j];
    }
  }

  /** Right after a sweep no pending request is past its expiry. */
  lemma {:induction false} SweptRunsHaveNothingOverdue(g: Gate, y: Sys, moves: seq<Move>, r: ApprovalRequest)
    requires Consistent(y.state.store) && y.clock >= 0.0
    requires moves != [] && moves[|moves| - 1] == Sweep
    requires r in After(g, y, moves).state.store.requests && r.status == Pending
    ensures !PastExpiry(r.expiresAt, After(g, y, moves).clock)
  {
    RequestLifecycle(g, y, moves);
    var was := After(g, y, moves[..|moves| - 1]);
    SweepLeavesNothingOverdue(was.state.store.requests, was.clock);
  }

  // ---------------------------------------------------------------- where approvals come from

  /** Move `i` of the run is an event that was held and left request `id`. */
  ghost predicate HeldAt(g: Gate, y: Sys, moves: seq<Move>, i: nat, r: ApprovalRequest)
  {
    && i < |moves| && moves[i].Act?
    && var was := After(g, y, moves[..i]);
      var o := Decide(g.world, g.rules, was.state.store, moves[i].e, was.clock);
      && o.Ok? && o.value.decision == Hold && o.value.approvalId == Some(r.id)
      && SameIdentity(Queued(g.world, was.state.store, moves[i].e, was.clock), r)
  }

  /** Every request that a run adds was left by an event of the run that was held. */
  lemma {:induction false} RequestsComeFromHeldEvents(g: Gate, y: Sys, moves: seq<Move>, k: nat) returns (i: nat)
    requires Consistent(y.state.store) && y.clock >= 0.0
    requires |y.state.store.requests| <= k < |After(g, y, moves).state.store.requests|
    ensures HeldAt(g, y, moves, i, After(g, y, moves).state.store.requests[k])
  {
    hide Next, Decide, Consistent;
    var n := |moves| - 1;
    var front := moves[..n];
    RequestLifecycle(g, y, front);
    var was := After(g, y, front);
    MoveAdvances(g, was, moves[n]);
    if k < |was.state.store.requests| {
      i := RequestsComeFromHeldEvents(g, y, front, k);
      assert front[..i] == moves[..i];
      assert Progress(was.state.store.requests[k], After(g, y, moves).state.store.requests[k]);
    } else {
      i := n;
      MoveThatAdds(g, was, moves[n]);
    }
  }

  /** Only a held event adds a request, and it adds one. */
  lemma MoveThatAdds(g: Gate, y: Sys, m: Move)
    requires |Next(g, y, m).state.store.requests| > |y.state.store.requests|
    ensures m.Act?
    ensures var o := Decide(g.world, g.rules, y.state.store, m.e, y.clock);
      && o.Ok? && o.value.decision == Hold && o.value.approvalId == Some(y.state.store.nextId)
      && Next(g, y, m).state.store.requests == y.state.store.requests + [Queued(g.world, y.state.store, m.e, y.clock)]
  {
    hide Acted, Decide, Queued;
    if m.Act? {
      ActDecides(g, y, m.e, m.latency);
      var o := Decide(g.world, g.rules, y.state.store, m.e, y.clock);
      if o.Ok? && o.value.decision == Hold {
        HoldNamesRequest(g.world, g.rules, y.state.store, m.e, y.clock);
      }
    }
  }

  /** Move `j` of the run is an operator's approval of request `id`. */
  predicate ApprovedAt(moves: seq<Move>, j: nat, id: nat)
  {
    j < |moves| && moves[j].Resolve? && moves[j].approve && moves[j].id == id
  }

  /** A request that a run left approved was pending until an operator approved it. */
  lemma {:induction false} ApprovalsComeFromOperators(g: Gate, y: Sys, moves: seq<Move>, k: nat) returns (j: nat)
    requires Consistent(y.state.store) && y.clock >= 0.0
    requires k < |After(g, y, moves).state.store.requests|
    requires After(g, y, moves).state.store.requests[k].status == Approved
    requires k < |y.state.store.requests| ==> y.state.store.requests[k].status != Approved
    ensures j < |moves| && ApprovedAt(moves, j, After(g, y, moves).state.store.requests[k].id)
    ensures k < |After(g, y, moves[..j]).state.store.requests|
    ensures After(g, y, moves[..j]).state.store.requests[k].status == Pending
  {
    var n := |moves| - 1;
    hide Next, Consistent;
    if moves == [] {
      assert false;
    }
    var front := moves[..n];
    RequestLifecycle(g, y, front);
    var was, now := After(g, y, front).state.store.requests, After(g, y, moves).state.store.requests;
    MoveAdvances(g, After(g, y, front), moves[n]);
    if k < |was| && was[k].status == Approved {
      j := ApprovalsComeFromOperators(g, y, front, k);
      assert front[..j] == moves[..j];
      assert Progress(was[k], now[k]);
    } else {
      j := n;
      MoveThatApproves(g, After(g, y, front), moves[n], k);
    }
  }

  /** Only an operator's approval turns a request into an approved one. */
  lemma MoveThatApproves(g: Gate, y: Sys, m: Move, k: nat)
    requires Consistent(y.state.store)
    requires k < |Next(g, y, m).state.store.requests| && Next(g, y, m).state.store.requests[k].status == Approved
    requires k < |y.state.store.requests| ==> y.state.store.requests[k].status != Approved
    ensures m.Resolve? && m.approve && m.id == Next(g, y, m).state.store.requests[k].id
    ensures k < |y.state.store.requests| && y.state.store.requests[k].status == Pending
  {
    hide Acted, Decide;
    if m.Act? {
      ActDecides(g, y, m.e, m.latency);
    }
    var was := y.state.store.requests;
    if k >= |was| {
      MoveThatAdds(g, y, m);
    } else if m.Resolve? {
      if was[k].id == m.id {
        FindPosition(was, m.id, k);
      }
    }
  }

  /** Every grant that a run adds was made by an operator in it, under the current secret. */
  lemma {:induction false} GrantsComeFromOperators(g: Gate, y: Sys, moves: seq<Move>, x: Grant) returns (i: nat)
    requires x in After(g, y, moves).state.store.grants && x !in y.state.store.grants
    ensures i < |moves| && moves[i].MakeGrant? && moves[i].coords == x.coords && moves[i].who == x.grantedBy
    ensures x.signature == g.world.mac(g.world.secret, x.coords) && x.createdAt == After(g, y, moves[..i]).clock
  {
    var n := |moves| - 1;
    var was := After(g, y, moves[..n]).state.store;
    if x in was.grants {
      i := GrantsComeFromOperators(g, y, moves[..n], x);
      assert moves[..n][..i] == moves[..i];
    } else {
      i := n;
    }
  }

  // ---------------------------------------------------------------- authorization traced to its cause

  /** An earlier grant by an operator answers the event. */
  ghost predicate GrantedEarlier(g: Gate, moves: seq<Move>, e: ActionEvent, now: real)
  {
    exists i, id, made ::
      && 0 <= i < |moves| && moves[i].MakeGrant?
      && var x := NewGrant(g.world.mac, g.world.secret, id, moves[i].coords, moves[i].who, made);
        Answers(g.world.mac, g.world.secret, x, AskOf(e), now)
  }

  /** The same thing was asked for earlier and held, and an operator approved that request afterwards. */
  ghost predicate ApprovedEarlier(g: Gate, y: Sys, moves: seq<Move>, e: ActionEvent)
  {
    exists i: nat, j: nat, r ::
      && HeldAt(g, y, moves, i, r) && i < j && ApprovedAt(moves, j, r.id)
      && moves[i].e.actor == e.actor && moves[i].e.action == e.action
      && SameJson(ApprovalPayload(moves[i].e), ApprovalPayload(e))
  }

  /** What was asked for is what the event asks for. */
  predicate AskedFor(r: ApprovalRequest, e: ActionEvent)
  {
    SameRequest(r, e.actor, e.action, ApprovalPayload(e))
  }

  /** A request for the same thing was there at the start, and pending until an operator approved it. */
  ghost predicate LeftoverApproved(g: Gate, y: Sys, moves: seq<Move>, e: ActionEvent)
  {
    exists k: nat, j: nat ::
      && k < |y.state.store.requests| && ApprovedAt(moves, j, y.state.store.requests[k].id)
      && AskedFor(y.state.store.requests[k], e) && y.state.store.requests[k].status == Pending
  }

  /** In every run, an event is authorized only if the policy permits it, or if the policy sends it to approval and
      - a grant answers it that was stored at the start or that an operator, earlier in the run, made, or
      - a request for the same thing was approved at the start, or was pending then and approved in the run, or was
        left by an earlier event with the same actor, action and payload and approved after that. */
  lemma {:induction false} AuthorizationHasACause(g: Gate, y: Sys, moves: seq<Move>, e: ActionEvent)
    requires Consistent(y.state.store) && y.clock >= 0.0
    requires var n := After(g, y, moves); Authorized(g.world, g.rules, n.state.store, e, n.clock)
    ensures var now := After(g, y, moves).clock;
      || PolicyPermits(g.world, g.rules, e)
      || (Gated(g.world, g.rules, e)
          && (LiveGrant(g.world, y.state.store, e, now) || GrantedEarlier(g, moves, e, now)
              || ApprovedBefore(y.state.store, e) || LeftoverApproved(g, y, moves, e)
              || ApprovedEarlier(g, y, moves, e)))
  {
    var n := After(g, y, moves);
    AuthorizationIsSound(g.world, g.rules, n.state.store, e, n.clock);
    if !PolicyPermits(g.world, g.rules, e) {
      if LiveGrant(g.world, n.state.store, e, n.clock) {
        LiveGrantHasACause(g, y, moves, e);
      } else {
        ApprovedRequestHasACause(g, y, moves, e);
      }
    }
  }

  lemma {:induction false} LiveGrantHasACause(g: Gate, y: Sys, moves: seq<Move>, e: ActionEvent)
    requires LiveGrant(g.world, After(g, y, moves).state.store, e, After(g, y, moves).clock)
    ensures LiveGrant(g.world, y.state.store, e, After(g, y, moves).clock)
            || GrantedEarlier(g, moves, e, After(g, y, moves).clock)
  {
    var n := After(g, y, moves);
    var x :| x in n.state.store.grants && Answers(g.world.mac, g.world.secret, x, AskOf(e), n.clock);
    if x !in y.state.store.grants {
      var i := GrantsComeFromOperators(g, y, moves, x);
      var made := NewGrant(g.world.mac, g.world.secret, x.id, moves[i].coords, moves[i].who, x.createdAt);
      assert Answers(g.world.mac, g.world.secret, made, AskOf(e), n.clock);
    }
  }

  lemma {:induction false} ApprovedRequestHasACause(g: Gate, y: Sys, moves: seq<Move>, e: ActionEvent)
    requires Consistent(y.state.store) && y.clock >= 0.0
    requires ApprovedBefore(After(g, y, moves).state.store, e)
    ensures ApprovedBefore(y.state.store, e) || LeftoverApproved(g, y, moves, e) || ApprovedEarlier(g, y, moves, e)
  {
    hide Next, Consistent, Decide;
    var was, requests := y.state.store.requests, After(g, y, moves).state.store.requests;
    RequestLifecycle(g, y, moves);
    var k :| 0 <= k < |requests| && requests[k].status == Approved && AskedFor(requests[k], e);
    if k < |was| {
      assert Progress(was[k], requests[k]) && was[k] in was;
      SameAsked(was[k], requests[k], e);
      if was[k].status != Approved {
        var j := ApprovalsComeFromOperators(g, y, moves, k);
        assert ApprovedAt(moves, j, was[k].id) && AskedFor(was[k], e) && was[k].status == Pending;
      }
    } else {
      var i := RequestsComeFromHeldEvents(g, y, moves, k);
      var j := ApprovalsComeFromOperators(g, y, moves, k);
      HeldBeforeApproved(g, y, moves, k, i, j);
      var atI := After(g, y, moves[..i]);
      SameAsked(Queued(g.world, atI.state.store, moves[i].e, atI.clock), requests[k], e);
    }
  }

  lemma SameAsked(a: ApprovalRequest, b: ApprovalRequest, e: ActionEvent)
    requires SameIdentity(a, b)
    ensures AskedFor(a, e) <==> AskedFor(b, e)
  {
    assert a == b.(status := a.status, resolvedAt := a.resolvedAt, resolvedBy := a.resolvedBy);
  }

  /** The event that left a request comes before the approval of that request. */
  lemma {:induction false} HeldBeforeApproved(g: Gate, y: Sys, moves: seq<Move>, k: nat, i: nat, j: nat)
    requires Consistent(y.state.store) && y.clock >= 0.0
    requires k < |After(g, y, moves).state.store.requests|
    requires var r := After(g, y, moves).state.store.requests[k];
      HeldAt(g, y, moves, i, r) && ApprovedAt(moves, j, r.id)
    requires k < |After(g, y, moves[..j]).state.store.requests|
    ensures i < j
  {
    hide Next, Decide;
    var atJ := After(g, y, moves[..j]);
    RequestLifecycle(g, y, moves[..j]);
    RunContinues(g, y, moves, j);
    RequestLifecycle(g, atJ, moves[j..]);
    assert Progress(atJ.state.store.requests[k], After(g, y, moves).state.store.requests[k]);
    var atI := After(g, y, moves[..i]);
    HoldNamesRequest(g.world, g.rules, atI.state.store, moves[i].e, atI.clock);
    if j <= i {
      RunContinues(g, y, moves[..i], j);
      assert moves[..i][..j] == moves[..j];
      RequestLifecycle(g, atJ, moves[..i][j..]);
    }
  }

  // ---------------------------------------------------------------- the audit trail of a run

  /** The verdicts of the executions that completed, in order. */
  function Completed(g: Gate, y: Sys, moves: seq<Move>): seq<Verdict>
  {
    if moves == [] then []
    else
      var front := moves[..|moves| - 1];
      Completed(g, y, front) + MoveVerdict(g, After(g, y, front), moves[|moves| - 1])
  }

  predicate PlainCapabilities(moves: seq<Move>)
  {
    forall i :: 0 <= i < |moves| && moves[i].Act? ==> Plain(RequiredCapability(moves[i].e))
  }

  /** The base columns say who did what, what came of it and why. */
  predicate BaseAgrees(w: World, b: Base, v: Verdict)
  {
    && b.agentId == v.event.actor && b.taskContext == Some(v.event.action)
    && b.decision == (if v.authorized then "pass" else "fail")
    && b.riskCategory == Some(Str(w.text, v.event.risk)) && b.threshold == Some(0.0)
    && b.riskScore == Some(if IsNumber(v.event.risk) then NumberValue(v.event.risk) else 0.0)
    && b.payloadHash == Some(match Get(v.event.metadata, "payload_hash") case JStr(hash) => hash case _ => "")
    && b.reason == Some(v.reason) && b.timestamp == w.crypto.round6(v.timestamp) && b.latencyMs == Some(v.latencyMs)
  }

  /** The extended columns say it once more, and what was decided, on what capability, and for which approval. */
  predicate ExtendedAgrees(x: Extended, v: Verdict)
  {
    && x.actor == Some(v.event.actor) && x.action == Some(v.event.action)
    && x.resource == Some(v.event.resource) && x.environment == Some(v.event.environment)
    && x.capability == Some(v.requiredCapability)
    && (x.policyDecision == Some("allow") <==> v.decision == Permit)
    && (x.policyDecision == Some("deny") <==> v.decision == Refuse)
    && (x.policyDecision == Some("require_approval") <==> v.decision == Hold)
    && x.executionResult == Some(if v.authorized then "authorized" else "blocked")
    && (x.approvalState == Some("approved") <==> v.authorized && v.approvalId.Some?)
    && (x.approvalState == Some("pending") <==> v.decision == Hold && x.approvalState != Some("approved"))
    && (x.approvalState == Some("none") <==> x.approvalState !in {Some("approved"), Some("pending")})
    && MetadataAgrees(x.metadataJson, v)
  }

  predicate MetadataAgrees(text: Option<JsonText>, v: Verdict)
  {
    && text.Some? && !text.value.Other?
    && text.value.value == CObj(map[
         "latency_ms" := CInt(v.latencyMs),
         "required_capability" := CStr(v.requiredCapability),
         "observe_mode" := CBool(v.observeMode)])
  }

  /** The row is that of the verdict, and it is signed if the gate signs; its signature then passes. */
  ghost predicate RowAgrees(g: Gate, r: Row, v: Verdict)
  {
    && r.missing == [] && BaseAgrees(g.world, r.base, v) && ExtendedAgrees(r.ext, v)
    && (r.signature.Some? <==> g.keys.Some?)
    && (g.keys.Some? && Sound(g.world.crypto, g.keys.value) ==>
          SignedBy(g.world.crypto, g.keys, r) && !Legacy(r))
  }

  /** From row `first` on, the rows are those of the verdicts. */
  ghost predicate RowsOf(g: Gate, rows: seq<Row>, first: nat, vs: seq<Verdict>)
  {
    |rows| == first + |vs| && forall k :: 0 <= k < |vs| ==> RowAgrees(g, rows[first + k], vs[k])
  }

  /** The row is as it was, or had no hash and got one. */
  predicate KeptRow(was: Row, now: Row)
  {
    now == was || (Legacy(was) && now == was.(prevHash := now.prevHash, entryHash := now.entryHash))
  }

  /** The rows that were there are still there, and the new ones are those of the verdicts, in order. */
  ghost predicate Logs(g: Gate, before: seq<Row>, after: seq<Row>, vs: seq<Verdict>)
  {
    RowsOf(g, after, |before|, vs) && forall i :: 0 <= i < |before| ==> KeptRow(before[i], after[i])
  }

  lemma LogsCompose(g: Gate, a: seq<Row>, b: seq<Row>, d: seq<Row>, vs: seq<Verdict>, ws: seq<Verdict>)
    requires Logs(g, a, b, vs) && Logs(g, b, d, ws)
    ensures Logs(g, a, d, vs + ws)
  {
    hide BaseAgrees, ExtendedAgrees, SignedBy;
    forall k | 0 <= k < |vs + ws|
      ensures RowAgrees(g, d[|a| + k], (vs + ws)[k])
    {
      if k < |vs| {
        assert KeptRow(b[|a| + k], d[|a| + k]) && RowAgrees(g, b[|a| + k], vs[k]);
      } else {
        assert RowAgrees(g, d[|b| + (k - |vs|)], ws[k - |vs|]);
      }
    }
    assert forall i :: 0 <= i < |a| ==> KeptRow(a[i], b[i]) && KeptRow(b[i], d[i]);
  }

  lemma LogsNothing(g: Gate, rows: seq<Row>)
    ensures Logs(g, rows, rows, [])
  {
  }

  lemma {:induction false} MigrationLogsNothing(g: Gate, rows: seq<Row>)
    ensures Logs(g, rows, Migrated(g.world.crypto, rows), [])
  {
    forall i | 0 <= i < |rows|
      ensures KeptRow(rows[i], Migrated(g.world.crypto, rows)[i])
    {
      MigratedAt(g.world.crypto, rows, i);
    }
  }

  function RowFor(g: Gate, log: AuditRuns.Table, v: Verdict): Row
  {
    RecordedRow(g.world.text, g.world.crypto, log.rows, log.nextId, g.keys, v)
  }

  lemma RecordedRowAgrees(g: Gate, log: AuditRuns.Table, v: Verdict)
    ensures RowAgrees(g, RowFor(g, log, v), v)
  {
    if g.keys.Some? && Sound(g.world.crypto, g.keys.value) {
      RecordedRowIsSigned(g.world.text, g.world.crypto, log.rows, log.nextId, g.keys, v);
    }
  }

  /** The verdict of an execution that completed. */
  function VerdictOf(r: Result<Verdict>): seq<Verdict>
  {
    if r.Ok? then [r.value] else []
  }

  /** An execution logs exactly its verdict, if it has one. */
  lemma ExecutionLogsVerdict(g: Gate, s: State, e: ActionEvent, now: real, latency: int)
    ensures var (r, after) := Executed(g.world, g.keys, g.rules, false, s, e, now, latency);
      Logs(g, s.log.rows, after.log.rows, VerdictOf(r))
  {
    hide Decide, RecordedRow;
    var (r, after) := Executed(g.world, g.keys, g.rules, false, s, e, now, latency);
    if r.Ok? {
      RecordedRowAgrees(g, s.log, r.value);
      LogsOneRow(g, s.log.rows, RowFor(g, s.log, r.value), r.value);
    }
  }

  lemma LogsOneRow(g: Gate, rows: seq<Row>, r: Row, v: Verdict)
    requires RowAgrees(g, r, v)
    ensures Logs(g, rows, rows + [r], [v])
  {
  }

  /** The verdict of the move, if it is an execution that completes. */
  function MoveVerdict(g: Gate, y: Sys, m: Move): seq<Verdict>
  {
    if m.Act? then VerdictOf(Acted(g, y, m.e, m.latency).0) else []
  }

  lemma MoveLogsVerdict(g: Gate, y: Sys, m: Move)
    ensures Logs(g, y.state.log.rows, Next(g, y, m).state.log.rows, MoveVerdict(g, y, m))
  {
    hide Executed, Migrated;
    match m
    case Act(e, latency) => ExecutionLogsVerdict(g, y.state, e, y.clock, latency);
    case Reopen => MigrationLogsNothing(g, y.state.log.rows);
    case _ =>
  }

  /** In every run, whatever the log and its keys, each completed execution adds exactly one row, the row of its
      verdict, in order; nothing else touches the rows but for hashes that are filled in. */
  lemma {:induction false} RunsAreRecorded(g: Gate, y: Sys, moves: seq<Move>)
    ensures Logs(g, y.state.log.rows, After(g, y, moves).state.log.rows, Completed(g, y, moves))
  {
    hide Next, MoveVerdict;
    if moves == [] {
      LogsNothing(g, y.state.log.rows);
    } else {
      var front := moves[..|moves| - 1];
      var was := After(g, y, front);
      RunsAreRecorded(g, y, front);
      MoveLogsVerdict(g, was, moves[|moves| - 1]);
      LogsCompose(g, y.state.log.rows, was.state.log.rows, After(g, y, moves).state.log.rows,
        Completed(g, y, front), MoveVerdict(g, was, moves[|moves| - 1]));
    }
  }

  lemma RunInvariantIsGood(c: Crypto, publicKey: Option<string>, first: AuditRuns.Table, now: AuditRuns.Table,
          recorded: nat, reading: real)
    requires RunInvariant(c, publicKey, first, now, recorded, reading)
    ensures Findings(c, now.rows, publicKey) == []
  {
    GoodTableIsClean(c, publicKey, now.rows);
  }

  /** And in every run over a good log with plain capabilities and an unchanged key, the log is good at every point, so
      it verifies. */
  lemma {:induction false} RunsAreAudited(g: Gate, publicKey: Option<string>, y: Sys, moves: seq<Move>)
    requires KeyUnchanged(g.world.crypto, g.keys, publicKey) && PlainCapabilities(moves)
    requires RunInvariant(g.world.crypto, publicKey, y.state.log, y.state.log, 0, y.clock)
    ensures var n := After(g, y, moves);
      && RunInvariant(g.world.crypto, publicKey, y.state.log, n.state.log, |Completed(g, y, moves)|, n.clock)
      && Findings(g.world.crypto, n.state.log.rows, publicKey) == []
  {
    hide Next, MoveVerdict, Findings, GoodTable;
    if moves == [] {
    } else {
      var front, m := moves[..|moves| - 1], moves[|moves| - 1];
      RunsAreAudited(g, publicKey, y, front);
      MoveAudited(g, publicKey, y.state.log, After(g, y, front), |Completed(g, y, front)|, m);
    }
    RunInvariantIsGood(g.world.crypto, publicKey, y.state.log, After(g, y, moves).state.log,
        |Completed(g, y, moves)|, After(g, y, moves).clock);
  }

  lemma MoveAudited(g: Gate, publicKey: Option<string>, first: AuditRuns.Table, y: Sys, recorded: nat, m: Move)
    requires KeyUnchanged(g.world.crypto, g.keys, publicKey) && (m.Act? ==> Plain(RequiredCapability(m.e)))
    requires RunInvariant(g.world.crypto, publicKey, first, y.state.log, recorded, y.clock)
    ensures var n := Next(g, y, m);
      RunInvariant(g.world.crypto, publicKey, first, n.state.log, recorded + |MoveVerdict(g, y, m)|, n.clock)
  {
    hide Decide, RecordedRow, GoodTable;
    var c := g.world.crypto;
    match m {
      case Act(e, latency) =>
        var r := Acted(g, y, e, latency).0;
        if r.Ok? {
          RecordKeepsInvariant(g.world.text, c, g.keys, publicKey, first, y.state.log, recorded, y.clock, r.value);
        }
      case Reopen => OpeningGoodTable(c, publicKey, y.state.log.rows);
      case Wait(seconds) => assert c.round6(y.clock) <= c.round6(y.clock + seconds);
      case _ =>
    }
  }

  // ---------------------------------------------------------------- a held event, once approved

  /** The store of a held event knows no malformed grant for its actor. */
  lemma HeldMeansNoneBroken(w: World, b: Rulebook, s: Store, e: ActionEvent, now: real)
    requires Decide(w, b, s, e, now).Ok? && Decide(w, b, s, e, now).value.decision == Hold
    ensures Gated(w, b, e) && Parse(RequiredCapability(e)).Some? && forall x :: x in s.grants ==> !Broken(x, AskOf(e))
  {
    hide Decide, Gated;
    HoldNamesRequest(w, b, s, e, now);
    SearchMisses(w.mac, w.secret, s.grants, AskOf(e), now);
  }

  /** No operator makes a malformed grant for the actor of the event. */
  predicate NoBrokenGrants(moves: seq<Move>, e: ActionEvent)
  {
    forall i :: 0 <= i < |moves| && moves[i].MakeGrant? ==>
      Parse(moves[i].coords.capability).Some? || !ForCoords(moves[i].coords, e.actor)
  }

  predicate ForCoords(c: Coordinates, actor: string)
  {
    c.actor == actor || c.actor == "*"
  }

  lemma {:induction false} StaysUnbroken(g: Gate, y: Sys, moves: seq<Move>, e: ActionEvent)
    requires NoBrokenGrants(moves, e) && forall x :: x in y.state.store.grants ==> !Broken(x, AskOf(e))
    ensures forall x :: x in After(g, y, moves).state.store.grants ==> !Broken(x, AskOf(e))
  {
    forall x | x in After(g, y, moves).state.store.grants
      ensures !Broken(x, AskOf(e))
    {
      if x !in y.state.store.grants {
        var i := GrantsComeFromOperators(g, y, moves, x);
      }
    }
  }

  /** In every run: an event that was held, whose request an operator approves while it is pending, is authorized when
      it is tried again at the end of the run, whatever else happens before and after the approval, if and only if no
      malformed grant for its actor is then stored before every grant that answers it; where one is, it raises. */
  lemma {:induction false} HeldEventPassesOnRetry(g: Gate, y: Sys, e: ActionEvent, latency: int, between: seq<Move>,
          user: string, later: seq<Move>, again: int)
    requires Consistent(y.state.store) && y.clock >= 0.0
    requires Acted(g, y, e, latency).0.Ok? && Acted(g, y, e, latency).0.value.decision == Hold
    requires PendingAfter(g, Next(g, y, Act(e, latency)), between, y.state.store.nextId)
    ensures var n := Retried(g, y, e, latency, between, user, later);
      && (Authorized(g.world, g.rules, n.state.store, e, n.clock)
          <==> !BrokenFirst(g.world.mac, g.world.secret, n.state.store.grants, AskOf(e), n.clock))
      && (Acted(g, n, e, again).0.Raised?
          <==> BrokenFirst(g.world.mac, g.world.secret, n.state.store.grants, AskOf(e), n.clock))
  {
    hide Next, After, Acted, Decide, Gated, ApprovedBefore, Authorized, BrokenFirst;
    var n := Retried(g, y, e, latency, between, user, later);
    ActDecides(g, y, e, latency);
    HeldMeansNoneBroken(g.world, g.rules, y.state.store, e, y.clock);
    ApprovalReaches(g, y, e, latency, between, user, later);
    ApprovedPassesIff(g.world, g.rules, n.state.store, e, n.clock);
    ActDecides(g, n, e, again);
  }

  /** Request `id` is there and pending after the moves. */
  predicate PendingAfter(g: Gate, y: Sys, moves: seq<Move>, id: nat)
  {
    var r := Find(After(g, y, moves).state.store.requests, id);
    r.Some? && r.value.status == Pending
  }

  /** The event is tried, then come the moves in between, the approval of the request that it left, and later moves. */
  function Retried(g: Gate, y: Sys, e: ActionEvent, latency: int, between: seq<Move>, user: string,
          later: seq<Move>): Sys
  {
    var held := After(g, Next(g, y, Act(e, latency)), between);
    After(g, Next(g, held, Resolve(y.state.store.nextId, true, user)), later)
  }

  /** So it is authorized whenever no malformed grant for its actor is made meanwhile. */
  lemma {:induction false} PassesUnlessMalformed(g: Gate, y: Sys, e: ActionEvent, latency: int, between: seq<Move>,
          user: string, later: seq<Move>)
    requires Consistent(y.state.store) && y.clock >= 0.0
    requires Acted(g, y, e, latency).0.Ok? && Acted(g, y, e, latency).0.value.decision == Hold
    requires PendingAfter(g, Next(g, y, Act(e, latency)), between, y.state.store.nextId)
    requires NoBrokenGrants(between + later, e)
    ensures var n := Retried(g, y, e, latency, between, user, later);
      Authorized(g.world, g.rules, n.state.store, e, n.clock)
  {
    hide Next, After, Acted, Decide, Gated, Authorized;
    HeldEventPassesOnRetry(g, y, e, latency, between, user, later, latency);
    var start := Next(g, y, Act(e, latency));
    var held := After(g, start, between);
    var approved := Next(g, held, Resolve(y.state.store.nextId, true, user));
    ActDecides(g, y, e, latency);
    HeldMeansNoneBroken(g.world, g.rules, y.state.store, e, y.clock);
    HoldKeepsGrants(g.world, y.state.store, Decide(g.world, g.rules, y.state.store, e, y.clock).value, e, y.clock);
    var moves := between + later;
    assert forall i :: 0 <= i < |between| ==> moves[i] == between[i];
    assert forall i :: 0 <= i < |later| ==> moves[|between| + i] == later[i];
    StaysUnbroken(g, start, between, e);
    ResolveKeepsGrants(g, held, y.state.store.nextId, user);
    StaysUnbroken(g, approved, later, e);
  }

  /** And there is a run in which the retry of any held event raises: its request is approved, and then an operator
      makes a grant for the actor, or for `*`, with a malformed capability. */
  lemma {:induction false} MalformedGrantStopsRetry(g: Gate, y: Sys, e: ActionEvent, latency: int, user: string,
          c: Coordinates, who: string, again: int)
    requires Consistent(y.state.store) && y.clock >= 0.0
    requires Acted(g, y, e, latency).0.Ok? && Acted(g, y, e, latency).0.value.decision == Hold
    requires Parse(c.capability).None? && ForCoords(c, e.actor)
    ensures PendingAfter(g, Next(g, y, Act(e, latency)), [], y.state.store.nextId)
    ensures var approved := Retried(g, y, e, latency, [], user, []);
      Authorized(g.world, g.rules, approved.state.store, e, approved.clock)
    ensures Acted(g, Retried(g, y, e, latency, [], user, [MakeGrant(c, who)]), e, again).0.Raised?
  {
    hide Acted, Decide, Gated, Authorized, Search;
    var start := Next(g, y, Act(e, latency));
    ActDecides(g, y, e, latency);
    HoldNamesRequest(g.world, g.rules, y.state.store, e, y.clock);
    HoldLeavesPending(g.world, y.state.store, e, y.clock);
    PassesUnlessMalformed(g, y, e, latency, [], user, []);
    HeldEventPassesOnRetry(g, y, e, latency, [], user, [MakeGrant(c, who)], again);
    var approved := Next(g, start, Resolve(y.state.store.nextId, true, user));
    ResolveKeepsGrants(g, start, y.state.store.nextId, user);
    var n := Next(g, approved, MakeGrant(c, who));
    assert After(g, approved, [MakeGrant(c, who)]) == n;
    NewestIsBroken(g.world.mac, g.world.secret, y.state.store.grants, n.state.store.grants[|y.state.store.grants|],
      AskOf(e), y.clock);
  }

  lemma HoldLeavesPending(w: World, s: Store, e: ActionEvent, now: real)
    requires Consistent(s) && now >= 0.0
    ensures var n := s.requests + [Queued(w, s, e, now)]; Find(n, s.nextId) == Some(Queued(w, s, e, now))
  {
    var n := s.requests + [Queued(w, s, e, now)];
    assert n[|s.requests|].id == s.nextId;
    FindPosition(n, s.nextId, |s.requests|);
  }

  /** Where a check came back empty, one malformed grant more stops every later check. */
  lemma {:induction false} NewestIsBroken(mac: Mac, secret: string, grants: seq<Grant>, x: Grant, a: Ask, now: real)
    requires Search(mac, secret, grants, a, now) == NotFound && Broken(x, a)
    ensures BrokenFirst(mac, secret, grants + [x], a, now)
  {
    SearchMisses(mac, secret, grants, a, now);
    assert forall j :: 0 <= j < |grants| ==> grants[j] in grants && (grants + [x])[j] == grants[j];
    assert StopsSearch(mac, secret, grants + [x], a, now, |grants|);
  }

  lemma HoldKeepsGrants(w: World, s: Store, o: Outcome, e: ActionEvent, now: real)
    ensures StoreAfter(w, s, o, e, now).grants == s.grants
  {
  }

  lemma ResolveKeepsGrants(g: Gate, y: Sys, id: nat, user: string)
    ensures Next(g, y, Resolve(id, true, user)).state.store.grants == y.state.store.grants
  {
  }

  /** The approved request of the held event is still approved, and for the same thing, at the end. */
  lemma {:induction false} ApprovalReaches(g: Gate, y: Sys, e: ActionEvent, latency: int, between: seq<Move>,
          user: string, later: seq<Move>)
    requires Consistent(y.state.store) && y.clock >= 0.0
    requires Acted(g, y, e, latency).0.Ok? && Acted(g, y, e, latency).0.value.decision == Hold
    requires PendingAfter(g, Next(g, y, Act(e, latency)), between, y.state.store.nextId)
    ensures ApprovedBefore(Retried(g, y, e, latency, between, user, later).state.store, e)
  {
    hide Next, After, Acted, Decide;
    var start, k := Next(g, y, Act(e, latency)), |y.state.store.requests|;
    var held := After(g, start, between);
    var approved := Next(g, held, Resolve(y.state.store.nextId, true, user));
    var n := After(g, approved, later);
    var r := Queued(g.world, y.state.store, e, y.clock);
    ActDecides(g, y, e, latency);
    assert start.state.store.requests == y.state.store.requests + [r];
    MoveAdvances(g, y, Act(e, latency));
    RequestLifecycle(g, start, between);
    MoveAdvances(g, held, Resolve(y.state.store.nextId, true, user));
    RequestLifecycle(g, approved, later);
    assert Progress(r, held.state.store.requests[k]);
    assert held.state.store.requests[k].status == Pending;
    ResolveApproves(g, held, k, user);
    assert Progress(approved.state.store.requests[k], n.state.store.requests[k]);
    assert n.state.store.requests[k] in n.state.store.requests;
  }

  lemma ResolveApproves(g: Gate, y: Sys, k: nat, user: string)
    requires k < |y.state.store.requests| && DistinctIds(y.state.store.requests)
    requires y.state.store.requests[k].status == Pending
    ensures var n := Next(g, y, Resolve(y.state.store.requests[k].id, true, user));
      && n.state.store.requests[k].status == Approved
      && SameIdentity(n.state.store.requests[k], y.state.store.requests[k])
      && n.clock == y.clock
  {
    FindPosition(y.state.store.requests, y.state.store.requests[k].id, k);
  }
}
