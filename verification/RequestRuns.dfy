/** What becomes of one approval request in a run of the whole gate: capfence/core/approvals.py:292-379. */
module RequestRuns {
  import opened Json
  import opened Events
  import opened Approvals
  import opened Runtime
  import opened SystemRuns

  /** The move settles the request: an operator resolves it, or pending requests are swept after it expired. */
  predicate SettlesNow(y: Sys, m: Move, r: ApprovalRequest)
  {
    || (m.Resolve? && m.id == r.id)
    || (m.Sweep? && r.expiresAt.Some? && y.clock > r.expiresAt.value)
  }

  /** The request as the move leaves it. */
  function SettledNow(y: Sys, m: Move, r: ApprovalRequest): ApprovalRequest
  {
    var settled := r.(resolvedAt := Some(y.clock));
    match m
    case Resolve(_, approve, user) =>
      settled.(status := if approve then Approved else Rejected, resolvedBy := Some(user))
    case _ => settled.(status := Expired, resolvedBy := None)
  }

  predicate Settles(g: Gate, y: Sys, moves: seq<Move>, i: int, r: ApprovalRequest)
  {
    0 <= i < |moves| && SettlesNow(After(g, y, moves[..i]), moves[i], r)
  }

  predicate SettlesFirst(g: Gate, y: Sys, moves: seq<Move>, i: int, r: ApprovalRequest)
  {
    Settles(g, y, moves, i, r) && forall j :: 0 <= j < i ==> !Settles(g, y, moves, j, r)
  }

  /** One move leaves a pending request as it is, or settles it. */
  lemma PendingMove(g: Gate, y: Sys, m: Move, k: nat)
    requires Consistent(y.state.store) && y.clock >= 0.0
    requires k < |y.state.store.requests| && y.state.store.requests[k].status == Pending
    ensures var r, now := y.state.store.requests[k], Next(g, y, m).state.store.requests;
      k < |now| && now[k] == if SettlesNow(y, m, r) then SettledNow(y, m, r) else r
  {
    hide Acted, Decide, Queued;
    var requests := y.state.store.requests;
    assert requests[k] in requests;
    match m {
      case Act(e, latency) => ActDecides(g, y, e, latency);
      case Resolve(id, approve, user) =>
        if requests[k].id == id {
          FindPosition(requests, id, k);
        }
      case _ =>
    }
  }

  /** In every run a pending request stays exactly as it is until the first move that settles it, and then is what that
      move made of it: approved or rejected by the operator, or expired by the sweep, at the time of the move. */
  lemma {:induction false} RequestFate(g: Gate, y: Sys, moves: seq<Move>, k: nat)
    requires Consistent(y.state.store) && y.clock >= 0.0
    requires k < |y.state.store.requests| && y.state.store.requests[k].status == Pending
    ensures var r, now := y.state.store.requests[k], After(g, y, moves).state.store.requests;
      && k < |now|
      && ((forall i :: !Settles(g, y, moves, i, r)) ==> now[k] == r)
      && forall i :: SettlesFirst(g, y, moves, i, r) ==>
           now[k] == SettledNow(After(g, y, moves[..i]), moves[i], r)
  {
    hide Next, SettlesNow, SettledNow, Consistent, Settles, SettlesFirst;
    var r := y.state.store.requests[k];
    if moves == [] {
      NothingSettles(g, y, r);
    } else {
      var n := |moves| - 1;
      var front := moves[..n];
      RequestFate(g, y, front, k);
      RequestLifecycle(g, y, front);
      SettlesInPrefix(g, y, moves, r);
      var was, now := After(g, y, front), After(g, y, moves).state.store.requests;
      if i :| Settles(g, y, front, i, r) {
        var first := FirstSettling(g, y, front, i, r);
        NotPending(After(g, y, front[..first]), front[first], r);
        SettledStays(g, was, moves[n], k);
        OnlyOneFirst(g, y, moves, first, r);
      } else {
        PendingMove(g, was, moves[n], k);
      }
    }
  }

  lemma NothingSettles(g: Gate, y: Sys, r: ApprovalRequest)
    ensures forall i :: !Settles(g, y, [], i, r) && !SettlesFirst(g, y, [], i, r)
  {
  }

  /** What settles a request in a run settles it in the run without its last move, or is that move. */
  lemma {:induction false} SettlesInPrefix(g: Gate, y: Sys, moves: seq<Move>, r: ApprovalRequest)
    requires moves != []
    ensures var n := |moves| - 1; var front := moves[..n];
      && (forall i :: Settles(g, y, front, i, r) ==>
            0 <= i < n && Settles(g, y, moves, i, r) && front[..i] == moves[..i])
      && (forall i :: SettlesFirst(g, y, front, i, r) ==> 0 <= i < n && SettlesFirst(g, y, moves, i, r))
      && (forall i :: Settles(g, y, moves, i, r) ==> 0 <= i <= n)
      && (forall i :: Settles(g, y, moves, i, r) && i < n ==> Settles(g, y, front, i, r))
      && (Settles(g, y, moves, n, r) <==> SettlesNow(After(g, y, front), moves[n], r))
      && forall i :: SettlesFirst(g, y, moves, i, r) ==> Settles(g, y, moves, i, r)
  {
    hide SettlesNow, After;
    var n := |moves| - 1;
    var front := moves[..n];
    forall i | 0 <= i < n
      ensures front[..i] == moves[..i] && (Settles(g, y, front, i, r) <==> Settles(g, y, moves, i, r))
    {
    }
  }

  /** A request that is not pending stays as it is. */
  lemma SettledStays(g: Gate, y: Sys, m: Move, k: nat)
    requires Consistent(y.state.store) && y.clock >= 0.0
    requires k < |y.state.store.requests| && y.state.store.requests[k].status != Pending
    ensures var now := Next(g, y, m).state.store.requests; k < |now| && now[k] == y.state.store.requests[k]
  {
    hide Next, Consistent;
    MoveAdvances(g, y, m);
    assert Progress(y.state.store.requests[k], Next(g, y, m).state.store.requests[k]);
  }

  lemma FirstSettling(g: Gate, y: Sys, moves: seq<Move>, i: int, r: ApprovalRequest) returns (first: int)
    requires Settles(g, y, moves, i, r)
    ensures 0 <= first <= i < |moves| && SettlesFirst(g, y, moves, first, r)
    decreases i
  {
    hide SettlesNow, After;
    first := i;
    if j :| 0 <= j < i && Settles(g, y, moves, j, r) {
      first := FirstSettling(g, y, moves, j, r);
    }
  }

  lemma OnlyOneFirst(g: Gate, y: Sys, moves: seq<Move>, first: int, r: ApprovalRequest)
    requires SettlesFirst(g, y, moves, first, r)
    ensures forall i :: SettlesFirst(g, y, moves, i, r) ==> i == first
  {
    hide SettlesNow, After;
  }

  lemma NotPending(y: Sys, m: Move, r: ApprovalRequest)
    ensures SettledNow(y, m, r).status != Pending
  {
  }

  // ---------------------------------------------------------------- the request of a held event

  /** A held event leaves one request more: for its actor, action, capability and payload, pending, and for an hour. */
  lemma HeldRequest(g: Gate, y: Sys, e: ActionEvent, latency: int)
    requires Acted(g, y, e, latency).0.Ok? && Acted(g, y, e, latency).0.value.decision == Hold
    ensures var was, now := y.state.store.requests, Next(g, y, Act(e, latency)).state.store.requests;
      && |now| == |was| + 1 && now[..|was|] == was
      && var r := now[|was|];
        && r.id == y.state.store.nextId && r.status == Pending && r.resolvedAt == None && r.resolvedBy == None
        && r.agentId == e.actor && r.toolName == e.action && r.capability == RequiredCapability(e)
        && r.payload == (if PolicyPayload(e) != [] then PolicyPayload(e) else e.metadata)
        && r.reason == "Action Runtime enforce: require_approval for " + RequiredCapability(e)
        && r.createdAt == y.clock && r.expiresAt == Some(y.clock + 3600.0)
  {
    hide Decide, RequiredCapability, PolicyPayload;
    ActDecides(g, y, e, latency);
  }

  /** The move is an operator's word on request `id`, or a sweep after `deadline`. */
  predicate EndsWait(y: Sys, m: Move, id: nat, deadline: real)
  {
    (m.Resolve? && m.id == id) || (m.Sweep? && y.clock > deadline)
  }

  /** In every run after an event was held, its request is pending if and only if no operator has approved or rejected
      it and no sweep came more than an hour after the event. */
  lemma {:induction false} HeldEventWaitsAnHour(g: Gate, y: Sys, e: ActionEvent, latency: int, moves: seq<Move>)
    requires Consistent(y.state.store) && y.clock >= 0.0
    requires Acted(g, y, e, latency).0.Ok? && Acted(g, y, e, latency).0.value.decision == Hold
    ensures var start, id := Next(g, y, Act(e, latency)), y.state.store.nextId;
      PendingAfter(g, start, moves, id)
      <==> forall i :: 0 <= i < |moves| ==> !EndsWait(After(g, start, moves[..i]), moves[i], id, y.clock + 3600.0)
  {
    hide Next, Acted, Decide, Consistent, Settles, SettlesFirst, After;
    var start, k := Next(g, y, Act(e, latency)), |y.state.store.requests|;
    HeldRequest(g, y, e, latency);
    MoveAdvances(g, y, Act(e, latency));
    RequestFate(g, start, moves, k);
    RequestLifecycle(g, start, moves);
    var r := start.state.store.requests[k];
    WaitEnds(g, start, moves, r, y.clock + 3600.0);
    SameIdWhenSettled(g, start, moves, k);
  }

  lemma {:induction false} WaitEnds(g: Gate, y: Sys, moves: seq<Move>, r: ApprovalRequest, deadline: real)
    requires r.expiresAt == Some(deadline)
    ensures forall i :: 0 <= i < |moves| ==>
      (EndsWait(After(g, y, moves[..i]), moves[i], r.id, deadline) <==> Settles(g, y, moves, i, r))
    ensures forall i :: Settles(g, y, moves, i, r) ==> 0 <= i < |moves|
  {
    hide After;
  }

  lemma {:induction false} SameIdWhenSettled(g: Gate, y: Sys, moves: seq<Move>, k: nat)
    requires Consistent(y.state.store) && y.clock >= 0.0
    requires k < |y.state.store.requests| && y.state.store.requests[k].status == Pending
    ensures var r := y.state.store.requests[k];
      PendingAfter(g, y, moves, r.id) <==> forall i :: !Settles(g, y, moves, i, r)
  {
    hide Next, After, SettlesNow, Settles;
    var r := y.state.store.requests[k];
    RequestFate(g, y, moves, k);
    RequestLifecycle(g, y, moves);
    var now := After(g, y, moves).state.store.requests;
    assert Progress(r, now[k]);
    FindPosition(now, r.id, k);
    if i :| Settles(g, y, moves, i, r) {
      var first := FirstSettling(g, y, moves, i, r);
      NotPending(After(g, y, moves[..first]), moves[first], r);
    }
  }
}
