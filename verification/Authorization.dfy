/** When an event is authorized, and what an operator's approval changes. */
module Authorization {
  import opened Json
  import opened Events
  import opened Capabilities
  import opened Policy
  import opened Approvals
  import opened Runtime

  predicate Authorized(w: World, b: Rulebook, s: Store, e: ActionEvent, now: real)
  {
    var o := Decide(w, b, s, e, now);
    o.Ok? && o.value.authorized
  }

  /** A stored grant answers the event's question now. */
  ghost predicate LiveGrant(w: World, s: Store, e: ActionEvent, now: real)
  {
    exists g :: g in s.grants && Answers(w.mac, w.secret, g, AskOf(e), now)
  }

  predicate ApprovedBefore(s: Store, e: ActionEvent)
  {
    HasApproved(s.requests, e.actor, e.action, ApprovalPayload(e))
  }

  predicate PolicyPermits(w: World, b: Rulebook, e: ActionEvent)
  {
    RulingOf(w, b, e).Ok? && Permits(RulingOf(w, b, e).value)
  }

  function GrantCheck(w: World, s: Store, e: ActionEvent, now: real): Check
  {
    CheckGrants(w.mac, w.secret, s.grants, AskOf(e), now)
  }

  lemma AuthorizedBy(w: World, b: Rulebook, s: Store, e: ActionEvent, now: real)
    ensures Authorized(w, b, s, e, now) <==>
      || PolicyPermits(w, b, e)
      || (Gated(w, b, e)
          && (|| GrantCheck(w, s, e, now).Found?
              || (GrantCheck(w, s, e, now) == NotFound && ApprovedBefore(s, e))))
  {
  }

  /** Nothing is authorized unless the policy permits it, or sends it to approval and a live grant or an approved
      request for the same thing is stored. A denied event is authorized by no store at all. */
  lemma AuthorizationIsSound(w: World, b: Rulebook, s: Store, e: ActionEvent, now: real)
    ensures Authorized(w, b, s, e, now) ==>
      PolicyPermits(w, b, e) || (Gated(w, b, e) && (LiveGrant(w, s, e, now) || ApprovedBefore(s, e)))
    ensures RulingOf(w, b, e) == Ok(Denied) ==> !Authorized(w, b, s, e, now)
  {
    AuthorizedBy(w, b, s, e, now);
    SearchFinds(w.mac, w.secret, s.grants, AskOf(e), now);
    if Gated(w, b, e) && CheckGrants(w.mac, w.secret, s.grants, AskOf(e), now).Found? {
      var i :| FirstAnswer(w.mac, w.secret, s.grants, AskOf(e), now, i);
      assert s.grants[i] in s.grants;
    }
  }

  /** No grant for the actor is malformed and the event's capability is well formed. */
  ghost predicate WellFormedFor(s: Store, e: ActionEvent)
  {
    Parse(RequiredCapability(e)).Some? && forall g :: g in s.grants ==> !Broken(g, AskOf(e))
  }

  /** Where nothing is malformed the two sides are the same. */
  lemma AuthorizedIff(w: World, b: Rulebook, s: Store, e: ActionEvent, now: real)
    requires WellFormedFor(s, e)
    ensures Authorized(w, b, s, e, now) <==>
      PolicyPermits(w, b, e) || (Gated(w, b, e) && (LiveGrant(w, s, e, now) || ApprovedBefore(s, e)))
  {
    AuthorizedBy(w, b, s, e, now);
    CheckIffSomeGrantAnswers(w.mac, w.secret, s.grants, AskOf(e), now);
  }

  /** An approval-gated event with an approved request passes if and only if no malformed grant for its actor stands
      before every grant that answers it; then deciding it raises. */
  lemma ApprovedPassesIff(w: World, b: Rulebook, s: Store, e: ActionEvent, now: real)
    requires Gated(w, b, e) && Parse(RequiredCapability(e)).Some? && ApprovedBefore(s, e)
    ensures Authorized(w, b, s, e, now) <==> !BrokenFirst(w.mac, w.secret, s.grants, AskOf(e), now)
    ensures Decide(w, b, s, e, now).Raised? <==> BrokenFirst(w.mac, w.secret, s.grants, AskOf(e), now)
  {
    hide BrokenFirst, RulingOf, HasApproved, Search;
    SearchRaises(w.mac, w.secret, s.grants, AskOf(e), now);
  }

  // ---------------------------------------------------------------- what one approval does

  function WithStatus(s: Store, id: nat, status: Status, who: Option<string>, at: real): Store
  {
    s.(requests := UpdateWhere(s.requests, id, status, who, at))
  }

  /** Resolving a request changes no other, so what else was approved stays so. */
  lemma ApprovedAfter(s: Store, k: nat, who: Option<string>, at: real, agentId: string, toolName: string, payload: Dict)
    requires k < |s.requests| && DistinctIds(s.requests) && s.requests[k].status != Approved
    ensures var after := UpdateWhere(s.requests, s.requests[k].id, Approved, who, at);
      HasApproved(after, agentId, toolName, payload) <==>
        HasApproved(s.requests, agentId, toolName, payload) || SameRequest(s.requests[k], agentId, toolName, payload)
  {
    var after := UpdateWhere(s.requests, s.requests[k].id, Approved, who, at);
    forall i | 0 <= i < |s.requests|
      ensures i != k ==> after[i] == s.requests[i]
    {
    }
    if HasApproved(s.requests, agentId, toolName, payload) {
      var i :| && 0 <= i < |s.requests| && s.requests[i].status == Approved
               && SameRequest(s.requests[i], agentId, toolName, payload);
      assert after[i] in after;
    }
    if SameRequest(s.requests[k], agentId, toolName, payload) {
      assert after[k] in after;
    }
    if HasApproved(after, agentId, toolName, payload) {
      var i :| 0 <= i < |after| && after[i].status == Approved && SameRequest(after[i], agentId, toolName, payload);
      assert i == k || s.requests[i] in s.requests;
    }
  }

  /** Approving a request newly authorizes exactly the events that the policy sends to approval, whose check of
      grants ends without one, and that have the same actor, the same action and an equal payload. */
  lemma ApprovalEnablesExactly(w: World, b: Rulebook, s: Store, k: nat, who: Option<string>, at: real, e: ActionEvent,
          now: real)
    requires k < |s.requests| && DistinctIds(s.requests) && s.requests[k].status != Approved
    ensures Authorized(w, b, WithStatus(s, s.requests[k].id, Approved, who, at), e, now) <==>
      || Authorized(w, b, s, e, now)
      || (Gated(w, b, e) && GrantCheck(w, s, e, now) == NotFound
          && SameRequest(s.requests[k], e.actor, e.action, ApprovalPayload(e)))
  {
    AuthorizedBy(w, b, s, e, now);
    AuthorizedBy(w, b, WithStatus(s, s.requests[k].id, Approved, who, at), e, now);
    ApprovedAfter(s, k, who, at, e.actor, e.action, ApprovalPayload(e));
  }

  // ---------------------------------------------------------------- what one grant does

  /** The coordinates say that the event may pass now. */
  predicate Grants(c: Coordinates, e: ActionEvent, now: real)
  {
    && c.actor in {"*", e.actor} && c.environment in {"*", e.environment}
    && Parse(c.capability).Some? && Parse(RequiredCapability(e)).Some?
    && Covers(Parse(c.capability).value, Parse(RequiredCapability(e)).value)
    && (c.expiresAt == None || now <= c.expiresAt.value)
    && (c.sessionId == None || Get(e.metadata, "session_id") == JStr(c.sessionId.value))
  }

  /** An operator's grant for a well-formed capability newly authorizes exactly the events that the policy sends to
      approval, whose check of grants ended without one, and that its coordinates are about: their actor, environment
      and session, a capability that covers theirs, and a time that has not passed. */
  lemma GrantEnablesExactly(w: World, b: Rulebook, s: Store, c: Coordinates, who: string, made: real, e: ActionEvent,
          now: real)
    requires Parse(c.capability).Some?
    ensures var after := s.(grants := s.grants + [NewGrant(w.mac, w.secret, s.nextId, c, who, made)],
            nextId := s.nextId + 1);
      Authorized(w, b, after, e, now) <==>
        || Authorized(w, b, s, e, now)
        || (Gated(w, b, e) && GrantCheck(w, s, e, now) == NotFound && Grants(c, e, now))
  {
    hide Decide, RulingOf, Search, Parse, Covers, HasApproved;
    var g := NewGrant(w.mac, w.secret, s.nextId, c, who, made);
    var after := s.(grants := s.grants + [g], nextId := s.nextId + 1);
    AuthorizedBy(w, b, s, e, now);
    AuthorizedBy(w, b, after, e, now);
    SearchSnoc(w.mac, w.secret, s.grants, g, AskOf(e), now);
    SearchOne(w.mac, w.secret, g, AskOf(e), now);
    AnswersIffGrants(w, g, e, now);
  }

  lemma {:induction false} SearchOne(mac: Mac, secret: string, g: Grant, a: Ask, now: real)
    requires Parse(g.coords.capability).Some?
    ensures Search(mac, secret, [g], a, now) == if Answers(mac, secret, g, a, now) then Found(g) else NotFound
  {
    assert [g][1..] == [];
  }

  lemma AnswersIffGrants(w: World, g: Grant, e: ActionEvent, now: real)
    requires g.signature == w.mac(w.secret, g.coords)
    ensures Answers(w.mac, w.secret, g, AskOf(e), now) <==> Grants(g.coords, e, now)
  {
  }

  // ---------------------------------------------------------------- what the reason says

  /** The reason of an outcome tells what decided it. */
  lemma ReasonTellsCause(w: World, b: Rulebook, s: Store, e: ActionEvent, now: real)
    requires Decide(w, b, s, e, now).Ok?
    ensures var o, ruling := Decide(w, b, s, e, now).value, RulingOf(w, b, e).value;
      && (o.reason == "policy_allow" <==> ruling == Allowed)
      && (o.reason == "policy_warn" <==> ruling == Warned)
      && (o.reason == "policy_deny" <==> ruling == Denied)
      && (o.reason == "policy_default_deny" <==> ruling == DefaultDenied && !Gated(w, b, e))
      && (o.reason == "previously_approved" <==>
            Gated(w, b, e) && GrantCheck(w, s, e, now) == NotFound && ApprovedBefore(s, e))
      && (StartsWith(o.reason, "approved_grant:") <==> Gated(w, b, e) && GrantCheck(w, s, e, now).Found?)
      && (StartsWith(o.reason, "approval_required:") <==> o.decision == Hold)
      && (o.approvalId.Some? <==> StartsWith(o.reason, "approved_grant:") || o.decision == Hold)
      && (forall g :: Gated(w, b, e) && GrantCheck(w, s, e, now) == Found(g) ==> o.approvalId == Some(g.id))
      && (o.decision == Refuse <==> ruling == Denied || (ruling == DefaultDenied && !Gated(w, b, e)))
  {
    hide RulingOf, CheckGrants, HasApproved, Truthy, StartsWith;
    ReasonsDiffer(Decide(w, b, s, e, now).value.reason);
    match GrantCheck(w, s, e, now) {
      case Found(g) => Begins("approved_grant:", w.text.idText(g.id), ":", g.grantedBy);
      case _ => Begins("approval_required:", w.text.idText(s.nextId), "", "");
    }
  }

  lemma Begins(prefix: string, a: string, b: string, c: string)
    ensures StartsWith(prefix + a, prefix) && StartsWith(prefix + a + b + c, prefix)
  {
  }

  lemma ReasonsDiffer(r: string)
    ensures StartsWith(r, "approved_grant:") ==> r[0] == 'a' && |r| > 6 && r[6] == 'e'
    ensures StartsWith(r, "approval_required:") ==> r[0] == 'a' && |r| > 6 && r[6] == 'a'
    ensures r in {"policy_allow", "policy_warn", "policy_deny", "policy_default_deny", "previously_approved"} ==>
      r[0] == 'p'
  {
  }

  /** The approval engine is asked where the policy requires approval, and where it decides nothing but the event itself
      asks for approval. */
  lemma GatedIff(w: World, b: Rulebook, e: ActionEvent)
    requires ValidEvent(e)
    ensures Gated(w, b, e) <==>
      || RulingOf(w, b, e) == Ok(ApprovalRequired)
      || (RulingOf(w, b, e) == Ok(DefaultDenied) && Get(e.metadata, "require_approval") == JBool(true))
  {
    hide RulingOf;
    CheckedLookup(e.metadata, "require_approval");
  }
}
