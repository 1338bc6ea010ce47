/** Grants and approval requests, capfence/core/approvals.py. Each public method is one atomic step with one
    clock reading; the operator secret is read from the environment when it is used. */
module Approvals {
  import opened Json
  import opened Capabilities

  /** Everything a grant's signature binds. */
  datatype Coordinates = Coordinates(
    actor: string, capability: string, environment: string, expiresAt: Option<real>, sessionId: Option<string>)

  /** The keyed digest: secret and message to signature. */
  type Mac = (string, Coordinates) -> string

  /** A signature of "" stands for a row without one. */
  datatype Grant = Grant(id: nat, coords: Coordinates, grantedBy: string, createdAt: real, signature: string)

  datatype Status = Pending | Approved | Rejected | Expired

  datatype ApprovalRequest = ApprovalRequest(
    id: nat, agentId: string, toolName: string, capability: string, payload: Dict, reason: string,
    status: Status, createdAt: real, expiresAt: Option<real>, resolvedAt: Option<real>, resolvedBy: Option<string>)

  datatype Store = Store(grants: seq<Grant>, requests: seq<ApprovalRequest>, nextId: nat)

  // ---------------------------------------------------------------- grants

  /** The question put to `check_approval`. */
  datatype Ask = Ask(actor: string, capability: string, environment: string, sessionId: Option<string>)

  datatype Check = Found(grant: Grant) | NotFound | BadCapability(text: string)

  predicate ForActor(g: Grant, actor: string)
  {
    g.coords.actor == actor || g.coords.actor == "*"
  }

  predicate PastExpiry(expiresAt: Option<real>, now: real)
  {
    expiresAt.Some? && now > expiresAt.value
  }

  predicate SignaturePasses(mac: Mac, secret: string, g: Grant)
  {
    g.signature == "" || g.signature == mac(secret, g.coords)
  }

  /** A grant that answers the question: capability, environment, expiry, session and signature together. */
  predicate Answers(mac: Mac, secret: string, g: Grant, a: Ask, now: real)
  {
    && ForActor(g, a.actor)
    && Parse(g.coords.capability).Some? && Parse(a.capability).Some?
    && Covers(Parse(g.coords.capability).value, Parse(a.capability).value)
    && (g.coords.environment == "*" || g.coords.environment == a.environment)
    && !PastExpiry(g.coords.expiresAt, now)
    && (g.coords.sessionId == None || g.coords.sessionId == a.sessionId)
    && SignaturePasses(mac, secret, g)
  }

  /** A grant for the actor whose capability text does not parse stops the search with an error. */
  predicate Broken(g: Grant, a: Ask)
  {
    ForActor(g, a.actor) && Parse(g.coords.capability).None?
  }

  function Search(mac: Mac, secret: string, grants: seq<Grant>, a: Ask, now: real): Check
  {
    if grants == [] then NotFound
    else if Broken(grants[0], a) then BadCapability(grants[0].coords.capability)
    else if Answers(mac, secret, grants[0], a, now) then Found(grants[0])
    else Search(mac, secret, grants[1..], a, now)
  }

  function CheckGrants(mac: Mac, secret: string, grants: seq<Grant>, a: Ask, now: real): Check
  {
    if Parse(a.capability).None? then BadCapability(a.capability) else Search(mac, secret, grants, a, now)
  }

  function NewGrant(mac: Mac, secret: string, id: nat, c: Coordinates, who: string, now: real): Grant
  {
    Grant(id, c, who, now, mac(secret, c))
  }

  // ---------------------------------------------------------------- requests

  /** The default of `request_approval`, an hour. */
  const EXPIRES_IN := Some(3600.0)

  /** `now + expires_in if expires_in else None`. */
  function ExpiryOf(expiresIn: Option<real>, now: real): Option<real>
  {
    if expiresIn.None? || expiresIn.value == 0.0 then None else Some(now + expiresIn.value)
  }

  function NewRequest(id: nat, agentId: string, toolName: string, capability: string, payload: Dict, reason: string,
          expiresIn: Option<real>, now: real): ApprovalRequest
  {
    ApprovalRequest(id, agentId, toolName, capability, payload, reason, Pending, now, ExpiryOf(expiresIn, now), None,
        None)
  }

  /** `req.expires_at and now > req.expires_at`: an expiry of zero counts as none. */
  predicate Overdue(r: ApprovalRequest, now: real)
  {
    PastExpiry(r.expiresAt, now) && r.expiresAt != Some(0.0)
  }

  function Resolved(r: ApprovalRequest, status: Status, who: Option<string>, now: real): ApprovalRequest
  {
    r.(status := status, resolvedAt := Some(now), resolvedBy := who)
  }

  /** Who asked for what, when and until when. */
  predicate SameIdentity(a: ApprovalRequest, b: ApprovalRequest)
  {
    a.(status := Pending, resolvedAt := None, resolvedBy := None)
    == b.(status := Pending, resolvedAt := None, resolvedBy := None)
  }

  /** `UPDATE approvals SET ... WHERE id = ?`. */
  function UpdateWhere(requests: seq<ApprovalRequest>, id: nat, status: Status, who: Option<string>,
          now: real): (u: seq<ApprovalRequest>)
  {
    seq(|requests|, i requires 0 <= i < |requests| =>
      if requests[i].id == id then Resolved(requests[i], status, who, now) else requests[i])
  }

  /** What `get_pending` leaves behind: overdue pending requests are expired. */
  function Swept(requests: seq<ApprovalRequest>, now: real): (u: seq<ApprovalRequest>)
  {
    seq(|requests|, i requires 0 <= i < |requests| =>
      if requests[i].status == Pending && Overdue(requests[i], now) then Resolved(requests[i], Expired, None, now)
          else requests[i])
  }

  function StillPending(requests: seq<ApprovalRequest>, now: real): seq<ApprovalRequest>
  {
    if requests == [] then []
    else
      var r := requests[|requests| - 1];
      StillPending(requests[..|requests| - 1], now) + if r.status == Pending && !Overdue(r, now) then [r] else []
  }

  predicate SameRequest(r: ApprovalRequest, agentId: string, toolName: string, payload: Dict)
  {
    r.agentId == agentId && r.toolName == toolName && SameJson(r.payload, payload)
  }

  predicate HasApproved(requests: seq<ApprovalRequest>, agentId: string, toolName: string, payload: Dict)
  {
    exists r :: r in requests && r.status == Approved && SameRequest(r, agentId, toolName, payload)
  }

  function Find(requests: seq<ApprovalRequest>, id: nat): (r: Option<ApprovalRequest>)
    ensures r.Some? ==> r.value in requests && r.value.id == id
    ensures r.None? ==> forall x :: x in requests ==> x.id != id
  {
    if requests == [] then None else if requests[0].id == id then Some(requests[0]) else Find(requests[1..], id)
  }

  /** The CLI's approve and reject: only a request that is there and pending is resolved. */
  function GuardedResolve(requests: seq<ApprovalRequest>, id: nat, status: Status, user: string,
          now: real): seq<ApprovalRequest>
  {
    var r := Find(requests, id);
    if r.Some? && r.value.status == Pending then UpdateWhere(requests, id, status, Some(user), now) else requests
  }

  /** Ids are handed out from a counter. */
  predicate FreshIds(requests: seq<ApprovalRequest>, nextId: nat)
  {
    && (forall i :: 0 <= i < |requests| ==> requests[i].id < nextId)
    && DistinctIds(requests)
  }

  predicate DistinctIds(requests: seq<ApprovalRequest>)
  {
    forall i, j :: 0 <= i < j < |requests| ==> requests[i].id != requests[j].id
  }

  class ApprovalManager {
    const mac: Mac
    var grants: seq<Grant>
    var requests: seq<ApprovalRequest>
    var nextId: nat

    constructor (mac: Mac, stored: Store)
      ensures this.mac == mac && Contents() == stored
    {
      this.mac := mac;
      grants, requests, nextId := stored.grants, stored.requests, stored.nextId;
    }

    function Contents(): Store
      reads this
    {
      Store(grants, requests, nextId)
    }

    predicate Valid()
      reads this
    {
      FreshIds(requests, nextId)
    }

    method InsertGrant(secret: string, c: Coordinates, who: string, now: real) returns (g: Grant)
      requires Valid()
      modifies this`grants, this`nextId
      ensures Valid()
      ensures g == NewGrant(mac, secret, old(nextId), c, who, now)
      ensures grants == old(grants) + [g] && nextId == old(nextId) + 1
    {
      var signature := mac(secret, c);
      g := Grant(nextId, c, who, now, signature);
      grants := grants + [g];
      nextId := nextId + 1;
    }

    method GrantTemporaryApproval(secret: string, actor: string, capability: string, environment: string,
            duration: real, who: string, now: real)
      returns (g: Grant)
      requires Valid()
      modifies this`grants, this`nextId
      ensures Valid()
      ensures g == NewGrant(mac, secret, old(nextId), Coordinates(actor, capability, environment,
              Some(now + duration), None), who, now)
      ensures grants == old(grants) + [g] && nextId == old(nextId) + 1
    {
      var expiresAt := now + duration;
      g := InsertGrant(secret, Coordinates(actor, capability, environment, Some(expiresAt), None), who, now);
    }

    method GrantSessionApproval(secret: string, actor: string, capability: string, environment: string,
            sessionId: string, who: string, now: real)
      returns (g: Grant)
      requires Valid()
      modifies this`grants, this`nextId
      ensures Valid()
      ensures g == NewGrant(mac, secret, old(nextId), Coordinates(actor, capability, environment, None,
              Some(sessionId)), who, now)
      ensures grants == old(grants) + [g] && nextId == old(nextId) + 1
    {
      g := InsertGrant(secret, Coordinates(actor, capability, environment, None, Some(sessionId)), who, now);
    }

    method CheckApproval(secret: string, a: Ask, now: real) returns (r: Check)
      ensures r == CheckGrants(mac, secret, grants, a, now)
    {
      var required := Parse(a.capability);
      if required.None? {
        return BadCapability(a.capability);
      }
      for i := 0 to |grants|
        invariant Search(mac, secret, grants[i..], a, now) == Search(mac, secret, grants, a, now)
      {
        assert grants[i..][1..] == grants[i + 1..];
        var g := grants[i];
        if g.coords.actor != a.actor && g.coords.actor != "*" {
          continue;
        }
        var granted := Parse(g.coords.capability);
        if granted.None? {
          return BadCapability(g.coords.capability);
        }
        if !Covers(granted.value, required.value) {
          continue;
        }
        if g.coords.environment != "*" && g.coords.environment != a.environment {
          continue;
        }
        if g.coords.expiresAt.Some? && now > g.coords.expiresAt.value {
          continue;
        }
        if g.coords.sessionId.Some? && g.coords.sessionId != a.sessionId {
          continue;
        }
        if g.signature != "" && g.signature != mac(secret, g.coords) {
          continue;
        }
        return Found(g);
      }
      return NotFound;
    }

    method RequestApproval(agentId: string, toolName: string, capability: string, payload: Dict, reason: string,
            expiresIn: Option<real>, now: real)
      returns (r: ApprovalRequest)
      requires Valid()
      modifies this`requests, this`nextId
      ensures Valid()
      ensures r == NewRequest(old(nextId), agentId, toolName, capability, payload, reason, expiresIn, now)
      ensures requests == old(requests) + [r] && nextId == old(nextId) + 1
    {
      var expiresAt: Option<real> := None;
      if expiresIn.Some? && expiresIn.value != 0.0 {
        expiresAt := Some(now + expiresIn.value);
      }
      r := ApprovalRequest(nextId, agentId, toolName, capability, payload, reason, Pending, now, expiresAt, None, None);
      requests := requests + [r];
      nextId := nextId + 1;
    }

    /** At most one request has the id. It keeps who asked for what and until when; the others, and the order of
        all, stay as they are. */
    method UpdateStatus(id: nat, status: Status, who: Option<string>, now: real)
      requires Valid()
      modifies this`requests
      ensures Valid() && |requests| == |old(requests)|
      ensures forall i :: 0 <= i < |requests| && requests[i].id != id ==> requests[i] == old(requests)[i]
      ensures forall i :: 0 <= i < |requests| && requests[i].id == id ==>
        && SameIdentity(requests[i], old(requests)[i])
        && requests[i].status == status && requests[i].resolvedAt == Some(now) && requests[i].resolvedBy == who
    {
      requests := UpdateWhere(requests, id, status, who, now);
    }

    /** The pending requests are read once; overdue ones are expired while the list is gone through. */
    method GetPending(now: real) returns (results: seq<ApprovalRequest>)
      requires Valid()
      modifies this`requests
      ensures Valid() && requests == Swept(old(requests), now)
      ensures results == StillPending(old(requests), now)
    {
      var rows := requests;
      results := [];
      for i := 0 to |rows|
        invariant Valid() && DistinctIds(rows)
        invariant requests == HalfSwept(rows, i, now)
        invariant results == StillPending(rows[..i], now)
      {
        SweepStep(rows, i, now);
        var row := rows[i];
        if row.status != Pending {
          continue;
        }
        var overdue := row.expiresAt.Some? && row.expiresAt.value != 0.0 && now > row.expiresAt.value;
        assert overdue <==> Overdue(row, now);
        if overdue {
          ghost var half := requests;
          UpdateStatus(row.id, Expired, None, now);
          UpdatedAsWhere(half, requests, row.id, Expired, None, now);
        } else {
          results := results + [row];
        }
      }
      assert rows[..|rows|] == rows;
    }

    method HasApprovedRequest(agentId: string, toolName: string, payload: Dict) returns (found: bool)
      ensures found <==> HasApproved(requests, agentId, toolName, payload)
    {
      for i := 0 to |requests|
        invariant forall j :: 0 <= j < i ==>
          !(requests[j].status == Approved && SameRequest(requests[j], agentId, toolName, payload))
      {
        var row := requests[i];
        if && row.agentId == agentId && row.toolName == toolName
           && row.status == Approved && SameJson(row.payload, payload) {
          return true;
        }
      }
      return false;
    }

    /** `capfence approve` and `capfence reject`. */
    method Resolve(id: nat, status: Status, user: string, now: real) returns (done: bool)
      requires Valid()
      modifies this`requests
      ensures Valid() && requests == GuardedResolve(old(requests), id, status, user, now)
      ensures done <==> Find(old(requests), id).Some? && Find(old(requests), id).value.status == Pending
    {
      var r := Find(requests, id);
      if r.None? || r.value.status != Pending {
        return false;
      }
      ghost var was := requests;
      UpdateStatus(id, status, Some(user), now);
      UpdatedAsWhere(was, requests, id, status, Some(user), now);
      return true;
    }
  }

  /** What an update promises row by row determines the table. */
  lemma UpdatedAsWhere(was: seq<ApprovalRequest>, requests: seq<ApprovalRequest>, id: nat, status: Status,
          who: Option<string>, now: real)
    requires |requests| == |was|
    requires forall i :: 0 <= i < |requests| && requests[i].id != id ==> requests[i] == was[i]
    requires forall i :: 0 <= i < |requests| && requests[i].id == id ==>
      && SameIdentity(requests[i], was[i])
      && requests[i].status == status && requests[i].resolvedAt == Some(now) && requests[i].resolvedBy == who
    ensures requests == UpdateWhere(was, id, status, who, now)
  {
    forall i | 0 <= i < |was|
      ensures requests[i] == UpdateWhere(was, id, status, who, now)[i]
    {
    }
  }

  /** The table when the first `n` rows have been gone through. */
  ghost function HalfSwept(rows: seq<ApprovalRequest>, n: nat, now: real): seq<ApprovalRequest>
    requires n <= |rows|
  {
    Swept(rows[..n], now) + rows[n..]
  }

  lemma {:induction false} SweepStep(rows: seq<ApprovalRequest>, i: nat, now: real)
    requires i < |rows| && DistinctIds(rows)
    ensures StillPending(rows[..i + 1], now)
            == StillPending(rows[..i], now)
               + if rows[i].status == Pending && !Overdue(rows[i], now) then [rows[i]] else []
    ensures HalfSwept(rows, i + 1, now)
            == if rows[i].status == Pending && Overdue(rows[i], now)
               then UpdateWhere(HalfSwept(rows, i, now), rows[i].id, Expired, None, now)
               else HalfSwept(rows, i, now)
  {
    assert rows[..i + 1][..i] == rows[..i];
    var half, next := HalfSwept(rows, i, now), HalfSwept(rows, i + 1, now);
    assert half[i] == rows[i];
    forall j | 0 <= j < |rows|
      ensures half[j].id == rows[j].id
      ensures j != i ==> half[j] == next[j]
    {
    }
  }

  // ---------------------------------------------------------------- what a check means

  /** A check finds a grant exactly when some grant answers and no broken grant stands before it; it is the first. */
  lemma {:induction false} SearchFinds(mac: Mac, secret: string, grants: seq<Grant>, a: Ask, now: real)
    ensures Search(mac, secret, grants, a, now).Found?
            <==> exists i :: FirstAnswer(mac, secret, grants, a, now, i)
    ensures forall i :: FirstAnswer(mac, secret, grants, a, now, i) ==>
      Search(mac, secret, grants, a, now) == Found(grants[i])
  {
    if grants == [] {
    } else {
      SearchFinds(mac, secret, grants[1..], a, now);
      if i :| && FirstAnswer(mac, secret, grants[1..], a, now, i)
              && !Broken(grants[0], a) && !Answers(mac, secret, grants[0], a, now) {
        assert FirstAnswer(mac, secret, grants, a, now, i + 1);
      }
      if !Broken(grants[0], a) && Answers(mac, secret, grants[0], a, now) {
        assert FirstAnswer(mac, secret, grants, a, now, 0);
      }
      forall i | FirstAnswer(mac, secret, grants, a, now, i)
        ensures Search(mac, secret, grants, a, now) == Found(grants[i])
        ensures i == 0 || FirstAnswer(mac, secret, grants[1..], a, now, i - 1)
      {
        if i > 0 {
          assert FirstAnswer(mac, secret, grants[1..], a, now, i - 1);
        }
      }
    }
  }

  ghost predicate FirstAnswer(mac: Mac, secret: string, grants: seq<Grant>, a: Ask, now: real, i: int)
  {
    && 0 <= i < |grants| && Answers(mac, secret, grants[i], a, now)
    && forall j :: 0 <= j < i ==> !Broken(grants[j], a) && !Answers(mac, secret, grants[j], a, now)
  }

  /** A malformed grant for the actor with no answering grant before it. */
  predicate StopsSearch(mac: Mac, secret: string, grants: seq<Grant>, a: Ask, now: real, i: int)
  {
    && 0 <= i < |grants| && Broken(grants[i], a)
    && forall j :: 0 <= j < i ==> !Answers(mac, secret, grants[j], a, now)
  }

  ghost predicate BrokenFirst(mac: Mac, secret: string, grants: seq<Grant>, a: Ask, now: real)
  {
    exists i :: StopsSearch(mac, secret, grants, a, now, i)
  }

  /** A check raises exactly when a malformed grant for the actor comes before every grant that answers. */
  lemma {:induction false} SearchRaises(mac: Mac, secret: string, grants: seq<Grant>, a: Ask, now: real)
    ensures Search(mac, secret, grants, a, now).BadCapability? <==> BrokenFirst(mac, secret, grants, a, now)
  {
    if grants == [] {
    } else {
      SearchRaises(mac, secret, grants[1..], a, now);
      if Broken(grants[0], a) {
        assert StopsSearch(mac, secret, grants, a, now, 0);
      }
      if i :| StopsSearch(mac, secret, grants[1..], a, now, i) && !Answers(mac, secret, grants[0], a, now) {
        assert StopsSearch(mac, secret, grants, a, now, i + 1);
      }
      if i :| StopsSearch(mac, secret, grants, a, now, i) {
        assert i == 0 || StopsSearch(mac, secret, grants[1..], a, now, i - 1);
      }
    }
  }

  /** A check comes back empty exactly when no grant answers and none is broken. */
  lemma {:induction false} SearchMisses(mac: Mac, secret: string, grants: seq<Grant>, a: Ask, now: real)
    ensures Search(mac, secret, grants, a, now) == NotFound
            <==> forall g :: g in grants ==> !Broken(g, a) && !Answers(mac, secret, g, a, now)
  {
    if grants == [] {
    } else {
      SearchMisses(mac, secret, grants[1..], a, now);
      assert grants == [grants[0]] + grants[1..];
    }
  }

  /** With every grant of the actor well formed, a check succeeds if and only if some stored grant meets actor,
      capability, environment, expiry, session and signature together. */
  lemma CheckIffSomeGrantAnswers(mac: Mac, secret: string, grants: seq<Grant>, a: Ask, now: real)
    requires Parse(a.capability).Some? && forall g :: g in grants ==> !Broken(g, a)
    ensures CheckGrants(mac, secret, grants, a, now).Found?
            <==> exists g :: g in grants && Answers(mac, secret, g, a, now)
    ensures CheckGrants(mac, secret, grants, a, now) == NotFound
            <==> !exists g :: g in grants && Answers(mac, secret, g, a, now)
  {
    SearchMisses(mac, secret, grants, a, now);
    NeverBroken(mac, secret, grants, a, now);
  }

  lemma {:induction false} NeverBroken(mac: Mac, secret: string, grants: seq<Grant>, a: Ask, now: real)
    requires forall g :: g in grants ==> !Broken(g, a)
    ensures !Search(mac, secret, grants, a, now).BadCapability?
  {
    if grants == [] {
    } else {
      NeverBroken(mac, secret, grants[1..], a, now);
    }
  }

  /** New grants never take a success away; the grant found stays the same. */
  lemma {:induction false} MoreGrantsKeepSuccess(mac: Mac, secret: string, grants: seq<Grant>, more: seq<Grant>,
          a: Ask, now: real)
    requires CheckGrants(mac, secret, grants, a, now).Found?
    ensures CheckGrants(mac, secret, grants + more, a, now) == CheckGrants(mac, secret, grants, a, now)
  {
    assert (grants + more)[0] == grants[0];
    if !Answers(mac, secret, grants[0], a, now) {
      assert (grants + more)[1..] == grants[1..] + more;
      MoreGrantsKeepSuccess(mac, secret, grants[1..], more, a, now);
    }
  }

  /** Without new grants, a check that succeeds now would have succeeded at any earlier time. */
  lemma {:induction false} TimeOnlyTakesAway(mac: Mac, secret: string, grants: seq<Grant>, a: Ask, earlier: real,
          now: real)
    requires earlier <= now && CheckGrants(mac, secret, grants, a, now).Found?
    ensures CheckGrants(mac, secret, grants, a, earlier).Found?
  {
    if !Answers(mac, secret, grants[0], a, earlier) {
      TimeOnlyTakesAway(mac, secret, grants[1..], a, earlier, now);
    }
  }

  /** A new grant is looked at after those that were there. */
  lemma {:induction false} SearchSnoc(mac: Mac, secret: string, grants: seq<Grant>, g: Grant, a: Ask, now: real)
    ensures Search(mac, secret, grants + [g], a, now)
            == if Search(mac, secret, grants, a, now) != NotFound then Search(mac, secret, grants, a, now)
               else Search(mac, secret, [g], a, now)
  {
    if grants == [] {
      assert grants + [g] == [g];
    } else {
      assert (grants + [g])[0] == grants[0] && (grants + [g])[1..] == grants[1..] + [g];
      SearchSnoc(mac, secret, grants[1..], g, a, now);
    }
  }

  /** A grant made under the current secret answers every question it covers as long as it lasts: a check after it
      finds what a check before it found, or raises as that did, and where that came back empty finds the new grant
      until it expires. */
  lemma NewGrantAnswers(mac: Mac, secret: string, grants: seq<Grant>, id: nat, c: Coordinates, who: string,
          made: real, a: Ask, now: real)
    requires Parse(c.capability).Some? && Parse(a.capability).Some?
    requires c.actor == a.actor || c.actor == "*"
    requires Covers(Parse(c.capability).value, Parse(a.capability).value)
    requires c.environment == "*" || c.environment == a.environment
    requires c.sessionId == None || c.sessionId == a.sessionId
    ensures var g := NewGrant(mac, secret, id, c, who, made);
      var before := CheckGrants(mac, secret, grants, a, now);
      CheckGrants(mac, secret, grants + [g], a, now)
      == if before != NotFound then before else if PastExpiry(c.expiresAt, now) then NotFound else Found(g)
  {
    var g := NewGrant(mac, secret, id, c, who, made);
    SearchSnoc(mac, secret, grants, g, a, now);
    assert [g][1..] == [];
  }

  /** Every grant is signed: one whose coordinates were changed after it was made, or that is checked under another
      secret, answers no question unless the digest of the change is the digest it was signed with. */
  lemma ChangedGrantAnswersNothing(mac: Mac, secret: string, id: nat, c: Coordinates, who: string, made: real,
          changed: Coordinates, other: string, a: Ask, now: real)
    requires mac(secret, c) != "" && mac(other, changed) != mac(secret, c)
    ensures !Answers(mac, other, NewGrant(mac, secret, id, c, who, made).(coords := changed), a, now)
  {
  }

  // ---------------------------------------------------------------- sweeping

  /** A request is overdue once the time it was given has passed, counted from when it was made, and never where it was
      given none or zero, or would expire at time zero. */
  lemma OverdueAsAsked(id: nat, agentId: string, toolName: string, capability: string, payload: Dict, reason: string,
          expiresIn: Option<real>, made: real, now: real)
    ensures var r := NewRequest(id, agentId, toolName, capability, payload, reason, expiresIn, made);
      match expiresIn
      case None => !Overdue(r, now)
      case Some(seconds) => Overdue(r, now) <==> seconds != 0.0 && made + seconds != 0.0 && now - made > seconds
  {
  }

  /** After a sweep no request is both pending and overdue, and what is returned are the pending requests left. */
  lemma {:induction false} SweepLeavesNothingOverdue(requests: seq<ApprovalRequest>, now: real)
    ensures forall r :: r in Swept(requests, now) && r.status == Pending ==> !Overdue(r, now)
    ensures forall r :: r in StillPending(requests, now) <==> r in Swept(requests, now) && r.status == Pending
  {
    if requests == [] {
    } else {
      var n := |requests| - 1;
      SweepLeavesNothingOverdue(requests[..n], now);
      var last := Swept(requests, now)[n];
      assert Swept(requests, now) == Swept(requests[..n], now) + [last];
    }
  }

  /** The pending requests are listed in the order they were made. */
  lemma {:induction false} PendingInOrder(a: seq<ApprovalRequest>, b: seq<ApprovalRequest>, now: real)
    ensures StillPending(a + b, now) == StillPending(a, now) + StillPending(b, now)
  {
    hide StillPending;
    if b == [] {
      assert a + b == a;
      NothingPending(now);
    } else {
      var n := |b| - 1;
      PendingInOrder(a, b[..n], now);
      PendingSnoc(a + b[..n], b[n], now);
      PendingSnoc(b[..n], b[n], now);
      assert a + b == (a + b[..n]) + [b[n]] && b == b[..n] + [b[n]];
    }
  }

  lemma {:induction false} NothingPending(now: real)
    ensures StillPending([], now) == []
  {
  }

  lemma {:induction false} PendingSnoc(requests: seq<ApprovalRequest>, r: ApprovalRequest, now: real)
    ensures StillPending(requests + [r], now)
            == StillPending(requests, now) + if r.status == Pending && !Overdue(r, now) then [r] else []
  {
    hide Overdue;
    assert (requests + [r])[..|requests|] == requests;
  }
}
