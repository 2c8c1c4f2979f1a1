/** Who may move a ticket where, and what each move leaves (servicedesk/app/state_machine.py:71-114,
    servicedesk/app/routers/tickets.py:36-53, 172-217, servicedesk/app/routers/proposals.py:36-72,
    servicedesk/app/routers/decisions.py:34-97). */
module TicketMoves {
  import opened Options
  import opened Tickets

  // The ticket after one more hop: the hop is logged, the first hop is the first response, and
  // closed_at is when it closed, nothing once it is reopened, and else as it was.
  ghost predicate Hopped(t: Ticket, after: Ticket, user: Sub, to: Status, now: Instant) {
    && after.status == to
    && after.log == t.log + [Hop(user, Some(t.status), to, now)]
    && after.firstResponse == (if t.firstResponse == None then Some(now) else t.firstResponse)
    && (to == Closed ==> after.closedAt == Some(now))
    && (t.status == Closed && to == Resolved ==> after.closedAt == None)
    && (to != Closed && !(t.status == Closed && to == Resolved) ==> after.closedAt == t.closedAt)
    && SameRequest(t, after)
  }

  ghost predicate SameRequest(t: Ticket, after: Ticket) {
    && after.kind == t.kind && after.requester == t.requester && after.createdAt == t.createdAt
    && after.anyOf == t.anyOf && after.eligible == t.eligible
  }

  // A new ticket: nothing has happened but its creation, and an automation request takes its policy from
  // the route, without the requester.
  lemma CreatedMeans(kind: Kind, requester: Sub, route: Route, now: Instant)
    ensures var t := Created(kind, requester, route, now);
            && t.kind == kind && t.requester == requester && t.createdAt == now
            && t.status == (match kind case Support => Open case Automation => Submitted)
            && t.log == [Hop(requester, None, t.status, now)]
            && t.firstResponse == None && t.closedAt == None && t.assignee == None
            && t.decisions == [] && t.approvedBy == [] && t.proposals == 0
            && (kind == Automation ==>
                  && t.anyOf == route.anyOf && t.approver == Some(route.approver)
                  && forall x :: x in t.eligible <==> x in route.approvers && x != requester)
            && (kind == Support ==> !t.anyOf && t.approver == None && t.eligible == [])
  {}

  // A requester who is no agent may only close a ticket of their own, or reopen a closed one; an agent
  // may make every hop of the generic door; and reopening takes a closing at most seven days ago.
  lemma MovesIff(t: Ticket, user: Sub, agent: bool, to: Status, now: Instant)
    ensures var r := DoTransition(t, user, agent, to, now);
            var edge := to in Table(t.kind, t.status) && t.status != Draft && t.status != ManagerReview
                        && to != ProposalReady;
            var allowed := agent || (user == t.requester && (to == Closed || t.status == Closed));
            var inTime := t.status == Closed ==>
                t.closedAt.Some? && now <= t.closedAt.value + 7 * 24 * 60 * 60 * 1_000_000;
            && (r == Err(InvalidTransition) <==> !edge)
            && (r == Err(RoleRequired) <==> edge && !allowed)
            && (r == Err(ReopenExpired) <==> edge && allowed && !inTime)
            && (r.Ok? <==> edge && allowed && inTime)
            && (r.Ok? ==> && Hopped(t, r.value, user, to, now)
                          && r.value.decisions == t.decisions && r.value.proposals == t.proposals
                          && r.value.approver == t.approver && r.value.approvedBy == t.approvedBy
                          && r.value.assignee == t.assignee)
  {}

  lemma ProposesIff(t: Ticket, user: Sub, now: Instant)
    ensures var r := DoPropose(t, user, now);
            && (r.Ok? <==> t.kind == Automation && t.status == ItReview)
            && (r.Err? ==> r.error == WrongStatus)
            && (r.Ok? ==> && Hopped(t, r.value, user, ProposalReady, now)
                          && r.value.proposals == t.proposals + 1 && r.value.decisions == t.decisions
                          && r.value.approver == t.approver && r.value.approvedBy == t.approvedBy
                          && r.value.assignee == t.assignee)
  {}

  // Assigning moves nothing; it is noted exactly when it changes something.
  lemma AssignMeans(t: Ticket, user: Sub, assignee: Sub, now: Instant)
    ensures var after := DoAssign(t, user, assignee, now);
            && after == t.(assignee := Some(assignee), log := after.log)
            && after.log == t.log + (if t.assignee == Some(assignee) then []
                                     else [Hop(user, Some(t.status), t.status, now)])
  {}

  // ---------------------------------------------------------------- decisions

  lemma WithoutEmpty(s: seq<Sub>, gone: seq<Sub>)
    ensures Without(s, gone) == [] <==> forall x | x in s :: x in gone
  {
    if Without(s, gone) != [] {
      assert Without(s, gone)[0] in Without(s, gone);
    }
  }

  lemma {:induction false} WithoutFirst(s: seq<Sub>, gone: seq<Sub>) returns (i: nat)
    requires Without(s, gone) != []
    ensures i < |s| && s[i] == Without(s, gone)[0] && s[i] !in gone && forall j | 0 <= j < i :: s[j] in gone
  {
    i := 0;
    if s[0] in gone {
      var k := WithoutFirst(s[1..], gone);
      assert forall j | 1 <= j <= k :: s[j] == s[1..][j - 1];
      i := k + 1;
    }
  }

  // The request waits for the first in its sequence who has not approved yet.
  ghost predicate WaitsForNext(t: Ticket, approved: seq<Sub>, approver: Option<Sub>) {
    exists i :: && 0 <= i < |t.eligible| && approver == Some(t.eligible[i]) && t.eligible[i] !in approved
                && forall j | 0 <= j < i :: t.eligible[j] in approved
  }

  // Whoever is asked decides, once, and never on their own request; every decision is kept.
  lemma DecidesIff(t: Ticket, user: Sub, v: Verdict, now: Instant)
    requires t.status == ManagerReview ==> t.kind == Automation
    ensures var r := DoDecide(t, user, v, now);
            var reviewed := t.status == ManagerReview;
            var asked := (if t.anyOf then user in t.eligible else t.approver == Some(user)) && user !in t.approvedBy;
            && (r == Err(InvalidTransition) <==> !reviewed)
            && (r == Err(NotTheApprover) <==> reviewed && !asked)
            && (r == Err(OwnRequest) <==> reviewed && asked && user == t.requester)
            && (r.Ok? <==> reviewed && asked && user != t.requester)
            && (r.Ok? ==> r.value.decisions == t.decisions + [Decision(user, v)]
                          && r.value.proposals == t.proposals && r.value.assignee == t.assignee)
  {
    hide Without;
  }

  // The hop of a decision, whatever the protocol did to its own fields before.
  lemma DecisionHops(t: Ticket, d: Ticket, user: Sub, to: Status, now: Instant)
    requires d == t.(decisions := d.decisions, approvedBy := d.approvedBy, approver := d.approver)
    requires t.kind == Automation && t.status == ManagerReview && to in {Approved, ChangesRequested, Rejected}
    ensures ApplyTransition(d, to, user, now).Ok?
    ensures var after := ApplyTransition(d, to, user, now).value;
            && Hopped(t, after, user, to, now)
            && after.approver == d.approver && after.approvedBy == d.approvedBy
  {}

  // A rejection rejects, and a request for changes goes back to IT and starts the approvals over.
  lemma RefusalLeaves(t: Ticket, user: Sub, v: Verdict, now: Instant)
    requires t.kind == Automation && DoDecide(t, user, v, now).Ok?
    ensures var after := DoDecide(t, user, v, now).value;
            && (v == Reject ==>
                  && Hopped(t, after, user, Rejected, now)
                  && after.approver == t.approver && after.approvedBy == t.approvedBy)
            && (v == RequestChanges ==>
                  && Hopped(t, after, user, ChangesRequested, now) && after.approvedBy == []
                  && after.approver == (if t.eligible == [] then None else Some(t.eligible[0])))
  {
    hide Without, ApplyTransition, Hopped;
    var d := t.(decisions := t.decisions + [Decision(user, v)]);
    DecisionHops(t, d, user, Rejected, now);
    DecisionHops(t, d.(approvedBy := [], approver := if t.eligible == [] then None else Some(t.eligible[0])), user,
                 ChangesRequested, now);
  }

  // An approval approves, except in a sequence with somebody left, which waits for the next one.
  lemma ApprovalLeaves(t: Ticket, user: Sub, now: Instant)
    requires t.kind == Automation && DoDecide(t, user, Approve, now).Ok?
    ensures var after := DoDecide(t, user, Approve, now).value;
            && after.approvedBy == (if t.anyOf then t.approvedBy else t.approvedBy + [user])
            && (if t.anyOf || forall x | x in t.eligible :: x in t.approvedBy || x == user
                then Hopped(t, after, user, Approved, now) && after.approver == t.approver
                else && after.status == ManagerReview && SameRequest(t, after)
                     && after.log == t.log + [Hop(user, Some(ManagerReview), ManagerReview, now)]
                     && after.firstResponse == t.firstResponse && after.closedAt == t.closedAt
                     && WaitsForNext(t, t.approvedBy + [user], after.approver))
  {
    hide Without, ApplyTransition, Hopped;
    var d := t.(decisions := t.decisions + [Decision(user, Approve)]);
    var prior := t.approvedBy + [user];
    DecisionHops(t, d, user, Approved, now);
    DecisionHops(t, d.(approvedBy := prior), user, Approved, now);
    WithoutEmpty(t.eligible, prior);
    if Without(t.eligible, prior) != [] {
      var i := WithoutFirst(t.eligible, prior);
    }
  }
}
