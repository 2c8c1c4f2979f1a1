/** Service Desk tickets: both state machines, the doors that move a ticket, and the decision
    protocol (servicedesk/app/state_machine.py, servicedesk/app/routers/tickets.py,
    servicedesk/app/routers/proposals.py, servicedesk/app/routers/decisions.py). */
module Tickets {
  import opened Options

  // Microseconds.
  type Instant = int

  type Sub = string

  const DAY: int := 24 * 3600 * 1_000_000
  const REOPEN_WINDOW: int := 7 * DAY

  datatype Kind = Support | Automation

  datatype Status =
    | Open | InProgress | WaitingOnRequester | Resolved
    | Draft | Submitted | ItReview | ProposalReady | ManagerReview | ChangesRequested | Approved | InBuild | Deployed
    | Closed | Rejected

  // One row of the events table.
  datatype Hop = Hop(actor: Sub, source: Option<Status>, to: Status, at: Instant)

  datatype Verdict = Approve | Reject | RequestChanges

  datatype Decision = Decision(approver: Sub, verdict: Verdict)

  // The approvers of a policy never include the requester: they are filtered when it is stored.
  datatype Ticket = Ticket(
    kind: Kind, requester: Sub, anyOf: bool, eligible: seq<Sub>, approver: Option<Sub>, approvedBy: seq<Sub>,
    status: Status, assignee: Option<Sub>, createdAt: Instant, firstResponse: Option<Instant>,
    closedAt: Option<Instant>, log: seq<Hop>, decisions: seq<Decision>, proposals: nat)

  datatype Refusal = InvalidTransition | ReopenExpired | RoleRequired | WrongStatus | NotTheApprover | OwnRequest

  function Table(kind: Kind, s: Status): set<Status> {
    match kind
    case Support => (
      match s
      case Open => {InProgress, Rejected}
      case InProgress => {WaitingOnRequester}
      case WaitingOnRequester => {Resolved}
      case Resolved => {Closed}
      case Closed => {Resolved}
      case _ => {})
    case Automation => (
      match s
      case Draft => {Submitted}
      case Submitted => {ItReview}
      case ItReview => {ProposalReady, Rejected}
      case ProposalReady => {ManagerReview}
      case ManagerReview => {Approved, ChangesRequested, Rejected}
      case ChangesRequested => {ItReview}
      case Approved => {InBuild}
      case InBuild => {Deployed}
      case Deployed => {Closed}
      case _ => {})
  }

  // apply_transition
  function ApplyTransition(t: Ticket, to: Status, actor: Sub, now: Instant): Result<Ticket, Refusal> {
    if to !in Table(t.kind, t.status) then Err(InvalidTransition)
    else if t.kind == Support && t.status == Closed && to == Resolved
        && (t.closedAt.None? || now - t.closedAt.value > REOPEN_WINDOW)
      then Err(ReopenExpired)
    else Ok(t.(status := to,
               firstResponse := if t.firstResponse.None? then Some(now) else t.firstResponse,
               closedAt := if to == Closed then Some(now)
                           else if t.status == Closed && to == Resolved then None
                           else t.closedAt,
               log := t.log + [Hop(actor, Some(t.status), to, now)]))
  }

  // ---------------------------------------------------------------- the doors

  datatype Door = AgentOnly | RequesterOrAgent | NoDoor

  // What POST /transition lets through; the proposal and decision hops are not among them.
  function GenericDoor(kind: Kind, s: Status, to: Status): Door {
    match (kind, s, to)
    case (Automation, Submitted, ItReview) => AgentOnly
    case (Automation, ProposalReady, ManagerReview) => AgentOnly
    case (Automation, ItReview, Rejected) => AgentOnly
    case (Automation, Approved, InBuild) => AgentOnly
    case (Automation, InBuild, Deployed) => AgentOnly
    case (Automation, ChangesRequested, ItReview) => AgentOnly
    case (Support, Open, InProgress) => AgentOnly
    case (Support, InProgress, WaitingOnRequester) => AgentOnly
    case (Support, WaitingOnRequester, Resolved) => AgentOnly
    case (Support, Open, Rejected) => AgentOnly
    case (Automation, Deployed, Closed) => RequesterOrAgent
    case (Support, Resolved, Closed) => RequesterOrAgent
    case (Support, Closed, Resolved) => RequesterOrAgent
    case _ => NoDoor
  }

  // The generic door opens onto exactly the edges of the tables that neither leave a draft, nor make
  // a proposal, nor decide one.
  lemma DoorsAreTheTable(kind: Kind, s: Status, to: Status)
    ensures GenericDoor(kind, s, to) != NoDoor <==>
            to in Table(kind, s) && s != Draft && s != ManagerReview && to != ProposalReady
  {}

  function DoTransition(t: Ticket, user: Sub, agent: bool, to: Status, now: Instant): Result<Ticket, Refusal> {
    match GenericDoor(t.kind, t.status, to)
    case NoDoor => Err(InvalidTransition)
    case AgentOnly => if agent then ApplyTransition(t, to, user, now) else Err(RoleRequired)
    case RequesterOrAgent =>
      if agent || user == t.requester then ApplyTransition(t, to, user, now) else Err(RoleRequired)
  }

  function DoPropose(t: Ticket, user: Sub, now: Instant): Result<Ticket, Refusal> {
    if t.kind != Automation || t.status != ItReview then Err(WrongStatus)
    else ApplyTransition(t.(proposals := t.proposals + 1), ProposalReady, user, now)
  }

  function Without(s: seq<Sub>, gone: seq<Sub>): (r: seq<Sub>)
    ensures forall x :: x in r <==> x in s && x !in gone
  {
    if s == [] then [] else (if s[0] in gone then [] else [s[0]]) + Without(s[1..], gone)
  }

  function StatusOf(v: Verdict): Status {
    match v case Approve => Approved case Reject => Rejected case RequestChanges => ChangesRequested
  }

  function DoDecide(t: Ticket, user: Sub, v: Verdict, now: Instant): Result<Ticket, Refusal> {
    if t.status != ManagerReview then Err(InvalidTransition)
    else if !(if t.anyOf then user in t.eligible else t.approver == Some(user)) || user in t.approvedBy
      then Err(NotTheApprover)
    else if user == t.requester then Err(OwnRequest)
    else
      var d := t.(decisions := t.decisions + [Decision(user, v)]);
      if v == Approve && !t.anyOf then
        var prior := t.approvedBy + [user];
        var remaining := Without(t.eligible, prior);
        if remaining != [] then
          Ok(d.(approvedBy := prior, approver := Some(remaining[0]),
                log := t.log + [Hop(user, Some(t.status), t.status, now)]))
        else ApplyTransition(d.(approvedBy := prior), Approved, user, now)
      else if v == RequestChanges then
        ApplyTransition(d.(approvedBy := [], approver := if t.eligible == [] then None else Some(t.eligible[0])),
          ChangesRequested, user, now)
      else ApplyTransition(d, StatusOf(v), user, now)
  }

  // Assigning is a note in the log, not a hop.
  function DoAssign(t: Ticket, user: Sub, assignee: Sub, now: Instant): Ticket {
    if t.assignee == Some(assignee) then t
    else t.(assignee := Some(assignee), log := t.log + [Hop(user, Some(t.status), t.status, now)])
  }

  // How routing set the ticket up: the listed approvers, and the first to ask.
  datatype Route = Route(anyOf: bool, approvers: seq<Sub>, approver: Sub)

  function InitialStatus(kind: Kind): Status {
    if kind == Automation then Submitted else Open
  }

  function Created(kind: Kind, requester: Sub, route: Route, now: Instant): Ticket {
    Ticket(kind, requester, kind == Automation && route.anyOf,
           if kind == Automation then Without(route.approvers, [requester]) else [],
           if kind == Automation then Some(route.approver) else None, [],
           InitialStatus(kind), None, now, None, None, [Hop(requester, None, InitialStatus(kind), now)], [], 0)
  }

  datatype Step =
    | Transition(user: Sub, agent: bool, to: Status)
    | Propose(user: Sub)
    | Decide(user: Sub, verdict: Verdict)
    | Assign(user: Sub, assignee: Sub)
    | Tick(elapsed: nat)

  datatype World = World(now: Instant, ticket: Ticket)

  function OrSame(r: Result<Ticket, Refusal>, t: Ticket): Ticket {
    match r case Ok(after) => after case Err(_) => t
  }

  // A refusal is rolled back.
  function Next(w: World, step: Step): World {
    match step
    case Transition(user, agent, to) => w.(ticket := OrSame(DoTransition(w.ticket, user, agent, to, w.now), w.ticket))
    case Propose(user) => w.(ticket := OrSame(DoPropose(w.ticket, user, w.now), w.ticket))
    case Decide(user, verdict) => w.(ticket := OrSame(DoDecide(w.ticket, user, verdict, w.now), w.ticket))
    case Assign(user, assignee) => w.(ticket := DoAssign(w.ticket, user, assignee, w.now))
    case Tick(elapsed) => w.(now := w.now + elapsed)
  }

  function Run(w: World, steps: seq<Step>): World {
    if steps == [] then w else Next(Run(w, steps[..|steps| - 1]), steps[|steps| - 1])
  }

  // ---------------------------------------------------------------- the rows, field by field

  class TicketRow {
    const kind: Kind
    const requester: Sub
    const anyOf: bool
    const eligible: seq<Sub>
    const createdAt: Instant
    var approver: Option<Sub>
    var approvedBy: seq<Sub>
    var status: Status
    var assignee: Option<Sub>
    var firstResponse: Option<Instant>
    var closedAt: Option<Instant>
    var log: seq<Hop>
    var decisions: seq<Decision>
    var proposals: nat

    function View(): Ticket
      reads this
    {
      Ticket(kind, requester, anyOf, eligible, approver, approvedBy, status, assignee, createdAt, firstResponse,
        closedAt, log, decisions, proposals)
    }

    constructor (kind: Kind, requester: Sub, route: Route, now: Instant)
      ensures View() == Created(kind, requester, route, now)
    {
      this.kind, this.requester, createdAt := kind, requester, now;
      anyOf := kind == Automation && route.anyOf;
      eligible := if kind == Automation then Without(route.approvers, [requester]) else [];
      approver := if kind == Automation then Some(route.approver) else None;
      approvedBy, assignee, firstResponse, closedAt, decisions, proposals := [], None, None, None, [], 0;
      status := InitialStatus(kind);
      log := [Hop(requester, None, InitialStatus(kind), now)];
    }

    method Apply(to: Status, actor: Sub, now: Instant) returns (refusal: Option<Refusal>)
      modifies this`status, this`firstResponse, this`closedAt, this`log
      ensures match ApplyTransition(old(View()), to, actor, now)
              case Ok(after) => refusal.None? && View() == after
              case Err(e) => refusal == Some(e) && View() == old(View())
    {
      if to !in Table(kind, status) {
        return Some(InvalidTransition);
      }
      if kind == Support && status == Closed && to == Resolved {
        if closedAt.None? || now - closedAt.value > REOPEN_WINDOW {
          return Some(ReopenExpired);
        }
      }
      var before := status;
      status := to;
      if firstResponse.None? {
        firstResponse := Some(now);
      }
      if to == Closed {
        closedAt := Some(now);
      }
      if before == Closed && to == Resolved {
        closedAt := None;
      }
      log := log + [Hop(actor, Some(before), to, now)];
      return None;
    }

    method Propose(user: Sub, now: Instant) returns (refusal: Option<Refusal>)
      modifies this
      ensures View() == OrSame(DoPropose(old(View()), user, now), old(View()))
      ensures refusal.None? <==> DoPropose(old(View()), user, now).Ok?
    {
      if kind != Automation || status != ItReview {
        return Some(WrongStatus);
      }
      proposals := proposals + 1;
      refusal := Apply(ProposalReady, user, now);
    }

    method Decide(user: Sub, v: Verdict, now: Instant) returns (refusal: Option<Refusal>)
      requires status == ManagerReview ==> kind == Automation
      modifies this
      ensures View() == OrSame(DoDecide(old(View()), user, v, now), old(View()))
      ensures refusal.None? <==> DoDecide(old(View()), user, v, now).Ok?
    {
      hide Without;
      if status != ManagerReview {
        return Some(InvalidTransition);
      }
      var authorized := if anyOf then user in eligible else approver == Some(user);
      if !authorized || user in approvedBy {
        return Some(NotTheApprover);
      }
      if user == requester {
        return Some(OwnRequest);
      }
      decisions := decisions + [Decision(user, v)];
      if v == Approve && !anyOf {
        approvedBy := approvedBy + [user];
        var remaining := Without(eligible, approvedBy);
        if remaining != [] {
          approver := Some(remaining[0]);
          log := log + [Hop(user, Some(status), status, now)];
          return None;
        }
        refusal := Apply(Approved, user, now);
      } else {
        if v == RequestChanges {
          approvedBy := [];
          approver := if eligible == [] then None else Some(eligible[0]);
        }
        refusal := Apply(StatusOf(v), user, now);
      }
    }
  }
}
