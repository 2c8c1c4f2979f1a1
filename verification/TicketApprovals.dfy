/** Who can approve an automation request, and who has by the time it is approved
    (servicedesk/app/routers/decisions.py:33-97). */
module TicketApprovals {
  import opened Options
  import opened Tickets
  import opened TicketProperties

  // What resolve_approver hands over: the first listed approver who is not the requester, or the
  // requester when there is no other.
  predicate Routed(route: Route, requester: Sub) {
    var e := Without(route.approvers, [requester]);
    if e != [] then route.approver == e[0] else route.approver == requester
  }

  // The approvals recorded since changes were last requested.
  function ApprovalsSince(ds: seq<Decision>): seq<Sub> {
    if ds == [] || ds[|ds| - 1].verdict == RequestChanges then []
    else ApprovalsSince(ds[..|ds| - 1]) + (if ds[|ds| - 1].verdict == Approve then [ds[|ds| - 1].approver] else [])
  }

  // The approver a sequence waits for.
  predicate Waiting(t: Ticket) {
    var rest := Without(t.eligible, t.approvedBy);
    rest != [] && t.approver == Some(rest[0])
  }

  ghost predicate EnoughApproved(t: Ticket) {
    var given := ApprovalsSince(t.decisions);
    if t.anyOf then exists x :: x in t.eligible && x in given else forall x | x in t.eligible :: x in given
  }

  ghost predicate Asked(t: Ticket) {
    && t.requester !in t.eligible
    && (if t.anyOf then t.approvedBy == [] else t.approvedBy == ApprovalsSince(t.decisions))
    && (t.eligible == [] ==> t.approver == Some(t.requester) && !AfterApproval(t.status))
    && (t.eligible != [] && !t.anyOf && !AfterApproval(t.status) ==> Waiting(t))
    && (AfterApproval(t.status) ==> EnoughApproved(t))
  }

  lemma CreatedAsked(requester: Sub, route: Route, now: Instant)
    requires Routed(route, requester)
    ensures Asked(Created(Automation, requester, route, now))
  {
    WithoutNothing(Without(route.approvers, [requester]));
  }

  lemma {:induction false} WithoutNothing(s: seq<Sub>)
    ensures Without(s, []) == s
  {
    if s != [] {
      WithoutNothing(s[1..]);
    }
  }

  lemma OneMoreDecision(ds: seq<Decision>, d: Decision)
    ensures ApprovalsSince(ds + [d]) == if d.verdict == RequestChanges then []
                                        else ApprovalsSince(ds) + (if d.verdict == Approve then [d.approver] else [])
  {
    assert (ds + [d])[..|ds|] == ds;
  }

  lemma DecideKeepsAsked(t: Ticket, user: Sub, v: Verdict, now: Instant)
    requires Asked(t) && t.kind == Automation && DoDecide(t, user, v, now).Ok?
    ensures Asked(DoDecide(t, user, v, now).value)
  {
    OneMoreDecision(t.decisions, Decision(user, v));
    WithoutNothing(t.eligible);
    hide ApprovalsSince, Without;
    var u := DoDecide(t, user, v, now).value;
    if v == Approve && t.anyOf {
      assert user in t.eligible && user in ApprovalsSince(u.decisions);
    }
  }

  lemma StepKeepsAsked(w: World, step: Step)
    requires Asked(w.ticket) && w.ticket.kind == Automation
    ensures Asked(Next(w, step).ticket) && Next(w, step).ticket.kind == Automation
  {
    hide ApprovalsSince, Without;
    match step
    case Decide(user, v) =>
      if DoDecide(w.ticket, user, v, w.now).Ok? {
        DecideKeepsAsked(w.ticket, user, v, w.now);
      }
    case _ =>
  }

  lemma {:induction false} RunKeepsAsked(requester: Sub, route: Route, start: Instant, steps: seq<Step>)
    requires Routed(route, requester)
    ensures var t := Run(World(start, Created(Automation, requester, route, start)), steps).ticket;
            && Asked(t) && t.kind == Automation
            && t.requester == requester && t.eligible == Without(route.approvers, [requester])
            && t.anyOf == route.anyOf
  {
    hide Asked, Next, Routed;
    if steps == [] {
      CreatedAsked(requester, route, start);
    } else {
      var front := steps[..|steps| - 1];
      RunKeepsAsked(requester, route, start, front);
      var w := Run(World(start, Created(Automation, requester, route, start)), front);
      StepKeepsAsked(w, steps[|steps| - 1]);
      SameRequester(w, steps[|steps| - 1]);
    }
  }

  lemma SameRequester(w: World, step: Step)
    ensures var t := Next(w, step).ticket;
            t.requester == w.ticket.requester && t.eligible == w.ticket.eligible && t.anyOf == w.ticket.anyOf
  {}

  // Row `i` of the decisions is this person's approval, and nobody has asked for changes since.
  ghost predicate StandingApproval(ds: seq<Decision>, x: Sub, i: int) {
    0 <= i < |ds| && ds[i] == Decision(x, Approve) && forall j | i < j < |ds| :: ds[j].verdict != RequestChanges
  }

  lemma {:induction false} ApprovalsSinceMeans(ds: seq<Decision>, x: Sub)
    ensures x in ApprovalsSince(ds) <==> exists i :: StandingApproval(ds, x, i)
  {
    if ds != [] {
      var n := |ds| - 1;
      var front := ds[..n];
      ApprovalsSinceMeans(front, x);
      assert forall i | 0 <= i < n :: front[i] == ds[i];
      forall i | 0 <= i < n && ds[n].verdict != RequestChanges
        ensures StandingApproval(ds, x, i) <==> StandingApproval(front, x, i)
      {
      }
      if ds[n] == Decision(x, Approve) {
        assert StandingApproval(ds, x, n);
      }
      if ds[n].verdict != RequestChanges && exists i :: StandingApproval(front, x, i) {
        var i :| StandingApproval(front, x, i);
        assert StandingApproval(ds, x, i);
      }
    }
  }

  // An approved, built, deployed or closed request has, since changes were last requested, the approval
  // of everyone its route lists besides the requester, or of one of them when any will do; there is
  // somebody, and the requester's own approval is never needed.
  lemma ApprovedMeansApproved(requester: Sub, route: Route, start: Instant, steps: seq<Step>)
    requires Routed(route, requester)
    requires AfterApproval(Run(World(start, Created(Automation, requester, route, start)), steps).ticket.status)
    ensures var ds := Run(World(start, Created(Automation, requester, route, start)), steps).ticket.decisions;
            && (exists x :: x in route.approvers && x != requester && exists i :: StandingApproval(ds, x, i))
            && (!route.anyOf ==>
                  forall x | x in route.approvers && x != requester :: exists i :: StandingApproval(ds, x, i))
  {
    hide Run, Created, StandingApproval, ApprovalsSince, Without;
    RunKeepsAsked(requester, route, start, steps);
    var t := Run(World(start, Created(Automation, requester, route, start)), steps).ticket;
    forall x ensures x in ApprovalsSince(t.decisions) <==> exists i :: StandingApproval(t.decisions, x, i) {
      ApprovalsSinceMeans(t.decisions, x);
    }
    assert t.eligible[0] in t.eligible;
  }

  lemma DecisionTaken(t: Ticket, user: Sub, v: Verdict, now: Instant)
    requires Asked(t) && t.kind == Automation && t.status == ManagerReview
    requires if t.anyOf then user in t.eligible else Waiting(t) && t.approver == Some(user)
    ensures DoDecide(t, user, v, now).Ok?
  {
    hide ApprovalsSince;
  }

  lemma NoDecisionTaken(t: Ticket, user: Sub, v: Verdict, now: Instant)
    requires Asked(t) && t.eligible == []
    ensures DoDecide(t, user, v, now).Err?
  {
    hide ApprovalsSince, ApplyTransition;
  }

  // A request under review can be decided by somebody exactly when its policy lists somebody other
  // than the requester; each verdict is then open to the one whose turn it is.
  lemma SomebodyCanDecideIff(requester: Sub, route: Route, start: Instant, steps: seq<Step>, v: Verdict)
    requires Routed(route, requester)
    requires Run(World(start, Created(Automation, requester, route, start)), steps).ticket.status == ManagerReview
    ensures var w := Run(World(start, Created(Automation, requester, route, start)), steps);
            (exists user :: DoDecide(w.ticket, user, v, w.now).Ok?) <==> Without(route.approvers, [requester]) != []
  {
    hide Run, Created, DoDecide, Routed, Without;
    RunKeepsAsked(requester, route, start, steps);
    var w := Run(World(start, Created(Automation, requester, route, start)), steps);
    var t := w.ticket;
    hide ApprovalsSince;
    if t.eligible == [] {
      forall user { NoDecisionTaken(t, user, v, w.now); }
    } else {
      DecisionTaken(t, if t.anyOf then t.eligible[0] else t.approver.value, v, w.now);
    }
  }

  // ---------------------------------------------------------------- nobody to decide

  lemma NobodyMovesIt(w: World, step: Step)
    requires Asked(w.ticket) && w.ticket.kind == Automation && w.ticket.eligible == []
        && w.ticket.status == ManagerReview
    ensures Next(w, step).ticket.status == ManagerReview
  {
    hide Asked, ApplyTransition, DoDecide, Table;
    match step
    case Decide(user, v) => NoDecisionTaken(w.ticket, user, v, w.now);
    case _ =>
  }

  // A request under review whose policy lists nobody but the requester stays under review, whatever
  // anybody does next.
  lemma {:induction false} UndecidableStays(requester: Sub, route: Route, start: Instant, steps: seq<Step>,
      more: seq<Step>)
    requires Routed(route, requester) && Without(route.approvers, [requester]) == []
    requires Run(World(start, Created(Automation, requester, route, start)), steps).ticket.status == ManagerReview
    ensures Run(World(start, Created(Automation, requester, route, start)), steps + more).ticket.status == ManagerReview
    decreases |more|
  {
    hide Created, Asked, Next, Routed, Without;
    if more == [] {
      assert steps + more == steps;
    } else {
      var front := more[..|more| - 1];
      UndecidableStays(requester, route, start, steps, front);
      RunKeepsAsked(requester, route, start, steps + front);
      NobodyMovesIt(Run(World(start, Created(Automation, requester, route, start)), steps + front), more[|more| - 1]);
      assert (steps + more)[..|steps + more| - 1] == steps + front;
      assert (steps + more)[|steps + more| - 1] == more[|more| - 1];
    }
  }

  // What an agent does with a request before it is decided.
  function IntoReview(agent: Sub): seq<Step> {
    [Transition(agent, true, ItReview), Propose(agent), Transition(agent, true, ManagerReview)]
  }

  lemma IntoReviewArrives(w: World, agent: Sub)
    requires w.ticket.kind == Automation && w.ticket.status == Submitted
    ensures Run(w, IntoReview(agent)).ticket.status == ManagerReview
  {
    var steps := IntoReview(agent);
    var first := Next(w, steps[0]);
    var second := Next(first, steps[1]);
    assert first.ticket.status == ItReview;
    assert second.ticket.status == ProposalReady;
    assert Run(w, []) == w;
    assert steps[..1][..0] == [] && steps[..2][..1] == steps[..1];
    assert Run(w, steps[..1]) == first;
    assert Run(w, steps[..2]) == second;
    assert Run(w, steps) == Next(second, steps[2]);
  }

  // It happens: routed to the requester alone, by a default that names them, a request is reviewed,
  // proposed and sent to its manager, and from there nothing can move it.
  lemma NobodyCanEverDecide(requester: Sub, agent: Sub, start: Instant, more: seq<Step>, user: Sub, v: Verdict)
    ensures var w := Run(World(start, Created(Automation, requester, Route(false, [], requester), start)),
        IntoReview(agent) + more);
            w.ticket.status == ManagerReview && DoDecide(w.ticket, user, v, w.now).Err?
  {
    var route := Route(false, [], requester);
    var w := World(start, Created(Automation, requester, route, start));
    assert Without(route.approvers, [requester]) == [];
    assert w.ticket.status == Submitted && w.ticket.kind == Automation;
    hide Run, Created, DoDecide, Next, Without, IntoReview, Asked;
    IntoReviewArrives(w, agent);
    UndecidableStays(requester, route, start, IntoReview(agent), more);
    RunKeepsAsked(requester, route, start, IntoReview(agent) + more);
    var last := Run(w, IntoReview(agent) + more);
    NoDecisionTaken(last.ticket, user, v, last.now);
  }
}
