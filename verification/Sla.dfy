/** SLA clocks over a ticket's life (servicedesk/app/sla.py:46-77). */
module Sla {
  import opened Options
  import opened Tickets
  import opened TicketProperties

  const MINUTE: int := 60 * 1_000_000

  // Targets in minutes.
  datatype Target = Target(response: int, resolution: int)

  datatype Reading = Reading(
    responseElapsed: int, resolutionElapsed: int, responsePending: bool, resolutionPending: bool,
    responseBreached: bool, resolutionBreached: bool, breached: bool)

  function SlaStatus(cfg: Target, createdAt: Instant, firstResponse: Option<Instant>, closedAt: Option<Instant>,
      now: Instant): Reading
  {
    var responseElapsed := (if firstResponse.None? then now else firstResponse.value) - createdAt;
    var resolutionElapsed := (if closedAt.None? then now else closedAt.value) - createdAt;
    var responseBreached := responseElapsed > cfg.response * MINUTE;
    var resolutionBreached := resolutionElapsed > cfg.resolution * MINUTE;
    Reading(responseElapsed, resolutionElapsed, firstResponse.None?, closedAt.None?,
            responseBreached, resolutionBreached, responseBreached || resolutionBreached)
  }

  function ReadingOf(cfg: Target, w: World): Reading {
    SlaStatus(cfg, w.ticket.createdAt, w.ticket.firstResponse, w.ticket.closedAt, w.now)
  }

  // A reading never goes back: neither elapsed time shrinks.
  predicate NotBefore(a: Reading, b: Reading) {
    a.responseElapsed <= b.responseElapsed && a.resolutionElapsed <= b.resolutionElapsed
  }

  // A transition of the ticket, whatever the decision protocol did to its other fields before.
  lemma TransitionReading(w: World, t: Ticket, to: Status, actor: Sub, cfg: Target)
    requires Inv(w) && ApplyTransition(t, to, actor, w.now).Ok?
    requires t.createdAt == w.ticket.createdAt && t.status == w.ticket.status
    requires t.firstResponse == w.ticket.firstResponse && t.closedAt == w.ticket.closedAt
    ensures NotBefore(ReadingOf(cfg, w), ReadingOf(cfg, w.(ticket := ApplyTransition(t, to, actor, w.now).value)))
  {
    hide LegalPath, Counts, FirstMove, Table;
  }

  lemma DecisionReading(w: World, user: Sub, v: Verdict, cfg: Target)
    requires Inv(w) && DoDecide(w.ticket, user, v, w.now).Ok?
    ensures NotBefore(ReadingOf(cfg, w), ReadingOf(cfg, w.(ticket := DoDecide(w.ticket, user, v, w.now).value)))
  {
    hide Inv, ApplyTransition, Without;
    var t := w.ticket;
    var d := t.(decisions := t.decisions + [Decision(user, v)]);
    if v == Approve && !t.anyOf {
      if Without(t.eligible, t.approvedBy + [user]) == [] {
        TransitionReading(w, d.(approvedBy := t.approvedBy + [user]), Approved, user, cfg);
      }
    } else if v == RequestChanges {
      var approver := if t.eligible == [] then None else Some(t.eligible[0]);
      TransitionReading(w, d.(approvedBy := [], approver := approver), ChangesRequested, user, cfg);
    } else {
      TransitionReading(w, d, StatusOf(v), user, cfg);
    }
  }

  // One step: it can stop a clock, or restart one by reopening, but never turn it back.
  lemma StepReading(w: World, step: Step, cfg: Target)
    requires Inv(w)
    ensures NotBefore(ReadingOf(cfg, w), ReadingOf(cfg, Next(w, step)))
  {
    hide Inv, ApplyTransition, DoDecide;
    match step
    case Transition(user, agent, to) =>
      if ApplyTransition(w.ticket, to, user, w.now).Ok? {
        TransitionReading(w, w.ticket, to, user, cfg);
      }
    case Propose(user) =>
      var t := w.ticket.(proposals := w.ticket.proposals + 1);
      if ApplyTransition(t, ProposalReady, user, w.now).Ok? {
        TransitionReading(w, t, ProposalReady, user, cfg);
      }
    case Decide(user, v) =>
      if DoDecide(w.ticket, user, v, w.now).Ok? {
        DecisionReading(w, user, v, cfg);
      }
    case Assign(user, assignee) =>
    case Tick(elapsed) =>
  }

  lemma {:induction false} RunReading(w: World, steps: seq<Step>, cfg: Target)
    requires Inv(w)
    ensures Inv(Run(w, steps)) && NotBefore(ReadingOf(cfg, w), ReadingOf(cfg, Run(w, steps)))
  {
    if steps != [] {
      var front := steps[..|steps| - 1];
      RunReading(w, front, cfg);
      hide Inv, Next, ReadingOf;
      StepReading(Run(w, front), steps[|steps| - 1], cfg);
      StepKeepsInv(Run(w, front), steps[|steps| - 1]);
    }
  }

  lemma {:induction false} RunJoin(w: World, first: seq<Step>, more: seq<Step>)
    ensures Run(w, first + more) == Run(Run(w, first), more)
  {
    hide Next;
    if more == [] {
      assert first + more == first;
    } else {
      var n := |more| - 1;
      assert (first + more)[..|first + more| - 1] == first + more[..n];
      RunJoin(w, first, more[..n]);
    }
  }

  // A breach is permanent: whatever is reported breached once, response or resolution, stays reported
  // at every later time of the run, through closing and reopening.
  lemma BreachIsPermanent(kind: Kind, requester: Sub, route: Route, start: Instant, steps: seq<Step>, more: seq<Step>,
      cfg: Target)
    ensures var then_ := ReadingOf(cfg, Run(World(start, Created(kind, requester, route, start)), steps));
            var later := ReadingOf(cfg, Run(World(start, Created(kind, requester, route, start)), steps + more));
            && (then_.responseBreached ==> later.responseBreached)
            && (then_.resolutionBreached ==> later.resolutionBreached)
            && (then_.breached ==> later.breached)
  {
    var w := World(start, Created(kind, requester, route, start));
    RunKeepsInv(kind, requester, route, start, steps);
    RunJoin(w, steps, more);
    hide Run, Inv, Created;
    RunReading(Run(w, steps), more, cfg);
  }

  // ---------------------------------------------------------------- what a breach says of the log

  lemma {:induction false} FirstMoveMeans(log: seq<Hop>)
    ensures FirstMove(log).None? <==> forall i | 0 <= i < |log| :: !Moves(log[i])
    ensures FirstMove(log).Some? ==>
              exists i :: && 0 <= i < |log| && Moves(log[i]) && FirstMove(log) == Some(log[i].at)
                          && forall j | 0 <= j < i :: !Moves(log[j])
  {
    hide Moves;
    if log != [] {
      var front := log[..|log| - 1];
      FirstMoveMeans(front);
      assert forall i | 0 <= i < |front| :: front[i] == log[i];
    }
  }

  // Somebody first moved the ticket with row `i` of its log.
  ghost predicate RespondedAt(t: Ticket, i: int) {
    0 <= i < |t.log| && Moves(t.log[i]) && forall j | 0 <= j < i :: !Moves(t.log[j])
  }

  // The response is breached exactly when the first move came later than its own target after creation,
  // or has not come and it is later now; the resolution exactly when a closed ticket was closed later
  // than its own target, or it is later now.
  ghost predicate TellsTheLog(cfg: Target, w: World, r: Reading) {
    var t := w.ticket;
    var respondBy := t.createdAt + cfg.response * 60 * 1_000_000;
    var resolveBy := t.createdAt + cfg.resolution * 60 * 1_000_000;
    && (forall i | RespondedAt(t, i) :: !r.responsePending && (r.responseBreached <==> t.log[i].at > respondBy))
    && ((forall i | 0 <= i < |t.log| :: !Moves(t.log[i])) ==>
          r.responsePending && (r.responseBreached <==> w.now > respondBy))
    && (t.status == Closed ==> t.closedAt.Some? && (r.resolutionBreached <==> t.closedAt.value > resolveBy))
    && (t.status != Closed ==> (r.resolutionBreached <==> w.now > resolveBy))
    && (r.resolutionPending <==> t.status != Closed)
    && (r.breached <==> r.responseBreached || r.resolutionBreached)
  }

  lemma ClocksTell(cfg: Target, w: World)
    requires Clocks(w.ticket, w.now)
    ensures TellsTheLog(cfg, w, ReadingOf(cfg, w))
  {
    FirstMoveMeans(w.ticket.log);
    hide FirstMove, Moves;
    forall i | RespondedAt(w.ticket, i) ensures w.ticket.firstResponse == Some(w.ticket.log[i].at) {
      var log := w.ticket.log;
      var k :| 0 <= k < |log| && Moves(log[k]) && FirstMove(log) == Some(log[k].at)
               && forall j | 0 <= j < k :: !Moves(log[j]);
      assert k == i;
    }
  }

  lemma BreachMeans(kind: Kind, requester: Sub, route: Route, start: Instant, steps: seq<Step>, cfg: Target)
    ensures var w := Run(World(start, Created(kind, requester, route, start)), steps);
            TellsTheLog(cfg, w, ReadingOf(cfg, w))
  {
    RunKeepsInv(kind, requester, route, start, steps);
    hide Run, Created, Clocks, TellsTheLog, LegalPath, Counts;
    ClocksTell(cfg, Run(World(start, Created(kind, requester, route, start)), steps));
  }
}
