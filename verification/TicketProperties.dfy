/** What every run of a ticket keeps: a legal log, its clocks, its hop count and its approvals. */
module TicketProperties {
  import opened Options
  import opened Tickets

  // ---------------------------------------------------------------- reading the log

  predicate Moves(h: Hop) {
    h.source.Some? && h.source.value != h.to
  }

  function Count(log: seq<Hop>, to: Status): nat {
    if log == [] then 0
    else Count(log[..|log| - 1], to) + (if Moves(log[|log| - 1]) && log[|log| - 1].to == to then 1 else 0)
  }

  function Length(log: seq<Hop>): nat {
    if log == [] then 0 else Length(log[..|log| - 1]) + (if Moves(log[|log| - 1]) then 1 else 0)
  }

  // When the first real move was made.
  function FirstMove(log: seq<Hop>): Option<Instant> {
    if log == [] then None
    else
      var earlier := FirstMove(log[..|log| - 1]);
      if earlier.Some? then earlier else if Moves(log[|log| - 1]) then Some(log[|log| - 1].at) else None
  }

  // A proposal has been made since changes were last requested.
  predicate Fresh(log: seq<Hop>) {
    if log == [] then false
    else
      var last := log[|log| - 1];
      if Moves(last) && last.to == ProposalReady then true
      else if Moves(last) && last.to == ChangesRequested then false
      else Fresh(log[..|log| - 1])
  }

  lemma {:induction false} FreshMeans(log: seq<Hop>)
    ensures Fresh(log) <==> exists i :: 0 <= i < |log| && Moves(log[i]) && log[i].to == ProposalReady
                              && forall j | i < j < |log| :: !(Moves(log[j]) && log[j].to == ChangesRequested)
  {
    if log != [] {
      var n := |log| - 1;
      FreshMeans(log[..n]);
      assert forall i | 0 <= i < n :: log[..n][i] == log[i];
      if Moves(log[n]) && log[n].to == ProposalReady {
        assert Fresh(log);
      } else if !(Moves(log[n]) && log[n].to == ChangesRequested) && Fresh(log[..n]) {
        var i :| 0 <= i < n && Moves(log[i]) && log[i].to == ProposalReady
          && forall j | i < j < n :: !(Moves(log[j]) && log[j].to == ChangesRequested);
        assert forall j | i < j < |log| :: !(Moves(log[j]) && log[j].to == ChangesRequested);
      }
    }
  }

  // The log starts with the creation row, joins up, takes only edges of the table or stays put, and
  // ends where the ticket is.
  ghost predicate LegalPath(t: Ticket, now: Instant) {
    var log := t.log;
    && log != [] && log[0].source.None? && log[0].to == InitialStatus(t.kind)
    && (forall i | 1 <= i < |log| ::
          log[i].source == Some(log[i - 1].to)
            && (log[i].to == log[i - 1].to || log[i].to in Table(t.kind, log[i - 1].to)))
    && log[|log| - 1].to == t.status
    && (forall i | 0 <= i < |log| :: t.createdAt <= log[i].at <= now)
  }

  // closed_at and first_response_at say what the log says.
  ghost predicate Clocks(t: Ticket, now: Instant) {
    && t.createdAt <= now
    && (t.closedAt.Some? <==> t.status == Closed)
    && (t.closedAt.Some? ==> t.createdAt <= t.closedAt.value <= now)
    && t.firstResponse == FirstMove(t.log)
  }

  // Hops made beyond four for every request for changes.
  function Base(s: Status): int {
    match s
    case ItReview => 1
    case ProposalReady => 2
    case ManagerReview => 3
    case Approved => 4
    case InBuild => 5
    case Deployed => 6
    case Closed => 7
    case _ => 0
  }

  predicate AfterApproval(s: Status) {
    s == Approved || s == InBuild || s == Deployed || s == Closed
  }

  ghost predicate HopCount(t: Ticket) {
    var loops := 4 * Count(t.log, ChangesRequested);
    && t.status != Open && t.status != InProgress && t.status != WaitingOnRequester && t.status != Resolved
      && t.status != Draft
    && (if t.status == Rejected then Length(t.log) == 2 + loops || Length(t.log) == 4 + loops
        else Length(t.log) == Base(t.status) + loops)
    && Count(t.log, Approved) == (if AfterApproval(t.status) then 1 else 0)
    && (t.status == ProposalReady || t.status == ManagerReview || AfterApproval(t.status) ==> Fresh(t.log))
  }

  // A support ticket is open, worked on, waiting and resolved in that order; from then on it is only
  // closed and reopened, so its resolutions fix its hop count.
  ghost predicate SupportCount(t: Ticket) {
    var hops, resolved := Length(t.log), Count(t.log, Resolved);
    match t.status
    case Open => hops == 0 && resolved == 0
    case InProgress => hops == 1 && resolved == 0
    case WaitingOnRequester => hops == 2 && resolved == 0
    case Resolved => resolved >= 1 && hops == 1 + 2 * resolved
    case Closed => resolved >= 1 && hops == 2 + 2 * resolved
    case Rejected => hops == 1 && resolved == 0
    case _ => false
  }

  ghost predicate Counts(t: Ticket) {
    if t.kind == Automation then HopCount(t) else SupportCount(t)
  }

  ghost predicate Inv(w: World) {
    LegalPath(w.ticket, w.now) && Clocks(w.ticket, w.now) && Counts(w.ticket)
  }

  lemma CreatedInv(kind: Kind, requester: Sub, route: Route, now: Instant)
    ensures Inv(World(now, Created(kind, requester, route, now)))
  {
    var t := Created(kind, requester, route, now);
    assert t.log[..0] == [];
  }

  // What one appended row does to every reading of the log.
  lemma Appended(log: seq<Hop>, h: Hop)
    ensures Length(log + [h]) == Length(log) + (if Moves(h) then 1 else 0)
    ensures forall s :: Count(log + [h], s) == Count(log, s) + (if Moves(h) && h.to == s then 1 else 0)
    ensures FirstMove(log + [h])
         == if FirstMove(log).Some? then FirstMove(log) else if Moves(h) then Some(h.at) else None
    ensures Fresh(log + [h])
         == if Moves(h) && h.to == ProposalReady then true
            else if Moves(h) && h.to == ChangesRequested then false
            else Fresh(log)
  {
    assert (log + [h])[..|log|] == log;
  }

  lemma TransitionPath(t: Ticket, to: Status, actor: Sub, now: Instant)
    requires LegalPath(t, now) && t.createdAt <= now && ApplyTransition(t, to, actor, now).Ok?
    ensures LegalPath(ApplyTransition(t, to, actor, now).value, now)
  {}

  lemma TransitionClocks(t: Ticket, to: Status, actor: Sub, now: Instant)
    requires Clocks(t, now) && ApplyTransition(t, to, actor, now).Ok?
    ensures Clocks(ApplyTransition(t, to, actor, now).value, now)
  {
    hide FirstMove, Length, Count, Fresh;
    Appended(t.log, Hop(actor, Some(t.status), to, now));
  }

  lemma AutomationHops(t: Ticket, to: Status, actor: Sub, now: Instant)
    requires t.kind == Automation && HopCount(t) && ApplyTransition(t, to, actor, now).Ok?
    ensures HopCount(ApplyTransition(t, to, actor, now).value)
  {
    hide Length, Count, Fresh, FirstMove, SupportCount;
    Appended(t.log, Hop(actor, Some(t.status), to, now));
  }

  lemma SupportHops(t: Ticket, to: Status, actor: Sub, now: Instant)
    requires t.kind == Support && SupportCount(t) && ApplyTransition(t, to, actor, now).Ok?
    ensures SupportCount(ApplyTransition(t, to, actor, now).value)
  {
    hide Length, Count, Fresh, FirstMove, HopCount;
    Appended(t.log, Hop(actor, Some(t.status), to, now));
  }

  lemma TransitionHops(t: Ticket, to: Status, actor: Sub, now: Instant)
    requires Counts(t) && ApplyTransition(t, to, actor, now).Ok?
    ensures Counts(ApplyTransition(t, to, actor, now).value)
  {
    hide HopCount, SupportCount;
    if t.kind == Automation {
      AutomationHops(t, to, actor, now);
    } else {
      SupportHops(t, to, actor, now);
    }
  }

  lemma TransitionKeepsInv(w: World, to: Status, actor: Sub)
    requires Inv(w) && ApplyTransition(w.ticket, to, actor, w.now).Ok?
    ensures Inv(w.(ticket := ApplyTransition(w.ticket, to, actor, w.now).value))
  {
    hide LegalPath, Counts;
    TransitionPath(w.ticket, to, actor, w.now);
    TransitionClocks(w.ticket, to, actor, w.now);
    TransitionHops(w.ticket, to, actor, w.now);
  }

  lemma NoteKeepsInv(w: World, t: Ticket, actor: Sub)
    requires Inv(w) && t.log == w.ticket.log + [Hop(actor, Some(w.ticket.status), w.ticket.status, w.now)]
    requires t.kind == w.ticket.kind && t.status == w.ticket.status && t.createdAt == w.ticket.createdAt
             && t.firstResponse == w.ticket.firstResponse && t.closedAt == w.ticket.closedAt
    ensures Inv(w.(ticket := t))
  {
    Appended(w.ticket.log, Hop(actor, Some(w.ticket.status), w.ticket.status, w.now));
    hide Length, Count, Fresh, FirstMove;
  }

  // The fields of the decision protocol do not matter to the invariant.
  lemma OtherFields(w: World, t: Ticket)
    requires Inv(w)
    requires t.kind == w.ticket.kind && t.status == w.ticket.status && t.createdAt == w.ticket.createdAt
        && t.log == w.ticket.log
             && t.firstResponse == w.ticket.firstResponse && t.closedAt == w.ticket.closedAt
    ensures Inv(w.(ticket := t))
  {}

  lemma DecideKeepsInv(w: World, user: Sub, v: Verdict)
    requires Inv(w) && DoDecide(w.ticket, user, v, w.now).Ok?
    ensures Inv(w.(ticket := DoDecide(w.ticket, user, v, w.now).value))
  {
    hide Inv, ApplyTransition, Without;
    var t := w.ticket;
    var d := t.(decisions := t.decisions + [Decision(user, v)]);
    if v == Approve && !t.anyOf {
      var prior := t.approvedBy + [user];
      if Without(t.eligible, prior) != [] {
        NoteKeepsInv(w, DoDecide(t, user, v, w.now).value, user);
      } else {
        OtherFields(w, d.(approvedBy := prior));
        TransitionKeepsInv(w.(ticket := d.(approvedBy := prior)), Approved, user);
      }
    } else if v == RequestChanges {
      var e := d.(approvedBy := [], approver := if t.eligible == [] then None else Some(t.eligible[0]));
      OtherFields(w, e);
      TransitionKeepsInv(w.(ticket := e), ChangesRequested, user);
    } else {
      OtherFields(w, d);
      TransitionKeepsInv(w.(ticket := d), StatusOf(v), user);
    }
  }

  lemma TickKeepsInv(w: World, elapsed: nat)
    requires Inv(w)
    ensures Inv(w.(now := w.now + elapsed))
  {
    hide Counts, FirstMove;
  }

  lemma StepKeepsInv(w: World, step: Step)
    requires Inv(w)
    ensures Inv(Next(w, step))
  {
    hide Inv, ApplyTransition, DoDecide;
    match step
    case Transition(user, agent, to) =>
      if ApplyTransition(w.ticket, to, user, w.now).Ok? {
        TransitionKeepsInv(w, to, user);
      }
    case Propose(user) =>
      var t := w.ticket.(proposals := w.ticket.proposals + 1);
      OtherFields(w, t);
      if ApplyTransition(t, ProposalReady, user, w.now).Ok? {
        TransitionKeepsInv(w.(ticket := t), ProposalReady, user);
      }
    case Decide(user, v) =>
      if DoDecide(w.ticket, user, v, w.now).Ok? {
        DecideKeepsInv(w, user, v);
      }
    case Assign(user, assignee) =>
      if w.ticket.assignee != Some(assignee) {
        NoteKeepsInv(w, DoAssign(w.ticket, user, assignee, w.now), user);
      }
    case Tick(elapsed) => TickKeepsInv(w, elapsed);
  }

  // In every run of a ticket from its creation: the log is a legal path to the current status,
  // closed_at is set exactly while the ticket is closed, first_response_at is the first move, and an
  // automation request has made four hops per request for changes plus a number fixed by its status,
  // with exactly one approval once approved, resting on a proposal made after the last such request; a
  // support ticket's hops follow from its status and how often it was resolved.
  lemma {:induction false} RunKeepsInv(kind: Kind, requester: Sub, route: Route, start: Instant, steps: seq<Step>)
    ensures Inv(Run(World(start, Created(kind, requester, route, start)), steps))
  {
    hide Inv, Next, Created;
    if steps == [] {
      CreatedInv(kind, requester, route, start);
    } else {
      RunKeepsInv(kind, requester, route, start, steps[..|steps| - 1]);
      StepKeepsInv(Run(World(start, Created(kind, requester, route, start)), steps[..|steps| - 1]), steps[|steps| - 1]);
    }
  }
}
