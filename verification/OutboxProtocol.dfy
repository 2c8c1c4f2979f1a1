/** Outboxes, publishers, the network and the collector as one interleaved system: every step is one
    transaction or one message, any publisher may crash between two of them, and any message may be
    lost, delayed or handled again (backend/app/activity_contract.py:156-193,
    backend/app/routers/activity.py:24-77). */
module OutboxProtocol {
  import opened ActivityContract
  import opened ActivityCollector

  type PublisherId = nat

  // Where a publisher stands inside publish_once; `at` is the clock it read on entry.
  datatype Phase =
    | Idle
    | Claimed(at: Instant, rows: seq<Claim>)
    | Sent(at: Instant, rows: seq<Claim>)
    | Answered(at: Instant, rows: seq<Claim>, answer: Answer)

  datatype Publisher = Publisher(service: string, phase: Phase)

  // `length` is what the publisher's encoder made of the events.
  datatype Request = Request(service: string, events: seq<Event>, length: nat)

  datatype Reply = Reply(request: Request, ids: seq<string>)

  datatype World = World(
    clock: Instant,
    boxes: map<string, Box>,
    publishers: map<PublisherId, Publisher>,
    requests: set<Request>,
    replies: set<Reply>,
    rows: seq<Row>)

  datatype Step =
    | Enqueue(service: string, event: Event)
    | Read(pid: PublisherId, rows: seq<Claim>)
    | Post(pid: PublisherId, length: nat)
    | Handle(request: Request)
    | Hear(pid: PublisherId, reply: Reply)
    | GiveUp(pid: PublisherId, error: string)
    | Settle(pid: PublisherId)
    | Crash(pid: PublisherId)
    | Tick(elapsed: nat)

  function Payloads(rows: seq<Claim>): (events: seq<Event>)
    ensures |events| == |rows|
    ensures forall i | 0 <= i < |rows| :: events[i] == rows[i].payload
  {
    seq(|rows|, i requires 0 <= i < |rows| => rows[i].payload)
  }

  ghost function WithPhase(w: World, pid: PublisherId, phase: Phase): World
    requires pid in w.publishers
  {
    w.(publishers := w.publishers[pid := w.publishers[pid].(phase := phase)])
  }

  // A step whose guard does not hold leaves the world as it is.
  ghost function DoEnqueue(w: World, service: string, event: Event): World {
    if service in w.boxes && event.service == service && Enqueued(w.boxes[service], event, w.clock).Ok? then
      w.(boxes := w.boxes[service := Enqueued(w.boxes[service], event, w.clock).value])
    else w
  }

  ghost function DoRead(w: World, pid: PublisherId, rows: seq<Claim>): World {
    if && pid in w.publishers && w.publishers[pid].phase.Idle? && w.publishers[pid].service in w.boxes
       && rows != [] && DueBatch(w.boxes[w.publishers[pid].service], w.clock, rows)
    then WithPhase(w, pid, Claimed(w.clock, rows))
    else w
  }

  ghost function DoPost(w: World, pid: PublisherId, length: nat): World {
    if pid in w.publishers && w.publishers[pid].phase.Claimed? then
      var phase := w.publishers[pid].phase;
      WithPhase(w, pid, Sent(phase.at, phase.rows))
        .(requests := w.requests + {Request(w.publishers[pid].service, Payloads(phase.rows), length)})
    else w
  }

  ghost function DoHandle(w: World, request: Request): World {
    if request in w.requests then
      var done := Collect(w.rows, request.service, request.events, request.length, w.clock);
      w.(rows := done.rows,
         replies := if done.outcome.Acknowledged? then w.replies + {Reply(request, done.outcome.ids)} else w.replies)
    else w
  }

  ghost function DoHear(w: World, pid: PublisherId, reply: Reply): World {
    if && pid in w.publishers && w.publishers[pid].phase.Sent? && reply in w.replies
       && reply.request == Request(w.publishers[pid].service, Payloads(w.publishers[pid].phase.rows),
         reply.request.length)
    then
      var phase := w.publishers[pid].phase;
      WithPhase(w, pid, Answered(phase.at, phase.rows, ReadResponse(Ids(phase.rows), Body(reply.ids))))
    else w
  }

  ghost function DoGiveUp(w: World, pid: PublisherId, error: string): World {
    if pid in w.publishers && (w.publishers[pid].phase.Claimed? || w.publishers[pid].phase.Sent?) then
      var phase := w.publishers[pid].phase;
      WithPhase(w, pid, Answered(phase.at, phase.rows, ReadResponse(Ids(phase.rows), Failed(error))))
    else w
  }

  ghost function DoSettle(w: World, pid: PublisherId): World {
    if pid in w.publishers && w.publishers[pid].phase.Answered? && w.publishers[pid].service in w.boxes then
      var Publisher(service, phase) := w.publishers[pid];
      var box := w.boxes[service];
      WithPhase(w, pid, Idle)
        .(boxes := w.boxes[service := box.(delivery := MarkAll(box.delivery, phase.rows, phase.answer, phase.at))])
    else w
  }

  ghost function DoCrash(w: World, pid: PublisherId): World {
    if pid in w.publishers then WithPhase(w, pid, Idle) else w
  }

  ghost function Next(w: World, step: Step): World {
    match step
    case Enqueue(service, event) => DoEnqueue(w, service, event)
    case Read(pid, rows) => DoRead(w, pid, rows)
    case Post(pid, length) => DoPost(w, pid, length)
    case Handle(request) => DoHandle(w, request)
    case Hear(pid, reply) => DoHear(w, pid, reply)
    case GiveUp(pid, error) => DoGiveUp(w, pid, error)
    case Settle(pid) => DoSettle(w, pid)
    case Crash(pid) => DoCrash(w, pid)
    case Tick(elapsed) => w.(clock := w.clock + elapsed)
  }

  ghost function Run(w: World, steps: seq<Step>): World
    decreases |steps|
  {
    if steps == [] then w else Run(Next(w, steps[0]), steps[1..])
  }

  ghost predicate Initial(w: World) {
    && (forall s | s in w.boxes :: w.boxes[s] == Box(map[], map[]))
    && (forall p | p in w.publishers :: w.publishers[p].phase.Idle?)
    && w.requests == {} && w.replies == {} && w.rows == []
  }

  // ---------------------------------------------------------------- invariant

  ghost predicate Recorded(w: World, service: string, e: Event) {
    && service in w.boxes
    && e.eventId in w.boxes[service].events
    && w.boxes[service].events[e.eventId].payload == e
  }

  ghost predicate SoundBox(service: string, b: Box, clock: Instant) {
    && Wired(b)
    && forall id | id in b.events ::
         var e := b.events[id];
         e.payload.eventId == id && e.digest == Sha256(e.payload) && e.payload.service == service
           && ValidEvent(e.payload, clock)
  }

  ghost predicate KnownRows(w: World, service: string, rows: seq<Claim>) {
    && DistinctIds(rows)
    && 1 <= |rows| <= BATCH_SIZE
    && forall i | 0 <= i < |rows| :: Recorded(w, service, rows[i].payload) && rows[i].eventId == rows[i].payload.eventId
  }

  ghost predicate KnownEvents(w: World, r: Request) {
    && 1 <= |r.events| <= BATCH_SIZE
    && forall i | 0 <= i < |r.events| :: Recorded(w, r.service, r.events[i])
  }

  ghost predicate Held(w: World, service: string, id: string) {
    && service in w.boxes && id in w.boxes[service].events
    && Stored(w.rows, service, w.boxes[service].events[id].payload)
  }

  ghost predicate HonestPublisher(w: World, p: Publisher) {
    match p.phase
    case Idle => true
    case Claimed(_, rows) => KnownRows(w, p.service, rows)
    case Sent(_, rows) => KnownRows(w, p.service, rows)
    case Answered(_, rows, answer) =>
      && KnownRows(w, p.service, rows)
      && forall id | id in answer.acked :: Held(w, p.service, id)
  }

  ghost predicate HonestReply(w: World, r: Reply) {
    && KnownEvents(w, r.request)
    && r.ids == EventIds(r.request.events)
    && forall i | 0 <= i < |r.request.events| :: Stored(w.rows, r.request.service, r.request.events[i])
  }

  ghost predicate HonestCollector(w: World) {
    && UniqueKeys(w.rows)
    && FaithfulRows(w.rows)
    && forall i | 0 <= i < |w.rows| :: Recorded(w, w.rows[i].service, w.rows[i].payload)
  }

  ghost predicate DeliveredIsHeld(w: World) {
    forall s, id | s in w.boxes && id in w.boxes[s].delivery && w.boxes[s].delivery[id].deliveredAt.Some? ::
      Held(w, s, id)
  }

  ghost predicate Inv(w: World) {
    && (forall s | s in w.boxes :: SoundBox(s, w.boxes[s], w.clock))
    && (forall p | p in w.publishers :: HonestPublisher(w, w.publishers[p]))
    && (forall r | r in w.requests :: KnownEvents(w, r))
    && (forall r | r in w.replies :: HonestReply(w, r))
    && HonestCollector(w)
    && DeliveredIsHeld(w)
  }

  // What no step ever takes back: evidence, collected rows, time.
  ghost predicate Grows(w: World, w': World) {
    && w.clock <= w'.clock
    && w.boxes.Keys == w'.boxes.Keys
    && (forall s, id | s in w.boxes && id in w.boxes[s].events ::
          id in w'.boxes[s].events && w'.boxes[s].events[id] == w.boxes[s].events[id])
    && w.rows <= w'.rows
  }

  lemma StoredGrows(rows: seq<Row>, rows': seq<Row>, service: string, e: Event)
    requires rows <= rows' && Stored(rows, service, e)
    ensures Stored(rows', service, e)
  {
    var i :| 0 <= i < |rows| && rows[i] == Row(service, e.eventId, e, Sha256(e));
    assert rows'[i] == rows[i];
  }

  // Everything the invariant says about parties that did not move carries over.
  lemma InvGrows(w: World, w': World)
    requires Inv(w) && Grows(w, w')
    ensures forall p | p in w.publishers :: HonestPublisher(w', w.publishers[p])
    ensures forall r | r in w.requests :: KnownEvents(w', r)
    ensures forall r | r in w.replies :: HonestReply(w', r)
    ensures forall s, id | Held(w, s, id) :: Held(w', s, id)
    ensures forall s, e | Recorded(w, s, e) :: Recorded(w', s, e)
  {
    forall s, id | Held(w, s, id)
      ensures Held(w', s, id)
    {
      StoredGrows(w.rows, w'.rows, s, w.boxes[s].events[id].payload);
    }
    forall r | r in w.replies
      ensures HonestReply(w', r)
    {
      forall i | 0 <= i < |r.request.events|
        ensures Stored(w'.rows, r.request.service, r.request.events[i])
      {
        StoredGrows(w.rows, w'.rows, r.request.service, r.request.events[i]);
      }
    }
  }

  // What handling any request does to honest central rows.
  lemma CollectEffect(rows: seq<Row>, r: Request, now: Instant)
    requires UniqueKeys(rows) && FaithfulRows(rows)
    ensures var done := Collect(rows, r.service, r.events, r.length, now);
            && rows <= done.rows && UniqueKeys(done.rows) && FaithfulRows(done.rows)
            && (forall i | |rows| <= i < |done.rows| ::
              done.rows[i].service == r.service && done.rows[i].payload in r.events)
            && (done.outcome.Acknowledged? ==>
                  && done.outcome.ids == EventIds(r.events)
                  && forall k | 0 <= k < |r.events| :: Stored(done.rows, r.service, r.events[k]))
  {
    StoreAllMeaning(rows, r.service, r.events);
  }

  lemma HandleGrows(w: World, r: Request)
    requires Inv(w)
    ensures Grows(w, DoHandle(w, r))
  {
    hide ValidEvent, Collect;
    CollectEffect(w.rows, r, w.clock);
  }

  lemma StepGrows(w: World, step: Step)
    requires Inv(w)
    ensures Grows(w, Next(w, step))
  {
    hide Inv, DoHandle, ValidEvent, DueBatch, MarkAll, ReadResponse;
    if step.Handle? {
      HandleGrows(w, step.request);
    }
  }

  // An outbox that recorded an event cannot be contradicted by the collector's rows.
  lemma HonestBatchIsConsistent(w: World, r: Request)
    requires Inv(w) && KnownEvents(w, r)
    ensures Consistent(w.rows, r.service, r.events)
  {
    forall i, k | 0 <= i < |w.rows| && 0 <= k < |r.events| && w.rows[i].service == r.service
      && w.rows[i].eventId == r.events[k].eventId
      ensures w.rows[i].digest == Sha256(r.events[k])
    {
      assert Recorded(w, r.service, r.events[k]);
      assert Recorded(w, w.rows[i].service, w.rows[i].payload);
    }
  }

  // No honest request, whenever and however often it is handled, is answered with a conflict or
  // found invalid; it is acknowledged whole unless its body is too large.
  lemma HonestRequestOutcome(w: World, r: Request)
    requires Inv(w) && r in w.requests
    ensures r.service != RESERVED_SLUG ==>
              Collect(w.rows, r.service, r.events, r.length, w.clock).outcome
              == if r.length > MAX_BODY_BYTES then TooLarge else Acknowledged(EventIds(r.events))
    ensures !Collect(w.rows, r.service, r.events, r.length, w.clock).outcome.Conflict?
  {
    HonestBatchIsConsistent(w, r);
    StoreAllMeaning(w.rows, r.service, r.events);
    assert AcceptableBatch(r.service, r.events, w.clock) by {
      forall i | 0 <= i < |r.events|
        ensures ValidEvent(r.events[i], w.clock) && r.events[i].service == r.service
      {
        assert Recorded(w, r.service, r.events[i]);
      }
    }
  }

  lemma HandleKeepsInv(w: World, r: Request)
    requires Inv(w)
    ensures Inv(DoHandle(w, r))
  {
    hide ValidEvent, Collect;
    if r in w.requests {
      var w' := DoHandle(w, r);
      CollectEffect(w.rows, r, w.clock);
      InvGrows(w, w');
      forall i | 0 <= i < |w'.rows|
        ensures Recorded(w', w'.rows[i].service, w'.rows[i].payload)
      {
        if i < |w.rows| {
          assert w'.rows[i] == w.rows[i];
        } else {
          var k :| 0 <= k < |r.events| && r.events[k] == w'.rows[i].payload;
          assert Recorded(w, r.service, r.events[k]);
        }
      }
    }
  }

  // What Settle leaves in a delivery row: delivered before, or acknowledged just now.
  lemma SettledRow(w: World, pid: PublisherId, s: string, id: string)
    requires Inv(w) && s in w.boxes && id in w.boxes[s].delivery
    ensures var d := DoSettle(w, pid).boxes[s].delivery;
            && id in d
            && (w.boxes[s].delivery[id].deliveredAt.Some? ==> d[id] == w.boxes[s].delivery[id])
            && (d[id].deliveredAt.Some? ==> Held(w, s, id))
  {
    hide ValidEvent;
    if pid in w.publishers && w.publishers[pid].phase.Answered? && w.publishers[pid].service == s {
      var phase := w.publishers[pid].phase;
      assert HonestPublisher(w, w.publishers[pid]);
      MarkAllAt(w.boxes[s].delivery, phase.rows, phase.answer, phase.at, id);
      if id in Ids(phase.rows) {
        var i :| 0 <= i < |phase.rows| && phase.rows[i].eventId == id;
      }
    }
  }

  lemma SettleKeepsInv(w: World, pid: PublisherId)
    requires Inv(w)
    ensures Inv(DoSettle(w, pid))
  {
    hide ValidEvent, MarkAll, HonestReply, KnownEvents, UniqueKeys, FaithfulRows;
    var w' := DoSettle(w, pid);
    StepGrows(w, Settle(pid));
    InvGrows(w, w');
    forall s, id | s in w'.boxes && id in w'.boxes[s].delivery && w'.boxes[s].delivery[id].deliveredAt.Some?
      ensures Held(w', s, id)
    {
      assert SoundBox(s, w.boxes[s], w.clock);
      SettledRow(w, pid, s, id);
    }
  }

  lemma EnqueueKeepsInv(w: World, service: string, event: Event)
    requires Inv(w)
    ensures Inv(DoEnqueue(w, service, event))
  {
    hide ValidEvent, HonestPublisher, HonestReply, KnownEvents, UniqueKeys, FaithfulRows, Held, Recorded;
    StepGrows(w, Enqueue(service, event));
    InvGrows(w, DoEnqueue(w, service, event));
  }

  lemma PostKeepsInv(w: World, pid: PublisherId, length: nat)
    requires Inv(w)
    ensures Inv(DoPost(w, pid, length))
  {
    hide ValidEvent;
    var w' := DoPost(w, pid, length);
    StepGrows(w, Post(pid, length));
    InvGrows(w, w');
    if w' != w {
      var Publisher(service, phase) := w.publishers[pid];
      assert HonestPublisher(w, w.publishers[pid]);
      assert KnownEvents(w, Request(service, Payloads(phase.rows), length));
    }
  }

  lemma GiveUpKeepsInv(w: World, pid: PublisherId, error: string)
    requires Inv(w)
    ensures Inv(DoGiveUp(w, pid, error))
  {
    hide ValidEvent;
    InvGrows(w, DoGiveUp(w, pid, error));
    if pid in w.publishers { assert HonestPublisher(w, w.publishers[pid]); }
  }

  lemma TickKeepsInv(w: World, elapsed: nat)
    requires Inv(w)
    ensures Inv(w.(clock := w.clock + elapsed))
  {
    InvGrows(w, w.(clock := w.clock + elapsed));
  }

  lemma ReadKeepsInv(w: World, pid: PublisherId, rows: seq<Claim>)
    requires Inv(w)
    ensures Inv(DoRead(w, pid, rows))
  {
    var w' := DoRead(w, pid, rows);
    InvGrows(w, w');
    if w' != w {
      assert KnownRows(w, w.publishers[pid].service, rows);
    }
  }

  lemma HearKeepsInv(w: World, pid: PublisherId, reply: Reply)
    requires Inv(w)
    ensures Inv(DoHear(w, pid, reply))
  {
    hide ValidEvent, Collect, KnownEvents, UniqueKeys, FaithfulRows;
    var w' := DoHear(w, pid, reply);
    InvGrows(w, w');
    if w' != w {
      var Publisher(service, phase) := w.publishers[pid];
      var answer := w'.publishers[pid].phase.answer;
      assert HonestReply(w, reply) && HonestPublisher(w, w.publishers[pid]);
      forall id | id in answer.acked
        ensures Held(w', service, id)
      {
        var i :| 0 <= i < |phase.rows| && phase.rows[i].eventId == id;
        assert Recorded(w, service, phase.rows[i].payload);
        assert Stored(w.rows, service, reply.request.events[i]);
      }
    }
  }

  lemma CrashKeepsInv(w: World, pid: PublisherId)
    requires Inv(w)
    ensures Inv(DoCrash(w, pid))
  {
    hide ValidEvent;
    InvGrows(w, DoCrash(w, pid));
  }

  lemma StepKeepsInv(w: World, step: Step)
    requires Inv(w)
    ensures Inv(Next(w, step))
  {
    hide Inv;
    match step
    case Enqueue(service, event) => EnqueueKeepsInv(w, service, event);
    case Read(pid, rows) => ReadKeepsInv(w, pid, rows);
    case Post(pid, length) => PostKeepsInv(w, pid, length);
    case Handle(r) => HandleKeepsInv(w, r);
    case Hear(pid, reply) => HearKeepsInv(w, pid, reply);
    case GiveUp(pid, error) => GiveUpKeepsInv(w, pid, error);
    case Settle(pid) => SettleKeepsInv(w, pid);
    case Crash(pid) => CrashKeepsInv(w, pid);
    case Tick(elapsed) => TickKeepsInv(w, elapsed);
  }

  lemma {:induction false} RunKeepsInv(w: World, steps: seq<Step>)
    requires Inv(w)
    ensures Inv(Run(w, steps))
    decreases |steps|
  {
    if steps != [] {
      StepKeepsInv(w, steps[0]);
      RunKeepsInv(Next(w, steps[0]), steps[1..]);
    }
  }

  lemma InitialInv(w: World)
    requires Initial(w)
    ensures Inv(w)
  {
  }

  // ---------------------------------------------------------------- safety over whole runs

  // A delivered row is held centrally with the same payload and digest; no key is held twice; every
  // central row is an event its service recorded.
  lemma EvidenceIsSafe(w0: World, steps: seq<Step>)
    requires Initial(w0)
    ensures var w := Run(w0, steps);
      && (forall s, id | s in w.boxes && id in w.boxes[s].delivery && w.boxes[s].delivery[id].deliveredAt.Some? ::
            id in w.boxes[s].events &&
            exists i :: && 0 <= i < |w.rows|
                        && w.rows[i] == Row(s, id, w.boxes[s].events[id].payload, w.boxes[s].events[id].digest))
      && (forall i, j | 0 <= i < j < |w.rows| ::
        !(w.rows[i].service == w.rows[j].service && w.rows[i].eventId == w.rows[j].eventId))
      && (forall i | 0 <= i < |w.rows| ::
            && w.rows[i].service in w.boxes
            && w.rows[i].eventId in w.boxes[w.rows[i].service].events
            && w.boxes[w.rows[i].service].events[w.rows[i].eventId].payload == w.rows[i].payload
            && w.boxes[w.rows[i].service].events[w.rows[i].eventId].digest == w.rows[i].digest)
  {
    hide Run, Initial, ValidEvent, HonestPublisher, KnownEvents, HonestReply;
    var w := Run(w0, steps);
    InitialInv(w0);
    RunKeepsInv(w0, steps);
    forall s, id | s in w.boxes && id in w.boxes[s].delivery && w.boxes[s].delivery[id].deliveredAt.Some?
      ensures id in w.boxes[s].events
      ensures exists i :: && 0 <= i < |w.rows|
                          && w.rows[i] == Row(s, id, w.boxes[s].events[id].payload, w.boxes[s].events[id].digest)
    {
      assert Held(w, s, id) && SoundBox(s, w.boxes[s], w.clock);
    }
    forall i | 0 <= i < |w.rows|
      ensures Recorded(w, w.rows[i].service, w.rows[i].payload)
    {
      assert SoundBox(w.rows[i].service, w.boxes[w.rows[i].service], w.clock);
    }
  }

  // In every reachable world, handling any request any publisher ever posted never meets a conflict.
  lemma NoHonestRetryConflicts(w0: World, steps: seq<Step>, r: Request)
    requires Initial(w0) && r in Run(w0, steps).requests
    ensures var w := Run(w0, steps);
      && !Collect(w.rows, r.service, r.events, r.length, w.clock).outcome.Conflict?
      && (r.service != RESERVED_SLUG && r.length <= MAX_BODY_BYTES ==>
            Collect(w.rows, r.service, r.events, r.length, w.clock).outcome == Acknowledged(EventIds(r.events)))
  {
    InitialInv(w0);
    RunKeepsInv(w0, steps);
    HonestRequestOutcome(Run(w0, steps), r);
  }

  lemma StepKeepsDelivered(w: World, step: Step, s: string, id: string)
    requires Inv(w) && s in w.boxes && id in w.boxes[s].delivery && w.boxes[s].delivery[id].deliveredAt.Some?
    ensures var w' := Next(w, step);
            s in w'.boxes && id in w'.boxes[s].delivery && w'.boxes[s].delivery[id] == w.boxes[s].delivery[id]
  {
    hide ValidEvent, Inv;
    if step.Settle? {
      SettledRow(w, step.pid, s, id);
    }
  }

  // From any reachable world on, recorded evidence keeps its columns, central rows stay in place, and
  // a delivered row is never modified again, whatever stale batch a publisher still holds.
  lemma {:induction false} NothingIsTakenBack(w: World, steps: seq<Step>)
    requires Inv(w)
    ensures Grows(w, Run(w, steps))
    ensures forall s, id | s in w.boxes && id in w.boxes[s].delivery && w.boxes[s].delivery[id].deliveredAt.Some? ::
              var w' := Run(w, steps);
              s in w'.boxes && id in w'.boxes[s].delivery && w'.boxes[s].delivery[id] == w.boxes[s].delivery[id]
    decreases |steps|
  {
    if steps != [] {
      var w1 := Next(w, steps[0]);
      StepKeepsInv(w, steps[0]);
      StepGrows(w, steps[0]);
      NothingIsTakenBack(w1, steps[1..]);
      forall s, id | s in w.boxes && id in w.boxes[s].delivery && w.boxes[s].delivery[id].deliveredAt.Some?
        ensures var w' := Run(w, steps);
                s in w'.boxes && id in w'.boxes[s].delivery && w'.boxes[s].delivery[id] == w.boxes[s].delivery[id]
      {
        StepKeepsDelivered(w, steps[0], s, id);
      }
    }
  }
}
